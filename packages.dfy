/** Values that the install/update decision utility works on: packages,
    project managers, the lookups it makes on a source repository, the
    operations it queues and the errors it raises. The repositories, the
    package sorter and the safe-range computation are collaborators whose
    code is not part of this model; they enter as the uninterpreted
    functions of `Collaborators`. */
module PackageModel {

  /** A semantic version; the utility never looks inside one. */
  datatype SemanticVersion = SemanticVersion(version: seq<nat>, specialVersion: string)

  /** A version range (IVersionSpec); produced by the safe-range collaborator
      and handed on to the source lookup unchanged. */
  datatype VersionSpec = VersionSpec(
    minVersion: Option<SemanticVersion>, isMinInclusive: bool,
    maxVersion: Option<SemanticVersion>, isMaxInclusive: bool)

  datatype Option<T> = None | Some(value: T)

  /** A package as returned by a repository: its identity. */
  datatype Package = Package(id: string, version: SemanticVersion)

  /** Handles standing for repository objects and constraint providers. */
  type RepositoryRef = nat
  type ConstraintProviderRef = nat

  /** The package manager a project manager works through: the shared local
      repository (where packages are extracted) and the source repository. */
  datatype PackageManager = PackageManager(localRepository: RepositoryRef, sourceRepository: RepositoryRef)

  /** A project manager: the project, its own reference repository, its
      package manager and its constraint provider. */
  datatype ProjectManager = ProjectManager(
    projectName: string,
    localRepository: RepositoryRef,
    packageManager: PackageManager,
    constraintProvider: ConstraintProviderRef)

  /** What a source lookup is asked for: an exact version (null meaning
      "latest") or a version range. */
  datatype Query = ExactVersion(version: Option<SemanticVersion>) | InRange(range: VersionSpec)

  /** One call of FindPackage on a source repository, with all its arguments. */
  datatype Lookup = Lookup(
    source: RepositoryRef,
    id: string,
    query: Query,
    constraints: ConstraintProviderRef,
    allowPrereleaseVersions: bool,
    allowUnlisted: bool)

  datatype PackageAction = Install | Uninstall

  /** An operation queued on the action resolver. The package is an Option
      because the safe path queues whatever the lookup returned, null included. */
  datatype Operation = Operation(action: PackageAction, package: Option<Package>, project: ProjectManager)

  /** An element of the resolver's final action list. */
  datatype ResolvedAction = ResolvedAction(action: PackageAction, package: Package, project: ProjectManager)

  /** The exceptions the utility lets escape:
      NoElements      — First() on an empty project-manager list;
      InvalidVersion  — the unsafe lookup missed for an explicit version;
      NullReference   — the unsafe lookup missed with no explicit version,
                        and building the invalid-version message dereferences it. */
  datatype Error = NoElements | InvalidVersion(version: SemanticVersion) | NullReference

  datatype Result<T> = Success(value: T) | Failure(error: Error)

  /** The collaborators whose bodies are not part of this model. */
  datatype Collaborators = Collaborators(
    /** PackageSorter.GetPackagesByDependencyOrder over a local repository */
    dependencyOrder: RepositoryRef -> seq<Package>,
    /** VersionUtility.GetSafeRange */
    safeRange: SemanticVersion -> VersionSpec,
    /** SourceRepository.FindPackage(id, version or range, constraints, prerelease, unlisted) */
    findInSource: Lookup -> Option<Package>,
    /** LocalRepository.FindPackage(id): the installed package, if any */
    findInstalled: (RepositoryRef, string) -> Option<Package>)

  /** string.IsNullOrEmpty */
  predicate IsNullOrEmpty(s: Option<string>) {
    s == None || s == Some("")
  }

  /** Enumerable.Reverse */
  function Reverse<T>(s: seq<T>): (r: seq<T>)
    ensures |r| == |s|
    ensures forall k :: 0 <= k < |s| ==> r[k] == s[|s| - 1 - k]
  {
    if s == [] then [] else Reverse(s[1..]) + [s[0]]
  }
}
