/** InstallPackageUtility and the part of ActionResolver it uses: the
    utility walks the project managers (and, for update-all, the installed
    packages) and queues Install operations on the resolver one by one; an
    exception leaves what was already queued in the resolver. Each method is
    proved against the functions of InstallPlan. */
module InstallUtility {
  import opened PackageModel
  import opened InstallPlan

  /** The action resolver: a queue of operations, and the resolution of that
      queue into the final action list (not part of this model, so given as
      a function of the queue). */
  class ActionResolver {
    var queue: seq<Operation>
    const resolve: seq<Operation> -> seq<ResolvedAction>

    constructor (resolve: seq<Operation> -> seq<ResolvedAction>)
      ensures queue == [] && this.resolve == resolve
    {
      queue := [];
      this.resolve := resolve;
    }

    method AddOperation(action: PackageAction, package: Option<Package>, project: ProjectManager)
      modifies this
      ensures queue == old(queue) + [Operation(action, package, project)]
    {
      queue := queue + [Operation(action, package, project)];
    }

    function ResolveActions(): seq<ResolvedAction>
      reads this
    {
      resolve(queue)
    }
  }

  lemma AppendIsAssociative<T>(a: seq<T>, b: seq<T>, c: seq<T>)
    ensures a + b + c == a + (b + c)
  {
  }

  class InstallPackageUtility {
    const resolver: ActionResolver
    var safe: bool
    var allowPrereleaseVersions: bool
    /** Every FindPackage call made on a source repository, in order. */
    ghost var sourceLookups: seq<Lookup>

    constructor (resolver: ActionResolver)
      ensures this.resolver == resolver && !safe && !allowPrereleaseVersions && sourceLookups == []
    {
      this.resolver := resolver;
      safe := false;
      allowPrereleaseVersions := false;
      sourceLookups := [];
    }

    /** Looks the package up at the requested version (None = latest) for
        one project and queues an Install of what was found; a miss raises,
        with nothing queued. `targetVersionSetExplicitly` is not read. */
    method AddUnsafeUpdateOperation(c: Collaborators, id: string, version: Option<SemanticVersion>,
                                    targetVersionSetExplicitly: bool, pm: ProjectManager)
      returns (err: Option<Error>)
      modifies resolver, this`sourceLookups
      ensures var l := UnsafeLookup(id, version, allowPrereleaseVersions, pm);
              && sourceLookups == old(sourceLookups) + [l]
              && match c.findInSource(l)
                 case Some(p) => err == None && resolver.queue == old(resolver.queue) + [Operation(Install, Some(p), pm)]
                 case None => err == Some(MissError(version)) && resolver.queue == old(resolver.queue)
    {
      var l := Lookup(pm.packageManager.sourceRepository, id, ExactVersion(version),
                      pm.constraintProvider, allowPrereleaseVersions, false);
      sourceLookups := sourceLookups + [l];
      var package := c.findInSource(l);
      if package.Some? {
        resolver.AddOperation(Install, package, pm);
        err := None;
      } else {
        err := Some(if version.Some? then InvalidVersion(version.value) else NullReference);
      }
    }

    /** Unsafe: one lookup and one Install per project, stopping at the first
        miss. Safe: for each project with the package installed, one lookup
        over the safe range of the installed version and one Install of
        whatever it returned; other projects are skipped. */
    method AddUpdateOperations(c: Collaborators, id: string, version: Option<SemanticVersion>, pms: seq<ProjectManager>)
      returns (err: Option<Error>)
      modifies resolver, this`sourceLookups
      ensures var o := UpdateOperations(c, safe, allowPrereleaseVersions, id, version, pms);
              && resolver.queue == old(resolver.queue) + o.queued
              && sourceLookups == old(sourceLookups) + o.lookups
              && err == o.error
    {
      if !safe {
        err := AddUnsafeUpdateOperations(c, id, version, pms);
      } else {
        AddSafeUpdateOperations(c, id, version, pms);
        err := None;
      }
    }

    /** The unsafe branch of AddUpdateOperations: its loop over the projects. */
    method AddUnsafeUpdateOperations(c: Collaborators, id: string, version: Option<SemanticVersion>, pms: seq<ProjectManager>)
      returns (err: Option<Error>)
      modifies resolver, this`sourceLookups
      ensures var o := UpdateOperations(c, false, allowPrereleaseVersions, id, version, pms);
              && resolver.queue == old(resolver.queue) + o.queued
              && sourceLookups == old(sourceLookups) + o.lookups
              && err == o.error
    {
      err := None;
      var i := 0;
      ghost var o := Start;
      while i < |pms|
        invariant 0 <= i <= |pms|
        invariant err == None
        invariant o == UpdateOperations(c, false, allowPrereleaseVersions, id, version, pms[..i])
        invariant o.error == None
        invariant resolver.queue == old(resolver.queue) + o.queued
        invariant sourceLookups == old(sourceLookups) + o.lookups
      {
        UpdateOperationsExtend(c, false, allowPrereleaseVersions, id, version, pms, i);
        ghost var s := UnsafeStep(c, id, version, allowPrereleaseVersions, pms[i]);
        ThenAppends(o, s);
        ghost var e := Then(Start, s);
        ghost var q, ls := resolver.queue, sourceLookups;
        err := AddUnsafeUpdateOperation(c, id, version, version.Some?, pms[i]);
        assert resolver.queue == q + e.queued && sourceLookups == ls + e.lookups && err == e.error;
        AppendIsAssociative(old(resolver.queue), o.queued, e.queued);
        AppendIsAssociative(old(sourceLookups), o.lookups, e.lookups);
        o := Then(o, s);
        if err.Some? {
          FailureIsFinal(c, false, allowPrereleaseVersions, id, version, pms, i + 1);
          return;
        }
        i := i + 1;
      }
      assert pms[..i] == pms;
    }

    /** The safe branch of AddUpdateOperations: its loop over the projects.
        The lookup result is queued without a null check. */
    method AddSafeUpdateOperations(c: Collaborators, id: string, version: Option<SemanticVersion>, pms: seq<ProjectManager>)
      modifies resolver, this`sourceLookups
      ensures var o := UpdateOperations(c, true, allowPrereleaseVersions, id, version, pms);
              && o.error == None
              && resolver.queue == old(resolver.queue) + o.queued
              && sourceLookups == old(sourceLookups) + o.lookups
    {
      var i := 0;
      ghost var o := Start;
      while i < |pms|
        invariant 0 <= i <= |pms|
        invariant o == UpdateOperations(c, true, allowPrereleaseVersions, id, version, pms[..i])
        invariant o.error == None
        invariant resolver.queue == old(resolver.queue) + o.queued
        invariant sourceLookups == old(sourceLookups) + o.lookups
      {
        var pm := pms[i];
        UpdateOperationsExtend(c, true, allowPrereleaseVersions, id, version, pms, i);
        ghost var s := SafeStep(c, id, allowPrereleaseVersions, pm);
        ThenAppends(o, s);
        ghost var e := Then(Start, s);
        ghost var q, ls := resolver.queue, sourceLookups;
        var installed := c.findInstalled(pm.localRepository, id);
        if installed.Some? {
          var l := Lookup(pm.packageManager.sourceRepository, id, InRange(c.safeRange(installed.value.version)),
                          pm.constraintProvider, allowPrereleaseVersions, false);
          sourceLookups := sourceLookups + [l];
          var package := c.findInSource(l);
          resolver.AddOperation(Install, package, pm);
        }
        assert resolver.queue == q + e.queued && sourceLookups == ls + e.lookups;
        AppendIsAssociative(old(resolver.queue), o.queued, e.queued);
        AppendIsAssociative(old(sourceLookups), o.lookups, e.lookups);
        o := Then(o, s);
        i := i + 1;
      }
      assert pms[..i] == pms;
    }

    /** The inner loop of update-all: every package in turn for one project,
        each with no explicit version and that project alone. */
    method UpdateProjectPackages(c: Collaborators, pm: ProjectManager, packages: seq<Package>)
      returns (err: Option<Error>)
      modifies resolver, this`sourceLookups
      ensures var o := UpdateEach(Start, c, safe, allowPrereleaseVersions, pm, packages);
              && resolver.queue == old(resolver.queue) + o.queued
              && sourceLookups == old(sourceLookups) + o.lookups
              && err == o.error
    {
      err := None;
      var j := 0;
      ghost var o := Start;
      while j < |packages|
        invariant 0 <= j <= |packages|
        invariant err == None
        invariant o == UpdateEach(Start, c, safe, allowPrereleaseVersions, pm, packages[..j])
        invariant o.error == None
        invariant resolver.queue == old(resolver.queue) + o.queued
        invariant sourceLookups == old(sourceLookups) + o.lookups
      {
        UpdateEachExtend(Start, c, safe, allowPrereleaseVersions, pm, packages, j);
        ghost var s := UpdateStep(c, safe, allowPrereleaseVersions, packages[j].id, None, pm);
        ThenAppends(o, s);
        ghost var e := Then(Start, s);
        assert [pm][..0] == [];
        assert UpdateOperations(c, safe, allowPrereleaseVersions, packages[j].id, None, [pm]) == e;
        ghost var q, ls := resolver.queue, sourceLookups;
        err := AddUpdateOperations(c, packages[j].id, None, [pm]);
        assert resolver.queue == q + e.queued && sourceLookups == ls + e.lookups && err == e.error;
        AppendIsAssociative(old(resolver.queue), o.queued, e.queued);
        AppendIsAssociative(old(sourceLookups), o.lookups, e.lookups);
        o := Then(o, s);
        if err.Some? {
          UpdateEachFailureIsFinal(Start, c, safe, allowPrereleaseVersions, pm, packages, j + 1);
          return;
        }
        j := j + 1;
      }
      assert packages[..j] == packages;
    }

    /** The outer loop of update-all: for each project in turn, every
        package of `packages`. */
    method UpdateAllProjects(c: Collaborators, pms: seq<ProjectManager>, packages: seq<Package>)
      returns (err: Option<Error>)
      modifies resolver, this`sourceLookups
      ensures var o := UpdateAll(c, safe, allowPrereleaseVersions, pms, packages);
              && resolver.queue == old(resolver.queue) + o.queued
              && sourceLookups == old(sourceLookups) + o.lookups
              && err == o.error
    {
      err := None;
      var i := 0;
      ghost var o := Start;
      while i < |pms|
        invariant 0 <= i <= |pms|
        invariant err == None
        invariant o == UpdateAll(c, safe, allowPrereleaseVersions, pms[..i], packages)
        invariant o.error == None
        invariant resolver.queue == old(resolver.queue) + o.queued
        invariant sourceLookups == old(sourceLookups) + o.lookups
      {
        UpdateAllExtend(c, safe, allowPrereleaseVersions, pms, packages, i);
        UpdateEachAppends(o, c, safe, allowPrereleaseVersions, pms[i], packages);
        ghost var e := UpdateEach(Start, c, safe, allowPrereleaseVersions, pms[i], packages);
        ghost var q, ls := resolver.queue, sourceLookups;
        err := UpdateProjectPackages(c, pms[i], packages);
        assert resolver.queue == q + e.queued && sourceLookups == ls + e.lookups;
        AppendIsAssociative(old(resolver.queue), o.queued, e.queued);
        AppendIsAssociative(old(sourceLookups), o.lookups, e.lookups);
        o := UpdateEach(o, c, safe, allowPrereleaseVersions, pms[i], packages);
        if err.Some? {
          UpdateAllFailureIsFinal(c, safe, allowPrereleaseVersions, pms, packages, i + 1);
          return;
        }
        i := i + 1;
      }
      assert pms[..i] == pms;
    }

    /** Update-all: First() on the list, then every package of the reverse
        dependency order of the first project's package repository, for
        each project in turn. */
    method ResolveActionsToInstallAllPackages(c: Collaborators, pms: seq<ProjectManager>)
      returns (r: Result<seq<ResolvedAction>>)
      modifies resolver, this`sourceLookups
      ensures var o := InstallAllPackagesPlan(c, safe, allowPrereleaseVersions, pms);
              && resolver.queue == old(resolver.queue) + o.queued
              && sourceLookups == old(sourceLookups) + o.lookups
              && r == (if o.error.Some? then Failure(o.error.value) else Success(resolver.ResolveActions()))
    {
      if pms == [] {
        return Failure(NoElements);
      }
      var packages := Reverse(c.dependencyOrder(pms[0].packageManager.localRepository));
      var err := UpdateAllProjects(c, pms, packages);
      if err.Some? {
        return Failure(err.value);
      }
      r := Success(resolver.ResolveActions());
    }

    /** Update-one: First() on the list (its value unused), then one call of
        AddUpdateOperations with the whole list. */
    method ResolveActionsToInstallOnePackage(c: Collaborators, id: string, version: Option<SemanticVersion>,
                                             pms: seq<ProjectManager>, projectNameSpecified: bool)
      returns (r: Result<seq<ResolvedAction>>)
      modifies resolver, this`sourceLookups
      ensures var o := InstallOnePackagePlan(c, safe, allowPrereleaseVersions, id, version, pms);
              && resolver.queue == old(resolver.queue) + o.queued
              && sourceLookups == old(sourceLookups) + o.lookups
              && r == (if o.error.Some? then Failure(o.error.value) else Success(resolver.ResolveActions()))
    {
      if pms == [] {
        return Failure(NoElements);
      }
      var err := AddUpdateOperations(c, id, version, pms);
      if err.Some? {
        return Failure(err.value);
      }
      r := Success(resolver.ResolveActions());
    }

    /** A null or empty id updates every installed package; any other id
        updates that one package. */
    method ResolveActionsForInstallPackage(c: Collaborators, id: Option<string>, version: Option<SemanticVersion>,
                                           pms: seq<ProjectManager>, projectNameSpecified: bool)
      returns (r: Result<seq<ResolvedAction>>)
      modifies resolver, this`sourceLookups
      ensures var o := InstallPackagePlan(c, safe, allowPrereleaseVersions, id, version, pms);
              && resolver.queue == old(resolver.queue) + o.queued
              && sourceLookups == old(sourceLookups) + o.lookups
              && r == (if o.error.Some? then Failure(o.error.value) else Success(resolver.ResolveActions()))
    {
      if id == None || id == Some("") {
        r := ResolveActionsToInstallAllPackages(c, pms);
      } else {
        r := ResolveActionsToInstallOnePackage(c, id.value, version, pms, projectNameSpecified);
      }
    }
  }
}
