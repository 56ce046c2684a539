/** What InstallPackageUtility queues, as pure functions. Each project (or
    each project and package, for update-all) is one `Step`: skipped, an
    operation queued after one source lookup, or an exception raised after
    one source lookup. A run folds the steps left to right into an `Outcome`;
    once an exception has been raised nothing further happens, as when the
    exception escapes the loops of the source. */
module InstallPlan {
  import opened PackageModel

  datatype Step = Skipped | Queued(lookup: Lookup, op: Operation) | Failed(lookup: Lookup, error: Error)

  /** Operations queued, source lookups made, and the exception raised, if any. */
  datatype Outcome = Outcome(queued: seq<Operation>, lookups: seq<Lookup>, error: Option<Error>)

  const Start := Outcome([], [], None)

  /** The lookup of the unsafe path: the requested version (None = latest),
      the project's constraint provider, and unlisted packages refused. */
  function UnsafeLookup(id: string, version: Option<SemanticVersion>, allowPrerelease: bool, pm: ProjectManager): Lookup {
    Lookup(pm.packageManager.sourceRepository, id, ExactVersion(version), pm.constraintProvider, allowPrerelease, false)
  }

  /** The lookup of the safe path: the safe range of the installed version. */
  function SafeLookup(c: Collaborators, id: string, installed: Package, allowPrerelease: bool, pm: ProjectManager): Lookup {
    Lookup(pm.packageManager.sourceRepository, id, InRange(c.safeRange(installed.version)), pm.constraintProvider, allowPrerelease, false)
  }

  /** The exception of an unsafe miss: formatting the invalid-version message
      calls ToString on the requested version, which fails when it is null. */
  function MissError(version: Option<SemanticVersion>): Error {
    match version
    case Some(v) => InvalidVersion(v)
    case None => NullReference
  }

  /** AddUnsafeUpdateOperation for one project. */
  function UnsafeStep(c: Collaborators, id: string, version: Option<SemanticVersion>, allowPrerelease: bool, pm: ProjectManager): Step {
    var l := UnsafeLookup(id, version, allowPrerelease, pm);
    match c.findInSource(l)
    case Some(p) => Queued(l, Operation(Install, Some(p), pm))
    case None => Failed(l, MissError(version))
  }

  /** One iteration of the safe loop of AddUpdateOperations. */
  function SafeStep(c: Collaborators, id: string, allowPrerelease: bool, pm: ProjectManager): Step {
    match c.findInstalled(pm.localRepository, id)
    case None => Skipped
    case Some(installed) =>
      var l := SafeLookup(c, id, installed, allowPrerelease, pm);
      Queued(l, Operation(Install, c.findInSource(l), pm))
  }

  function UpdateStep(c: Collaborators, safe: bool, allowPrerelease: bool, id: string,
                      version: Option<SemanticVersion>, pm: ProjectManager): Step {
    if safe then SafeStep(c, id, allowPrerelease, pm) else UnsafeStep(c, id, version, allowPrerelease, pm)
  }

  /** Runs one more step, unless an exception has already been raised. */
  function Then(o: Outcome, s: Step): Outcome {
    if o.error.Some? then o
    else match s
      case Skipped => o
      case Queued(l, op) => Outcome(o.queued + [op], o.lookups + [l], None)
      case Failed(l, e) => Outcome(o.queued, o.lookups + [l], Some(e))
  }

  /** AddUpdateOperations(id, version, projectManagers). */
  function UpdateOperations(c: Collaborators, safe: bool, allowPrerelease: bool, id: string,
                            version: Option<SemanticVersion>, pms: seq<ProjectManager>): Outcome
  {
    if pms == [] then Start
    else Then(UpdateOperations(c, safe, allowPrerelease, id, version, pms[..|pms| - 1]),
              UpdateStep(c, safe, allowPrerelease, id, version, pms[|pms| - 1]))
  }

  /** The inner loop of update-all: every package, in order, for one project,
      each with no explicit version. */
  function UpdateEach(o: Outcome, c: Collaborators, safe: bool, allowPrerelease: bool,
                      pm: ProjectManager, packages: seq<Package>): Outcome
  {
    if packages == [] then o
    else Then(UpdateEach(o, c, safe, allowPrerelease, pm, packages[..|packages| - 1]),
              UpdateStep(c, safe, allowPrerelease, packages[|packages| - 1].id, None, pm))
  }

  /** The outer loop of update-all: projects outside, packages inside. */
  function UpdateAll(c: Collaborators, safe: bool, allowPrerelease: bool,
                     pms: seq<ProjectManager>, packages: seq<Package>): Outcome
  {
    if pms == [] then Start
    else UpdateEach(UpdateAll(c, safe, allowPrerelease, pms[..|pms| - 1], packages),
                    c, safe, allowPrerelease, pms[|pms| - 1], packages)
  }

  /** The packages update-all walks: the reverse of the sorter's dependency
      order over the package manager's local repository of the first project. */
  function PackagesToUpdate(c: Collaborators, pms: seq<ProjectManager>): seq<Package>
    requires pms != []
  {
    Reverse(c.dependencyOrder(pms[0].packageManager.localRepository))
  }

  /** ResolveActionsToInstallAllPackages, up to the final ResolveActions. */
  function InstallAllPackagesPlan(c: Collaborators, safe: bool, allowPrerelease: bool,
                                  pms: seq<ProjectManager>): Outcome
  {
    if pms == [] then Outcome([], [], Some(NoElements))
    else UpdateAll(c, safe, allowPrerelease, pms, PackagesToUpdate(c, pms))
  }

  /** ResolveActionsToInstallOnePackage, up to the final ResolveActions: the
      unused First() still fails on an empty list. */
  function InstallOnePackagePlan(c: Collaborators, safe: bool, allowPrerelease: bool, id: string,
                                 version: Option<SemanticVersion>, pms: seq<ProjectManager>): Outcome
  {
    if pms == [] then Outcome([], [], Some(NoElements))
    else UpdateOperations(c, safe, allowPrerelease, id, version, pms)
  }

  /** ResolveActionsForInstallPackage, up to the final ResolveActions. */
  function InstallPackagePlan(c: Collaborators, safe: bool, allowPrerelease: bool, id: Option<string>,
                              version: Option<SemanticVersion>, pms: seq<ProjectManager>): (r: Outcome)
    ensures pms == [] ==> r == Outcome([], [], Some(NoElements))
  {
    if IsNullOrEmpty(id) then InstallAllPackagesPlan(c, safe, allowPrerelease, pms)
    else InstallOnePackagePlan(c, safe, allowPrerelease, id.value, version, pms)
  }

  /** The projects of `pms`, in order, whose own repository has `id` installed. */
  function InstalledProjects(c: Collaborators, id: string, pms: seq<ProjectManager>): seq<ProjectManager> {
    if pms == [] then []
    else InstalledProjects(c, id, pms[..|pms| - 1])
         + (if c.findInstalled(pms[|pms| - 1].localRepository, id).Some? then [pms[|pms| - 1]] else [])
  }

  predicate OnlyInstalls(ops: seq<Operation>) {
    forall k :: 0 <= k < |ops| ==> ops[k].action == Install
  }

  // ---------------------------------------------------------------------
  // Exceptions end the run

  /** Once a project's lookup has raised, the projects after it are not
      processed: the run over the whole list equals the run up to the failure. */
  lemma {:induction false} FailureIsFinal(c: Collaborators, safe: bool, allowPrerelease: bool, id: string,
                                          version: Option<SemanticVersion>, pms: seq<ProjectManager>, k: nat)
    requires k <= |pms|
    requires UpdateOperations(c, safe, allowPrerelease, id, version, pms[..k]).error.Some?
    ensures UpdateOperations(c, safe, allowPrerelease, id, version, pms)
         == UpdateOperations(c, safe, allowPrerelease, id, version, pms[..k])
  {
    if k < |pms| {
      var front := pms[..|pms| - 1];
      assert front[..k] == pms[..k];
      FailureIsFinal(c, safe, allowPrerelease, id, version, front, k);
    } else {
      assert pms[..k] == pms;
    }
  }

  /** An outcome that already holds an exception goes through the inner
      update-all loop untouched. */
  lemma {:induction false} UpdateEachAfterFailure(o: Outcome, c: Collaborators, safe: bool, allowPrerelease: bool,
                                                  pm: ProjectManager, packages: seq<Package>)
    requires o.error.Some?
    ensures UpdateEach(o, c, safe, allowPrerelease, pm, packages) == o
  {
    if packages != [] {
      UpdateEachAfterFailure(o, c, safe, allowPrerelease, pm, packages[..|packages| - 1]);
    }
  }

  lemma {:induction false} UpdateEachFailureIsFinal(o: Outcome, c: Collaborators, safe: bool, allowPrerelease: bool,
                                                    pm: ProjectManager, packages: seq<Package>, k: nat)
    requires k <= |packages|
    requires UpdateEach(o, c, safe, allowPrerelease, pm, packages[..k]).error.Some?
    ensures UpdateEach(o, c, safe, allowPrerelease, pm, packages)
         == UpdateEach(o, c, safe, allowPrerelease, pm, packages[..k])
  {
    if k < |packages| {
      var front := packages[..|packages| - 1];
      assert front[..k] == packages[..k];
      UpdateEachFailureIsFinal(o, c, safe, allowPrerelease, pm, front, k);
    } else {
      assert packages[..k] == packages;
    }
  }

  /** In update-all, an exception for one project means no later project is processed. */
  lemma {:induction false} UpdateAllFailureIsFinal(c: Collaborators, safe: bool, allowPrerelease: bool,
                                                   pms: seq<ProjectManager>, packages: seq<Package>, k: nat)
    requires k <= |pms|
    requires UpdateAll(c, safe, allowPrerelease, pms[..k], packages).error.Some?
    ensures UpdateAll(c, safe, allowPrerelease, pms, packages) == UpdateAll(c, safe, allowPrerelease, pms[..k], packages)
  {
    if k < |pms| {
      var front := pms[..|pms| - 1];
      assert front[..k] == pms[..k];
      UpdateAllFailureIsFinal(c, safe, allowPrerelease, front, packages, k);
      UpdateEachAfterFailure(UpdateAll(c, safe, allowPrerelease, front, packages), c, safe, allowPrerelease, pms[|pms| - 1], packages);
    } else {
      assert pms[..k] == pms;
    }
  }

  /** The inner update-all loop run on an outcome without an exception only
      appends to it what it would produce from the start. */
  lemma {:induction false} UpdateEachAppends(o: Outcome, c: Collaborators, safe: bool, allowPrerelease: bool,
                                             pm: ProjectManager, packages: seq<Package>)
    requires o.error == None
    ensures var e := UpdateEach(Start, c, safe, allowPrerelease, pm, packages);
            UpdateEach(o, c, safe, allowPrerelease, pm, packages) == Outcome(o.queued + e.queued, o.lookups + e.lookups, e.error)
  {
    if packages != [] {
      var front := packages[..|packages| - 1];
      UpdateEachAppends(o, c, safe, allowPrerelease, pm, front);
      var e := UpdateEach(Start, c, safe, allowPrerelease, pm, front);
      if e.error == None {
        ThenAppends(e, UpdateStep(c, safe, allowPrerelease, packages[|packages| - 1].id, None, pm));
        ThenAppends(Outcome(o.queued + e.queued, o.lookups + e.lookups, None),
                    UpdateStep(c, safe, allowPrerelease, packages[|packages| - 1].id, None, pm));
      }
    }
  }

  /** One more project on the one-package run. */
  lemma UpdateOperationsExtend(c: Collaborators, safe: bool, allowPrerelease: bool, id: string,
                               version: Option<SemanticVersion>, pms: seq<ProjectManager>, i: nat)
    requires i < |pms|
    ensures UpdateOperations(c, safe, allowPrerelease, id, version, pms[..i + 1])
         == Then(UpdateOperations(c, safe, allowPrerelease, id, version, pms[..i]),
                 UpdateStep(c, safe, allowPrerelease, id, version, pms[i]))
  {
    assert pms[..i + 1][..i] == pms[..i];
  }

  /** One more project on the update-all run. */
  lemma UpdateAllExtend(c: Collaborators, safe: bool, allowPrerelease: bool,
                        pms: seq<ProjectManager>, packages: seq<Package>, i: nat)
    requires i < |pms|
    ensures UpdateAll(c, safe, allowPrerelease, pms[..i + 1], packages)
         == UpdateEach(UpdateAll(c, safe, allowPrerelease, pms[..i], packages), c, safe, allowPrerelease, pms[i], packages)
  {
    assert pms[..i + 1][..i] == pms[..i];
  }

  /** One more package on the inner update-all run. */
  lemma UpdateEachExtend(o: Outcome, c: Collaborators, safe: bool, allowPrerelease: bool,
                         pm: ProjectManager, packages: seq<Package>, j: nat)
    requires j < |packages|
    ensures UpdateEach(o, c, safe, allowPrerelease, pm, packages[..j + 1])
         == Then(UpdateEach(o, c, safe, allowPrerelease, pm, packages[..j]),
                 UpdateStep(c, safe, allowPrerelease, packages[j].id, None, pm))
  {
    assert packages[..j + 1][..j] == packages[..j];
  }

  /** A step run on an outcome without an exception only appends to it. */
  lemma ThenAppends(o: Outcome, s: Step)
    requires o.error == None
    ensures var r := Then(Start, s);
            Then(o, s) == Outcome(o.queued + r.queued, o.lookups + r.lookups, r.error)
  {
  }

  // ---------------------------------------------------------------------
  // Only Install is ever queued

  lemma {:induction false} UpdateOperationsOnlyInstalls(c: Collaborators, safe: bool, allowPrerelease: bool, id: string,
                                                        version: Option<SemanticVersion>, pms: seq<ProjectManager>)
    ensures OnlyInstalls(UpdateOperations(c, safe, allowPrerelease, id, version, pms).queued)
  {
    if pms != [] {
      UpdateOperationsOnlyInstalls(c, safe, allowPrerelease, id, version, pms[..|pms| - 1]);
    }
  }

  lemma {:induction false} UpdateEachOnlyInstalls(o: Outcome, c: Collaborators, safe: bool, allowPrerelease: bool,
                                                  pm: ProjectManager, packages: seq<Package>)
    requires OnlyInstalls(o.queued)
    ensures OnlyInstalls(UpdateEach(o, c, safe, allowPrerelease, pm, packages).queued)
  {
    if packages != [] {
      UpdateEachOnlyInstalls(o, c, safe, allowPrerelease, pm, packages[..|packages| - 1]);
    }
  }

  lemma {:induction false} UpdateAllOnlyInstalls(c: Collaborators, safe: bool, allowPrerelease: bool,
                                                 pms: seq<ProjectManager>, packages: seq<Package>)
    ensures OnlyInstalls(UpdateAll(c, safe, allowPrerelease, pms, packages).queued)
  {
    if pms != [] {
      UpdateAllOnlyInstalls(c, safe, allowPrerelease, pms[..|pms| - 1], packages);
      UpdateEachOnlyInstalls(UpdateAll(c, safe, allowPrerelease, pms[..|pms| - 1], packages),
                             c, safe, allowPrerelease, pms[|pms| - 1], packages);
    }
  }

  /** The utility never queues an Uninstall, on either entry path. */
  lemma InstallPackageOnlyInstalls(c: Collaborators, safe: bool, allowPrerelease: bool, id: Option<string>,
                                   version: Option<SemanticVersion>, pms: seq<ProjectManager>)
    ensures OnlyInstalls(InstallPackagePlan(c, safe, allowPrerelease, id, version, pms).queued)
  {
    if IsNullOrEmpty(id) {
      if pms != [] { UpdateAllOnlyInstalls(c, safe, allowPrerelease, pms, PackagesToUpdate(c, pms)); }
    } else {
      UpdateOperationsOnlyInstalls(c, safe, allowPrerelease, id.value, version, pms);
    }
  }

  /** With no project managers, both paths raise from First() before any
      lookup or operation. */
  lemma NoProjectsRaises(c: Collaborators, safe: bool, allowPrerelease: bool, id: Option<string>,
                         version: Option<SemanticVersion>)
    ensures InstallPackagePlan(c, safe, allowPrerelease, id, version, []) == Outcome([], [], Some(NoElements))
  {
  }

  // ---------------------------------------------------------------------
  // Unsafe mode, one package

  /** Unsafe mode, by index: project i gets exactly one lookup, with the
      requested version, its constraint provider and unlisted packages
      refused; a hit queues exactly one Install of the hit for that project;
      the first miss raises, keeps what earlier projects queued, and ends the
      run. */
  lemma {:induction false} UnsafeRunByIndex(c: Collaborators, allowPrerelease: bool, id: string,
                                            version: Option<SemanticVersion>, pms: seq<ProjectManager>)
    ensures var o := UpdateOperations(c, false, allowPrerelease, id, version, pms);
            var n := |o.queued|;
            && n <= |pms|
            && (o.error == None <==> n == |pms|)
            && |o.lookups| == (if o.error == None then n else n + 1)
            && (forall k :: 0 <= k < |o.lookups| ==> o.lookups[k] == UnsafeLookup(id, version, allowPrerelease, pms[k]))
            && (forall k :: 0 <= k < n ==>
                  c.findInSource(o.lookups[k]).Some? &&
                  o.queued[k] == Operation(Install, c.findInSource(o.lookups[k]), pms[k]))
            && (o.error != None ==> c.findInSource(o.lookups[n]) == None && o.error == Some(MissError(version)))
  {
    if pms != [] {
      var front := pms[..|pms| - 1];
      UnsafeRunByIndex(c, allowPrerelease, id, version, front);
      var p := UpdateOperations(c, false, allowPrerelease, id, version, front);
      var o := UpdateOperations(c, false, allowPrerelease, id, version, pms);
      assert forall k :: 0 <= k < |front| ==> front[k] == pms[k];
      if p.error == None {
        var l := UnsafeLookup(id, version, allowPrerelease, pms[|pms| - 1]);
        assert o.lookups == p.lookups + [l];
      }
    }
  }

  // ---------------------------------------------------------------------
  // Safe mode, one package

  /** The filter behind safe mode: exactly the listed projects that have the
      package installed. */
  lemma {:induction false} InstalledProjectsMembers(c: Collaborators, id: string, pms: seq<ProjectManager>)
    ensures forall pm :: pm in InstalledProjects(c, id, pms) <==>
              pm in pms && c.findInstalled(pm.localRepository, id).Some?
  {
    if pms != [] {
      var front := pms[..|pms| - 1];
      InstalledProjectsMembers(c, id, front);
      assert pms == front + [pms[|pms| - 1]];
    }
  }

  /** Safe mode never raises. It makes one lookup, over the safe range of the
      installed version, for each project that has the package installed,
      and queues one Install per such project whatever the lookup returned
      (a miss queues an Install with no package); other projects get neither
      a lookup nor an operation. */
  lemma {:induction false} SafeRunByIndex(c: Collaborators, allowPrerelease: bool, id: string,
                                          version: Option<SemanticVersion>, pms: seq<ProjectManager>)
    ensures var o := UpdateOperations(c, true, allowPrerelease, id, version, pms);
            var ip := InstalledProjects(c, id, pms);
            && o.error == None
            && |o.queued| == |ip| && |o.lookups| == |ip|
            && (forall k :: 0 <= k < |ip| ==>
                  c.findInstalled(ip[k].localRepository, id).Some? &&
                  o.lookups[k] == SafeLookup(c, id, c.findInstalled(ip[k].localRepository, id).value, allowPrerelease, ip[k]) &&
                  o.queued[k] == Operation(Install, c.findInSource(o.lookups[k]), ip[k]))
  {
    if pms != [] {
      SafeRunByIndex(c, allowPrerelease, id, version, pms[..|pms| - 1]);
    }
  }

  /** Safe mode ignores an explicitly requested version. */
  lemma {:induction false} SafeIgnoresVersion(c: Collaborators, allowPrerelease: bool, id: string,
                                              v1: Option<SemanticVersion>, v2: Option<SemanticVersion>,
                                              pms: seq<ProjectManager>)
    ensures UpdateOperations(c, true, allowPrerelease, id, v1, pms) == UpdateOperations(c, true, allowPrerelease, id, v2, pms)
  {
    if pms != [] {
      SafeIgnoresVersion(c, allowPrerelease, id, v1, v2, pms[..|pms| - 1]);
    }
  }

  // ---------------------------------------------------------------------
  // Update-all

  /** Update-all never passes an explicit version to a lookup; so in unsafe
      mode a miss always raises the null dereference, never InvalidVersion. */
  lemma {:induction false} UpdateEachPassesNoVersion(o: Outcome, c: Collaborators, safe: bool, allowPrerelease: bool,
                                                     pm: ProjectManager, packages: seq<Package>)
    requires forall l :: l in o.lookups ==> l.query != ExactVersion(None) ==> l.query.InRange?
    requires o.error == None || o.error == Some(NullReference)
    ensures var r := UpdateEach(o, c, safe, allowPrerelease, pm, packages);
            && (forall l :: l in r.lookups ==> l.query != ExactVersion(None) ==> l.query.InRange?)
            && (r.error == None || r.error == Some(NullReference))
  {
    if packages != [] {
      UpdateEachPassesNoVersion(o, c, safe, allowPrerelease, pm, packages[..|packages| - 1]);
    }
  }

  lemma {:induction false} UpdateAllPassesNoVersion(c: Collaborators, safe: bool, allowPrerelease: bool,
                                                    pms: seq<ProjectManager>)
    ensures var r := InstallAllPackagesPlan(c, safe, allowPrerelease, pms);
            && (forall l :: l in r.lookups ==> l.query != ExactVersion(None) ==> l.query.InRange?)
            && (pms != [] ==> r.error == None || r.error == Some(NullReference))
  {
    if pms != [] {
      UpdateAllPassesNoVersionFrom(c, safe, allowPrerelease, pms, PackagesToUpdate(c, pms));
    }
  }

  lemma {:induction false} UpdateAllPassesNoVersionFrom(c: Collaborators, safe: bool, allowPrerelease: bool,
                                                        pms: seq<ProjectManager>, packages: seq<Package>)
    ensures var r := UpdateAll(c, safe, allowPrerelease, pms, packages);
            && (forall l :: l in r.lookups ==> l.query != ExactVersion(None) ==> l.query.InRange?)
            && (r.error == None || r.error == Some(NullReference))
  {
    if pms != [] {
      UpdateAllPassesNoVersionFrom(c, safe, allowPrerelease, pms[..|pms| - 1], packages);
      UpdateEachPassesNoVersion(UpdateAll(c, safe, allowPrerelease, pms[..|pms| - 1], packages),
                                c, safe, allowPrerelease, pms[|pms| - 1], packages);
    }
  }

  /** The Install the unsafe path queues for `pkg` on project `pm` in
      update-all: whatever the source returned for the latest version. */
  function UnsafeInstall(c: Collaborators, allowPrerelease: bool, pm: ProjectManager, pkg: Package): Operation {
    Operation(Install, c.findInSource(UnsafeLookup(pkg.id, None, allowPrerelease, pm)), pm)
  }

  /** One project's block of update-all: an Install per package, in order. */
  function UnsafeBlock(c: Collaborators, allowPrerelease: bool, pm: ProjectManager, packages: seq<Package>): seq<Operation> {
    seq(|packages|, j requires 0 <= j < |packages| => UnsafeInstall(c, allowPrerelease, pm, packages[j]))
  }

  /** The lookups of one project's block: one per package, in order, with no
      explicit version. */
  function UnsafeLookupBlock(allowPrerelease: bool, pm: ProjectManager, packages: seq<Package>): seq<Lookup> {
    seq(|packages|, j requires 0 <= j < |packages| => UnsafeLookup(packages[j].id, None, allowPrerelease, pm))
  }

  /** The blocks of all projects, project after project. */
  function UnsafeBlocks(c: Collaborators, allowPrerelease: bool, pms: seq<ProjectManager>, packages: seq<Package>): seq<Operation> {
    if pms == [] then []
    else UnsafeBlocks(c, allowPrerelease, pms[..|pms| - 1], packages) + UnsafeBlock(c, allowPrerelease, pms[|pms| - 1], packages)
  }

  function UnsafeLookupBlocks(allowPrerelease: bool, pms: seq<ProjectManager>, packages: seq<Package>): seq<Lookup> {
    if pms == [] then []
    else UnsafeLookupBlocks(allowPrerelease, pms[..|pms| - 1], packages) + UnsafeLookupBlock(allowPrerelease, pms[|pms| - 1], packages)
  }

  /** The source has the latest version of `pkg` for project `pm`. */
  predicate Found(c: Collaborators, allowPrerelease: bool, pm: ProjectManager, pkg: Package) {
    c.findInSource(UnsafeLookup(pkg.id, None, allowPrerelease, pm)).Some?
  }

  /** The source has the latest version of every package for project `pm`. */
  predicate AllFound(c: Collaborators, allowPrerelease: bool, pm: ProjectManager, packages: seq<Package>) {
    forall j :: 0 <= j < |packages| ==> Found(c, allowPrerelease, pm, packages[j])
  }

  /** Unsafe update-all, inner loop: it raises exactly when some package is
      missing from the source, and otherwise appends the project's block of
      lookups and Installs. */
  lemma {:induction false} UpdateEachUnsafe(o: Outcome, c: Collaborators, allowPrerelease: bool,
                                            pm: ProjectManager, packages: seq<Package>)
    requires o.error == None
    ensures var r := UpdateEach(o, c, false, allowPrerelease, pm, packages);
            && (r.error == None <==> AllFound(c, allowPrerelease, pm, packages))
            && (r.error == None ==> r.queued == o.queued + UnsafeBlock(c, allowPrerelease, pm, packages))
            && (r.error == None ==> r.lookups == o.lookups + UnsafeLookupBlock(allowPrerelease, pm, packages))
  {
    if packages != [] {
      var n := |packages|;
      var front := packages[..n - 1];
      var p := UpdateEach(o, c, false, allowPrerelease, pm, front);
      var r := UpdateEach(o, c, false, allowPrerelease, pm, packages);
      UpdateEachUnsafe(o, c, allowPrerelease, pm, front);
      assert forall j :: 0 <= j < n - 1 ==> front[j] == packages[j];
      if p.error.Some? {
        assert r == p;
        var j :| 0 <= j < n - 1 && !Found(c, allowPrerelease, pm, front[j]);
      } else {
        assert UnsafeBlock(c, allowPrerelease, pm, packages)
            == UnsafeBlock(c, allowPrerelease, pm, front) + [UnsafeInstall(c, allowPrerelease, pm, packages[n - 1])];
        assert UnsafeLookupBlock(allowPrerelease, pm, packages)
            == UnsafeLookupBlock(allowPrerelease, pm, front) + [UnsafeLookup(packages[n - 1].id, None, allowPrerelease, pm)];
      }
    }
  }

  /** Unsafe update-all: it raises exactly when, for some project, some
      package is missing from the source; otherwise it looks up and queues,
      project after project, every package in order. */
  lemma {:induction false} UpdateAllUnsafe(c: Collaborators, allowPrerelease: bool,
                                           pms: seq<ProjectManager>, packages: seq<Package>)
    ensures var r := UpdateAll(c, false, allowPrerelease, pms, packages);
            && (r.error == None <==> forall i :: 0 <= i < |pms| ==> AllFound(c, allowPrerelease, pms[i], packages))
            && (r.error == None ==> r.queued == UnsafeBlocks(c, allowPrerelease, pms, packages))
            && (r.error == None ==> r.lookups == UnsafeLookupBlocks(allowPrerelease, pms, packages))
  {
    if pms != [] {
      var m := |pms|;
      var front := pms[..m - 1];
      var p := UpdateAll(c, false, allowPrerelease, front, packages);
      UpdateAllUnsafe(c, allowPrerelease, front, packages);
      assert forall i :: 0 <= i < m - 1 ==> front[i] == pms[i];
      if p.error.Some? {
        UpdateEachAfterFailure(p, c, false, allowPrerelease, pms[m - 1], packages);
        var i :| 0 <= i < m - 1 && !AllFound(c, allowPrerelease, front[i], packages);
      } else {
        UpdateEachUnsafe(p, c, allowPrerelease, pms[m - 1], packages);
      }
    }
  }

  /** Unsafe update-all, one project, at its first miss, package j: the
      packages before j are looked up and queued, package j is looked up and
      raises the null dereference, and later packages get nothing. */
  lemma UpdateEachUnsafeFirstMiss(o: Outcome, c: Collaborators, allowPrerelease: bool,
                                  pm: ProjectManager, packages: seq<Package>, j: nat)
    requires o.error == None && j < |packages|
    requires AllFound(c, allowPrerelease, pm, packages[..j]) && !Found(c, allowPrerelease, pm, packages[j])
    ensures UpdateEach(o, c, false, allowPrerelease, pm, packages)
         == Outcome(o.queued + UnsafeBlock(c, allowPrerelease, pm, packages[..j]),
                    o.lookups + UnsafeLookupBlock(allowPrerelease, pm, packages[..j])
                    + [UnsafeLookup(packages[j].id, None, allowPrerelease, pm)],
                    Some(NullReference))
  {
    UpdateEachUnsafe(o, c, allowPrerelease, pm, packages[..j]);
    UpdateEachExtend(o, c, false, allowPrerelease, pm, packages, j);
    UpdateEachFailureIsFinal(o, c, false, allowPrerelease, pm, packages, j + 1);
  }

  /** Unsafe update-all at its first miss, package j of project i: the run
      raises the null dereference, keeping the complete blocks of the
      projects before i and, for project i, the lookups and Installs of the
      packages before j, plus the failed lookup of package j. */
  lemma UpdateAllUnsafeFirstMiss(c: Collaborators, allowPrerelease: bool,
                                 pms: seq<ProjectManager>, packages: seq<Package>, i: nat, j: nat)
    requires i < |pms| && j < |packages|
    requires forall i' :: 0 <= i' < i ==> AllFound(c, allowPrerelease, pms[i'], packages)
    requires AllFound(c, allowPrerelease, pms[i], packages[..j]) && !Found(c, allowPrerelease, pms[i], packages[j])
    ensures UpdateAll(c, false, allowPrerelease, pms, packages)
         == Outcome(UnsafeBlocks(c, allowPrerelease, pms[..i], packages) + UnsafeBlock(c, allowPrerelease, pms[i], packages[..j]),
                    UnsafeLookupBlocks(allowPrerelease, pms[..i], packages) + UnsafeLookupBlock(allowPrerelease, pms[i], packages[..j])
                    + [UnsafeLookup(packages[j].id, None, allowPrerelease, pms[i])],
                    Some(NullReference))
  {
    var p := UpdateAll(c, false, allowPrerelease, pms[..i], packages);
    assert forall i' :: 0 <= i' < i ==> pms[..i][i'] == pms[i'];
    UpdateAllUnsafe(c, allowPrerelease, pms[..i], packages);
    UpdateEachUnsafeFirstMiss(p, c, allowPrerelease, pms[i], packages, j);
    UpdateAllExtend(c, false, allowPrerelease, pms, packages, i);
    UpdateAllFailureIsFinal(c, false, allowPrerelease, pms, packages, i + 1);
  }

  /** Unsafe update-all from the entry point: the packages are the reverse
      of the sorter's order over the first project's package repository. */
  lemma InstallAllUnsafe(c: Collaborators, allowPrerelease: bool, pms: seq<ProjectManager>)
    requires pms != []
    ensures var order := c.dependencyOrder(pms[0].packageManager.localRepository);
            var packages := Reverse(order);
            var o := InstallAllPackagesPlan(c, false, allowPrerelease, pms);
            && (o.error == None <==> forall i :: 0 <= i < |pms| ==> AllFound(c, allowPrerelease, pms[i], packages))
            && (o.error == None ==> o.queued == UnsafeBlocks(c, allowPrerelease, pms, packages))
            && (o.error == None ==> o.lookups == UnsafeLookupBlocks(allowPrerelease, pms, packages))
            && (forall j :: 0 <= j < |packages| ==> packages[j] == order[|order| - 1 - j])
  {
    UpdateAllUnsafe(c, allowPrerelease, pms, PackagesToUpdate(c, pms));
  }

  // ---------------------------------------------------------------------
  // Safe update-all

  /** What safe update-all does for `pkg` on project `pm`: nothing when the
      project's repository does not have it; otherwise one lookup over the
      safe range of the installed version ... */
  function SafeLookupsFor(c: Collaborators, allowPrerelease: bool, pm: ProjectManager, pkg: Package): seq<Lookup> {
    match c.findInstalled(pm.localRepository, pkg.id)
    case None => []
    case Some(installed) => [SafeLookup(c, pkg.id, installed, allowPrerelease, pm)]
  }

  /** ... and one Install of whatever that lookup returned. */
  function SafeInstallsFor(c: Collaborators, allowPrerelease: bool, pm: ProjectManager, pkg: Package): seq<Operation> {
    match c.findInstalled(pm.localRepository, pkg.id)
    case None => []
    case Some(installed) => [Operation(Install, c.findInSource(SafeLookup(c, pkg.id, installed, allowPrerelease, pm)), pm)]
  }

  /** Safe update-all's operations: project after project, package after package. */
  function SafeBlocks(c: Collaborators, allowPrerelease: bool, pms: seq<ProjectManager>, packages: seq<Package>): seq<Operation> {
    if pms == [] then []
    else SafeBlocks(c, allowPrerelease, pms[..|pms| - 1], packages) + SafeBlock(c, allowPrerelease, pms[|pms| - 1], packages)
  }

  function SafeBlock(c: Collaborators, allowPrerelease: bool, pm: ProjectManager, packages: seq<Package>): seq<Operation> {
    if packages == [] then []
    else SafeBlock(c, allowPrerelease, pm, packages[..|packages| - 1]) + SafeInstallsFor(c, allowPrerelease, pm, packages[|packages| - 1])
  }

  /** Safe update-all's lookups, in the same order. */
  function SafeLookupBlocks(c: Collaborators, allowPrerelease: bool, pms: seq<ProjectManager>, packages: seq<Package>): seq<Lookup> {
    if pms == [] then []
    else SafeLookupBlocks(c, allowPrerelease, pms[..|pms| - 1], packages) + SafeLookupBlock(c, allowPrerelease, pms[|pms| - 1], packages)
  }

  function SafeLookupBlock(c: Collaborators, allowPrerelease: bool, pm: ProjectManager, packages: seq<Package>): seq<Lookup> {
    if packages == [] then []
    else SafeLookupBlock(c, allowPrerelease, pm, packages[..|packages| - 1]) + SafeLookupsFor(c, allowPrerelease, pm, packages[|packages| - 1])
  }

  lemma {:induction false} UpdateEachSafe(o: Outcome, c: Collaborators, allowPrerelease: bool,
                                          pm: ProjectManager, packages: seq<Package>)
    requires o.error == None
    ensures var r := UpdateEach(o, c, true, allowPrerelease, pm, packages);
            && r.error == None
            && r.queued == o.queued + SafeBlock(c, allowPrerelease, pm, packages)
            && r.lookups == o.lookups + SafeLookupBlock(c, allowPrerelease, pm, packages)
  {
    if packages != [] {
      UpdateEachSafe(o, c, allowPrerelease, pm, packages[..|packages| - 1]);
    }
  }

  /** Safe update-all never raises. For each project in turn, and each
      package in turn, a package the project has installed gets one lookup
      over the safe range of the installed version and one Install of
      whatever it returned; a package it has not installed gets neither. */
  lemma {:induction false} UpdateAllSafe(c: Collaborators, allowPrerelease: bool,
                                         pms: seq<ProjectManager>, packages: seq<Package>)
    ensures var r := UpdateAll(c, true, allowPrerelease, pms, packages);
            && r.error == None
            && r.queued == SafeBlocks(c, allowPrerelease, pms, packages)
            && r.lookups == SafeLookupBlocks(c, allowPrerelease, pms, packages)
  {
    if pms != [] {
      UpdateAllSafe(c, allowPrerelease, pms[..|pms| - 1], packages);
      UpdateEachSafe(UpdateAll(c, true, allowPrerelease, pms[..|pms| - 1], packages),
                     c, allowPrerelease, pms[|pms| - 1], packages);
    }
  }

  /** One safe block has exactly one lookup and one Install per installed
      package, the Install being of what that lookup returned. */
  lemma {:induction false} SafeBlockPairs(c: Collaborators, allowPrerelease: bool, pm: ProjectManager, packages: seq<Package>)
    ensures var q := SafeBlock(c, allowPrerelease, pm, packages);
            var l := SafeLookupBlock(c, allowPrerelease, pm, packages);
            && |q| == |l|
            && forall k :: 0 <= k < |q| ==>
                 (q[k] == Operation(Install, c.findInSource(l[k]), pm) && l[k].query.InRange? && !l[k].allowUnlisted)
  {
    if packages != [] {
      SafeBlockPairs(c, allowPrerelease, pm, packages[..|packages| - 1]);
    }
  }
}
