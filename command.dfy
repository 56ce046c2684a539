/** The decision logic of the Install-Package command: how it answers a file
    conflict (with two sticky "all" answers), how it classifies its argument,
    which of its paths `ExecuteCommand` takes, which projects update-all
    selects, and how the per-project loop of update-all survives failures.
    The file system, the console and the project systems are collaborators
    whose code is not part of this model; they enter as function fields. */
module InstallCommand {
  import opened PackageModel
  import opened InstallPlan
  import opened InstallUtility

  // ---------------------------------------------------------------------
  // Ordinal case-insensitive comparison

  /** The upper-case mapping used by ordinal case-insensitive comparison,
      on ASCII letters. */
  function UpperInvariant(ch: char): char {
    if 'a' <= ch <= 'z' then (ch as int - 32) as char else ch
  }

  function Fold(s: string): string {
    seq(|s|, k requires 0 <= k < |s| => UpperInvariant(s[k]))
  }

  /** string.Equals(a, b, StringComparison.OrdinalIgnoreCase) */
  predicate EqualsIgnoreCase(a: string, b: string) {
    Fold(a) == Fold(b)
  }

  /** s.StartsWith(prefix, StringComparison.OrdinalIgnoreCase) */
  predicate StartsWithIgnoreCase(s: string, prefix: string) {
    |prefix| <= |s| && EqualsIgnoreCase(s[..|prefix|], prefix)
  }

  /** s.EndsWith(suffix, StringComparison.OrdinalIgnoreCase) */
  predicate EndsWithIgnoreCase(s: string, suffix: string) {
    |suffix| <= |s| && EqualsIgnoreCase(s[|s| - |suffix|..], suffix)
  }

  lemma FoldSuffix(s: string, i: nat)
    requires i <= |s|
    ensures Fold(s[i..]) == Fold(s)[i..]
  {
  }

  /** Two strings equal up to case have the same case-insensitive suffixes. */
  lemma EndsWithIgnoresCase(s: string, t: string, suffix: string)
    requires EqualsIgnoreCase(s, t)
    ensures EndsWithIgnoreCase(s, suffix) <==> EndsWithIgnoreCase(t, suffix)
  {
    assert |s| == |Fold(s)| == |Fold(t)| == |t|;
    if |suffix| <= |s| {
      FoldSuffix(s, |s| - |suffix|);
      FoldSuffix(t, |t| - |suffix|);
      assert Fold(s[|s| - |suffix|..]) == Fold(t[|t| - |suffix|..]);
    }
  }

  // ---------------------------------------------------------------------
  // ResolveFileConflict

  /** The -FileConflictAction option; `Other` is any value that is neither
      Overwrite nor Ignore. */
  datatype FileConflictAction = Overwrite | Ignore | Other

  datatype FileConflictResolution = Overwrite | Ignore | OverwriteAll | IgnoreAll

  /** The command's console: absent, or present and interactive or not. */
  datatype Console = NoConsole | Console(isNonInteractive: bool)

  /** One file conflict: the message, the console at the time, and what the
      user would answer if asked. */
  datatype Conflict = Conflict(message: string, console: Console, reply: FileConflictResolution)

  /** The fields ResolveFileConflict reads: the option and the two sticky flags. */
  datatype ConflictState = ConflictState(action: FileConflictAction, overwriteAll: bool, ignoreAll: bool)

  /** The answer, whether the user was prompted, and the new state. */
  datatype Decision = Decision(resolution: FileConflictResolution, prompted: bool, next: ConflictState)

  function Resolve(s: ConflictState, k: Conflict): (r: Decision)
    ensures r.prompted ==> k.console.Console? && !k.console.isNonInteractive && r.resolution == k.reply
                           && AtMostOneFlag(r.next) && r.next.action == s.action
    ensures !r.prompted ==> r.next == s
                            && (r.resolution == FileConflictResolution.Overwrite || r.resolution == FileConflictResolution.Ignore)
    ensures s.overwriteAll ==> r.resolution == FileConflictResolution.Overwrite && !r.prompted
  {
    if s.action == FileConflictAction.Overwrite || s.overwriteAll then
      Decision(FileConflictResolution.Overwrite, false, s)
    else if s.action == FileConflictAction.Ignore || s.ignoreAll then
      Decision(FileConflictResolution.Ignore, false, s)
    else if k.console.Console? && !k.console.isNonInteractive then
      Decision(k.reply, true, s.(overwriteAll := k.reply == OverwriteAll, ignoreAll := k.reply == IgnoreAll))
    else
      Decision(FileConflictResolution.Ignore, false, s)
  }

  predicate AtMostOneFlag(s: ConflictState) {
    !(s.overwriteAll && s.ignoreAll)
  }

  /** The answers to a series of conflicts, the number of prompts, and the
      state after the last one. */
  datatype Session = Session(answers: seq<FileConflictResolution>, prompts: nat, state: ConflictState)

  function Run(s: ConflictState, ks: seq<Conflict>): Session {
    if ks == [] then Session([], 0, s)
    else
      var r := Run(s, ks[..|ks| - 1]);
      var d := Resolve(r.state, ks[|ks| - 1]);
      Session(r.answers + [d.resolution], r.prompts + (if d.prompted then 1 else 0), d.next)
  }

  /** One conflict: the option Overwrite or an earlier OverwriteAll wins over
      every Ignore condition; then the option Ignore or an earlier IgnoreAll;
      then, on an interactive console, the user's reply, which rewrites both
      flags; otherwise Ignore. Only a prompt changes the state, and after a
      prompt at most one flag is set. */
  lemma ResolveCases(s: ConflictState, k: Conflict)
    ensures var d := Resolve(s, k);
            && d.next.action == s.action
            && (s.action == FileConflictAction.Overwrite || s.overwriteAll ==> d == Decision(FileConflictResolution.Overwrite, false, s))
            && (d.resolution == FileConflictResolution.Ignore && !d.prompted <==>
                  s.action != FileConflictAction.Overwrite && !s.overwriteAll
                  && (s.action == FileConflictAction.Ignore || s.ignoreAll || k.console == NoConsole || k.console.isNonInteractive))
            && (d.prompted <==>
                  s.action == FileConflictAction.Other && !s.overwriteAll && !s.ignoreAll
                  && k.console.Console? && !k.console.isNonInteractive)
            && (!d.prompted ==> d.next == s)
            && (d.prompted ==> d.resolution == k.reply && d.next.overwriteAll == (k.reply == OverwriteAll)
                               && d.next.ignoreAll == (k.reply == IgnoreAll) && AtMostOneFlag(d.next))
  {
  }

  /** Once OverwriteAll is set, every later conflict is answered Overwrite
      without a prompt, and nothing changes. */
  lemma {:induction false} OverwriteAllSticks(s: ConflictState, ks: seq<Conflict>)
    requires s.overwriteAll
    ensures var r := Run(s, ks);
            && r.prompts == 0 && r.state == s
            && forall i :: 0 <= i < |r.answers| ==> r.answers[i] == FileConflictResolution.Overwrite
    ensures |Run(s, ks).answers| == |ks|
  {
    if ks != [] {
      OverwriteAllSticks(s, ks[..|ks| - 1]);
    }
  }

  /** Once IgnoreAll is set, and unless the option is Overwrite, every later
      conflict is answered Ignore without a prompt, and nothing changes. */
  lemma {:induction false} IgnoreAllSticks(s: ConflictState, ks: seq<Conflict>)
    requires s.ignoreAll && !s.overwriteAll && s.action != FileConflictAction.Overwrite
    ensures var r := Run(s, ks);
            && r.prompts == 0 && r.state == s
            && |r.answers| == |ks|
            && forall i :: 0 <= i < |r.answers| ==> r.answers[i] == FileConflictResolution.Ignore
  {
    if ks != [] {
      IgnoreAllSticks(s, ks[..|ks| - 1]);
    }
  }

  /** A prompt answered OverwriteAll (IgnoreAll) settles every later
      conflict as Overwrite (Ignore), with no further prompt. */
  lemma AnswerAllSticks(s: ConflictState, k: Conflict, later: seq<Conflict>)
    requires Resolve(s, k).prompted
    ensures var r := Run(Resolve(s, k).next, later);
            && (k.reply == OverwriteAll ==>
                  r.prompts == 0 && |r.answers| == |later| && forall i :: 0 <= i < |r.answers| ==> r.answers[i] == FileConflictResolution.Overwrite)
            && (k.reply == IgnoreAll ==>
                  r.prompts == 0 && |r.answers| == |later| && forall i :: 0 <= i < |r.answers| ==> r.answers[i] == FileConflictResolution.Ignore)
  {
    var next := Resolve(s, k).next;
    if k.reply == OverwriteAll {
      OverwriteAllSticks(next, later);
    } else if k.reply == IgnoreAll {
      IgnoreAllSticks(next, later);
    }
  }

  /** The flags are never both set, starting from a state where they are
      not (the command starts with both clear); the option never changes. */
  lemma {:induction false} RunKeepsAtMostOneFlag(s: ConflictState, ks: seq<Conflict>)
    requires AtMostOneFlag(s)
    ensures AtMostOneFlag(Run(s, ks).state) && Run(s, ks).state.action == s.action
  {
    if ks != [] {
      RunKeepsAtMostOneFlag(s, ks[..|ks| - 1]);
    }
  }

  /** Without an interactive console nobody is asked: no prompt is shown,
      the flags never change, and every answer is Overwrite or Ignore. */
  lemma {:induction false} NoPromptWithoutInteractiveConsole(s: ConflictState, ks: seq<Conflict>)
    requires forall i :: 0 <= i < |ks| ==> ks[i].console == NoConsole || ks[i].console.isNonInteractive
    ensures var r := Run(s, ks);
            && r.prompts == 0 && r.state == s && |r.answers| == |ks|
            && forall i :: 0 <= i < |ks| ==>
                 r.answers[i] == FileConflictResolution.Overwrite || r.answers[i] == FileConflictResolution.Ignore
  {
    if ks != [] {
      NoPromptWithoutInteractiveConsole(s, ks[..|ks| - 1]);
    }
  }

  // ---------------------------------------------------------------------
  // Argument classification and dispatch

  /** Constants.PackageReferenceFile */
  const PackageReferenceFile := "packages.config"

  /** The file system and path services the command consults. */
  datatype PathServices = PathServices(
    /** Path.GetExtension; None for a null result */
    getExtension: string -> Option<string>,
    /** Path.GetFullPath */
    getFullPath: string -> string,
    /** Path.GetFileName */
    getFileName: string -> string,
    /** Path.GetDirectoryName */
    getDirectoryName: string -> string,
    /** ProjectHelper.SupportedProjectExtensions.Contains */
    isSupportedProjectExtension: string -> bool,
    /** PackageReferenceFile.IsValidConfigFileName */
    isValidConfigFileName: string -> bool,
    /** FileSystem.FileExists */
    fileExists: string -> bool)

  /** Path.GetExtension(path) ?? string.Empty */
  function Extension(ps: PathServices, path: string): string {
    match ps.getExtension(path)
    case Some(e) => e
    case None => ""
  }

  function GetPackagesConfigPath(ps: PathServices, path: string): (r: Option<string>)
    ensures r.Some? ==> r.value == ps.getFullPath(path) && |path| >= |PackageReferenceFile|
  {
    if EndsWithIgnoreCase(path, PackageReferenceFile) then Some(ps.getFullPath(path)) else None
  }

  function GetInputFile(ps: PathServices, arguments: seq<string>): (r: Option<string>)
    ensures r.Some? ==> arguments != [] && r.value == ps.getFullPath(arguments[0])
  {
    if arguments == [] then None
    else
      var path := arguments[0];
      var extension := Extension(ps, path);
      if EqualsIgnoreCase(extension, ".config") then GetPackagesConfigPath(ps, path)
      else if EqualsIgnoreCase(extension, ".sln") then Some(ps.getFullPath(path))
      else if ps.isSupportedProjectExtension(extension) then Some(ps.getFullPath(path))
      else None
  }

  /** The input file is the full path of the first argument, or null; it is
      not null exactly when the argument is a package reference file (by
      name, for a .config extension), a solution, or a supported project. */
  lemma GetInputFileClassifies(ps: PathServices, arguments: seq<string>)
    ensures var r := GetInputFile(ps, arguments);
            && (arguments == [] ==> r == None)
            && (r.Some? ==> arguments != [] && r.value == ps.getFullPath(arguments[0]))
            && (arguments != [] ==>
                  var ext := Extension(ps, arguments[0]);
                  (r.Some? <==>
                     (EqualsIgnoreCase(ext, ".config") && EndsWithIgnoreCase(arguments[0], PackageReferenceFile))
                     || (!EqualsIgnoreCase(ext, ".config") && EqualsIgnoreCase(ext, ".sln"))
                     || (!EqualsIgnoreCase(ext, ".config") && ps.isSupportedProjectExtension(ext))))
  {
  }

  /** A .config argument is accepted or refused by its name regardless of
      the case in which that name is written. */
  lemma PackagesConfigPathIgnoresCase(ps: PathServices, p: string, q: string)
    requires EqualsIgnoreCase(p, q)
    ensures GetPackagesConfigPath(ps, p).Some? <==> GetPackagesConfigPath(ps, q).Some?
  {
    EndsWithIgnoresCase(p, q, PackageReferenceFile);
  }

  /** What ExecuteCommand does. */
  datatype Dispatch =
    | SelfUpdate
    | InvalidFile
    | UpdateFromConfig(path: string)
    | UnableToFindProject(path: string)
    | UpdateProject(path: string)
    | UnableToFindSolution(path: string)
    | InstallAll(solutionDir: string)

  function ExecuteCommand(ps: PathServices, self: bool, arguments: seq<string>): (r: Dispatch)
    ensures r == SelfUpdate <==> self
    ensures !self && arguments == [] ==> r == InvalidFile
    ensures r.UpdateProject? || r.InstallAll? ==> arguments != [] && ps.fileExists(ps.getFullPath(arguments[0]))
  {
    if self then SelfUpdate
    else
      match GetInputFile(ps, arguments)
      case None => InvalidFile
      case Some(inputFile) =>
        if inputFile == "" then InvalidFile
        else if ps.isValidConfigFileName(ps.getFileName(inputFile)) then UpdateFromConfig(inputFile)
        else if ps.isSupportedProjectExtension(Extension(ps, inputFile)) then
          if !ps.fileExists(inputFile) then UnableToFindProject(inputFile) else UpdateProject(inputFile)
        else if !ps.fileExists(inputFile) then UnableToFindSolution(inputFile)
        else InstallAll(ps.getDirectoryName(inputFile))
  }

  /** Self-update comes first; a missing or empty input file is an invalid
      file; a valid config file name wins over a project extension; a
      project or solution is used only if the file exists; update-all runs
      on the directory of an existing input file that is neither. */
  lemma ExecuteCommandOrder(ps: PathServices, self: bool, arguments: seq<string>)
    ensures var r := ExecuteCommand(ps, self, arguments);
            var input := GetInputFile(ps, arguments);
            && (r == SelfUpdate <==> self)
            && (r == InvalidFile <==> !self && (input == None || input == Some("")))
            && (r.UpdateFromConfig? <==>
                  !self && input.Some? && input.value != "" && ps.isValidConfigFileName(ps.getFileName(input.value)))
            && (r.UpdateProject? || r.UnableToFindProject? ==>
                  !ps.isValidConfigFileName(ps.getFileName(input.value))
                  && ps.isSupportedProjectExtension(Extension(ps, input.value)))
            && (r.UpdateProject? ==> ps.fileExists(r.path))
            && (r.InstallAll? <==>
                  !self && input.Some? && input.value != ""
                  && !ps.isValidConfigFileName(ps.getFileName(input.value))
                  && !ps.isSupportedProjectExtension(Extension(ps, input.value))
                  && ps.fileExists(input.value))
            && (r.InstallAll? ==> r.solutionDir == ps.getDirectoryName(input.value))
  {
  }

  // ---------------------------------------------------------------------
  // Update-all: project selection

  /** A project system, by identity; two config files may resolve to the same one. */
  type ProjectRef = nat

  predicate NoDuplicates<T(==)>(s: seq<T>) {
    forall i, j :: 0 <= i < j < |s| ==> s[i] != s[j]
  }

  /** Enumerable.Distinct: the first occurrence of each element, in order. */
  function Distinct(s: seq<ProjectRef>): (r: seq<ProjectRef>)
    ensures NoDuplicates(r)
    ensures forall x :: x in r <==> x in s
  {
    if s == [] then []
    else
      var d := Distinct(s[..|s| - 1]);
      var x := s[|s| - 1];
      assert forall y :: y in s <==> y in s[..|s| - 1] || y == x;
      if x in d then d else d + [x]
  }

  /** The files named packages.* (case-insensitive), in order. */
  function PackagesConfigFiles(ps: PathServices, files: seq<string>): seq<string> {
    if files == [] then []
    else
      var f := files[|files| - 1];
      PackagesConfigFiles(ps, files[..|files| - 1])
      + (if StartsWithIgnoreCase(ps.getFileName(f), "packages.") then [f] else [])
  }

  /** What GetProject(path) does with a config file: returns its project,
      returns null (the CommandLineException it catches), or lets any other
      exception escape. */
  datatype ProjectLookup = IsProject(project: ProjectRef) | NotAProject | Escaped(exception: Exception)

  /** GetProject on each file, the failures (null) dropped. */
  function ResolvedProjects(getProject: string -> ProjectLookup, files: seq<string>): seq<ProjectRef> {
    if files == [] then []
    else
      ResolvedProjects(getProject, files[..|files| - 1])
      + (match getProject(files[|files| - 1]) case IsProject(p) => [p] case _ => [])
  }

  /** The exception that escapes the selection: the first file, in order,
      whose GetProject throws something other than a CommandLineException. */
  function FirstEscape(getProject: string -> ProjectLookup, files: seq<string>): Option<Exception> {
    if files == [] then None
    else match FirstEscape(getProject, files[..|files| - 1])
      case Some(e) => Some(e)
      case None => match getProject(files[|files| - 1]) case Escaped(e) => Some(e) case _ => None
  }

  /** Some file's GetProject throws an exception it does not catch. */
  predicate Escapes(getProject: string -> ProjectLookup, files: seq<string>) {
    exists i :: 0 <= i < |files| && getProject(files[i]).Escaped?
  }

  /** No exception escapes exactly when no file's GetProject throws one;
      otherwise the one that escapes is that of the first such file. */
  lemma {:induction false} FirstEscapeIsFirst(getProject: string -> ProjectLookup, files: seq<string>)
    ensures var r := FirstEscape(getProject, files);
            && (r == None <==> !Escapes(getProject, files))
            && (r.Some? ==> exists i :: 0 <= i < |files| && getProject(files[i]) == Escaped(r.value)
                                        && forall j :: 0 <= j < i ==> !getProject(files[j]).Escaped?)
  {
    if files != [] {
      var front := files[..|files| - 1];
      FirstEscapeIsFirst(getProject, front);
      assert forall i :: 0 <= i < |front| ==> front[i] == files[i];
      if FirstEscape(getProject, front).Some? {
        var i :| 0 <= i < |front| && getProject(front[i]) == Escaped(FirstEscape(getProject, front).value)
                 && forall j :: 0 <= j < i ==> !getProject(front[j]).Escaped?;
        assert getProject(files[i]) == Escaped(FirstEscape(getProject, files).value);
      }
    }
  }

  function SelectProjects(ps: PathServices, getProject: string -> ProjectLookup, files: seq<string>): seq<ProjectRef> {
    Distinct(ResolvedProjects(getProject, PackagesConfigFiles(ps, files)))
  }

  lemma {:induction false} PackagesConfigFilesMembers(ps: PathServices, files: seq<string>)
    ensures forall f :: f in PackagesConfigFiles(ps, files) <==>
              f in files && StartsWithIgnoreCase(ps.getFileName(f), "packages.")
  {
    if files != [] {
      PackagesConfigFilesMembers(ps, files[..|files| - 1]);
      assert forall f :: f in files <==> f in files[..|files| - 1] || f == files[|files| - 1];
    }
  }

  lemma {:induction false} ResolvedProjectsMembers(getProject: string -> ProjectLookup, files: seq<string>)
    ensures forall p :: p in ResolvedProjects(getProject, files) <==>
              exists f :: f in files && getProject(f) == IsProject(p)
  {
    if files != [] {
      var front := files[..|files| - 1];
      var last := files[|files| - 1];
      ResolvedProjectsMembers(getProject, front);
      forall p | exists f :: f in files && getProject(f) == IsProject(p)
        ensures p in ResolvedProjects(getProject, files)
      {
        var f :| f in files && getProject(f) == IsProject(p);
        if f != last {
          assert f in front;
        }
      }
    }
  }

  /** Update-all works on each project at most once, and on exactly the
      projects that some packages.* config file resolves to. */
  lemma SelectProjectsMembers(ps: PathServices, getProject: string -> ProjectLookup, files: seq<string>)
    ensures var r := SelectProjects(ps, getProject, files);
            && NoDuplicates(r)
            && forall p :: p in r <==>
                 exists f :: f in files && StartsWithIgnoreCase(ps.getFileName(f), "packages.") && getProject(f) == IsProject(p)
  {
    PackagesConfigFilesMembers(ps, files);
    ResolvedProjectsMembers(getProject, PackagesConfigFiles(ps, files));
  }

  // ---------------------------------------------------------------------
  // Update-all: the per-project loop

  /** An exception: its Message and its ToString(). */
  datatype Exception = Exception(message: string, text: string)

  datatype PathOrException = Path(path: string) | Thrown(exception: Exception)

  /** What update-all consults besides the path services. */
  datatype Solution = Solution(
    /** Directory.GetFiles(solutionDir, "*.config", SearchOption.AllDirectories) */
    configFiles: string -> seq<string>,
    /** GetProject */
    getProject: string -> ProjectLookup,
    /** GetRepositoryPathFromSolution */
    repositoryPath: string -> PathOrException,
    /** UpdatePackages(project, repositoryPath, sourceRepository): null when it returns normally */
    updatePackages: (ProjectRef, string) -> Option<Exception>)

  /** The fate of one project in the loop. */
  datatype ProjectResult = Updated(project: ProjectRef) | Warned(project: ProjectRef, warning: string)

  /** What update-all does: the exception that escapes GetProject or the
      repository path, before any project is touched; nothing when no
      project is found; otherwise one result per project. */
  datatype InstallAllResult =
    | NoProjectsFound
    | Aborted(exception: Exception)
    | Completed(results: seq<ProjectResult>)

  /** The warning for a caught exception: ToString() in detailed verbosity,
      the message otherwise. */
  function Warning(e: Exception, detailed: bool): string {
    if detailed then e.text else e.message
  }

  /** One iteration of the loop, its exception caught. */
  function UpdateOne(sol: Solution, repositoryPath: string, detailed: bool, p: ProjectRef): ProjectResult {
    match sol.updatePackages(p, repositoryPath)
    case None => Updated(p)
    case Some(e) => Warned(p, Warning(e, detailed))
  }

  function UpdateEveryProject(sol: Solution, repositoryPath: string, detailed: bool, projects: seq<ProjectRef>): seq<ProjectResult> {
    if projects == [] then []
    else UpdateEveryProject(sol, repositoryPath, detailed, projects[..|projects| - 1])
         + [UpdateOne(sol, repositoryPath, detailed, projects[|projects| - 1])]
  }

  function InstallAllPackagesResult(ps: PathServices, sol: Solution, solutionDir: string, detailed: bool): InstallAllResult {
    var projects := SelectProjects(ps, sol.getProject, sol.configFiles(solutionDir));
    var escape := FirstEscape(sol.getProject, PackagesConfigFiles(ps, sol.configFiles(solutionDir)));
    if escape.Some? then Aborted(escape.value)
    else if projects == [] then NoProjectsFound
    else match sol.repositoryPath(solutionDir)
      case Thrown(e) => Aborted(e)
      case Path(repositoryPath) => Completed(UpdateEveryProject(sol, repositoryPath, detailed, projects))
  }

  /** The loop never stops early: project i gets result i, Updated exactly
      when its update returned normally, and otherwise the warning of the
      exception it threw. */
  lemma {:induction false} EveryProjectAttempted(sol: Solution, repositoryPath: string, detailed: bool, projects: seq<ProjectRef>)
    ensures var r := UpdateEveryProject(sol, repositoryPath, detailed, projects);
            && |r| == |projects|
            && forall i :: 0 <= i < |projects| ==>
                 && r[i].project == projects[i]
                 && (r[i].Updated? <==> sol.updatePackages(projects[i], repositoryPath) == None)
                 && (r[i].Warned? ==> r[i].warning == Warning(sol.updatePackages(projects[i], repositoryPath).value, detailed))
  {
    if projects != [] {
      EveryProjectAttempted(sol, repositoryPath, detailed, projects[..|projects| - 1]);
    }
  }

  /** Update-all aborts, touching no project, when GetProject lets an
      exception escape for some packages.* file; otherwise, with no project
      found it updates nothing, and else every selected project is attempted
      once, in order, unless the repository path cannot be determined. */
  lemma InstallAllPackagesOutcome(ps: PathServices, sol: Solution, solutionDir: string, detailed: bool)
    ensures var projects := SelectProjects(ps, sol.getProject, sol.configFiles(solutionDir));
            var files := PackagesConfigFiles(ps, sol.configFiles(solutionDir));
            var escapes := Escapes(sol.getProject, files);
            var r := InstallAllPackagesResult(ps, sol, solutionDir, detailed);
            && (r == NoProjectsFound <==> !escapes && projects == [])
            && (r.Aborted? <==> escapes || (projects != [] && sol.repositoryPath(solutionDir).Thrown?))
            && (r.Completed? ==>
                  && |r.results| == |projects|
                  && forall i :: 0 <= i < |projects| ==>
                       && r.results[i].project == projects[i]
                       && (r.results[i].Updated? <==>
                             sol.updatePackages(projects[i], sol.repositoryPath(solutionDir).path) == None))
  {
    var projects := SelectProjects(ps, sol.getProject, sol.configFiles(solutionDir));
    var files := PackagesConfigFiles(ps, sol.configFiles(solutionDir));
    FirstEscapeIsFirst(sol.getProject, files);
    var r := InstallAllPackagesResult(ps, sol, solutionDir, detailed);
    var escape := FirstEscape(sol.getProject, files);
    if escape.Some? {
      assert r == Aborted(escape.value);
    } else if projects == [] {
      assert r == NoProjectsFound;
    } else if sol.repositoryPath(solutionDir).Thrown? {
      assert r == Aborted(sol.repositoryPath(solutionDir).exception);
    } else {
      var path := sol.repositoryPath(solutionDir).path;
      assert r == Completed(UpdateEveryProject(sol, path, detailed, projects));
      EveryProjectAttempted(sol, path, detailed, projects);
    }
  }

  /** InstallAllPackages(solutionDir): selection, the repository path, and
      the loop whose body catches every exception. */
  method InstallAllPackages(ps: PathServices, sol: Solution, solutionDir: string, detailed: bool)
    returns (r: InstallAllResult)
    ensures r == InstallAllPackagesResult(ps, sol, solutionDir, detailed)
  {
    var projects := SelectProjects(ps, sol.getProject, sol.configFiles(solutionDir));
    var escape := FirstEscape(sol.getProject, PackagesConfigFiles(ps, sol.configFiles(solutionDir)));
    if escape.Some? {
      return Aborted(escape.value);
    }
    if |projects| == 0 {
      return NoProjectsFound;
    }
    var repositoryPath := sol.repositoryPath(solutionDir);
    if repositoryPath.Thrown? {
      return Aborted(repositoryPath.exception);
    }
    var results: seq<ProjectResult> := [];
    var i := 0;
    while i < |projects|
      invariant 0 <= i <= |projects|
      invariant results == UpdateEveryProject(sol, repositoryPath.path, detailed, projects[..i])
    {
      assert projects[..i + 1][..i] == projects[..i];
      var outcome := sol.updatePackages(projects[i], repositoryPath.path);
      if outcome.None? {
        results := results + [Updated(projects[i])];
      } else {
        results := results + [Warned(projects[i], Warning(outcome.value, detailed))];
      }
      i := i + 1;
    }
    assert projects[..i] == projects;
    r := Completed(results);
  }

  // ---------------------------------------------------------------------
  // The command's class

  /** Id.FirstOrDefault() */
  function FirstOrDefault(ids: seq<string>): Option<string> {
    if ids == [] then None else Some(ids[0])
  }

  class InstallPackageCommand {
    var fileConflictAction: FileConflictAction
    var overwriteAll: bool
    var ignoreAll: bool
    /** The messages the user was prompted with, in order. */
    ghost var prompts: seq<string>

    constructor (fileConflictAction: FileConflictAction)
      ensures this.fileConflictAction == fileConflictAction && !overwriteAll && !ignoreAll && prompts == []
    {
      this.fileConflictAction := fileConflictAction;
      overwriteAll := false;
      ignoreAll := false;
      prompts := [];
    }

    function State(): ConflictState
      reads this
    {
      ConflictState(fileConflictAction, overwriteAll, ignoreAll)
    }

    /** Answers one file conflict; `reply` is what the console's prompt
        would return. */
    method ResolveFileConflict(message: string, console: Console, reply: FileConflictResolution)
      returns (r: FileConflictResolution)
      modifies this`overwriteAll, this`ignoreAll, this`prompts
      ensures var d := Resolve(old(State()), Conflict(message, console, reply));
              && r == d.resolution
              && State() == d.next
              && prompts == old(prompts) + (if d.prompted then [message] else [])
    {
      if fileConflictAction == FileConflictAction.Overwrite || overwriteAll {
        return FileConflictResolution.Overwrite;
      }
      if fileConflictAction == FileConflictAction.Ignore || ignoreAll {
        return FileConflictResolution.Ignore;
      }
      if console.Console? && !console.isNonInteractive {
        prompts := prompts + [message];
        var resolution := reply;
        overwriteAll := resolution == OverwriteAll;
        ignoreAll := resolution == IgnoreAll;
        return resolution;
      }
      return FileConflictResolution.Ignore;
    }

    /** InstallPackages: a fresh resolver and utility, both flags from the
        command's options, and one call for the first id (or none) and the
        one project. */
    static method InstallPackages(c: Collaborators, resolve: seq<Operation> -> seq<ResolvedAction>,
                                  ids: seq<string>, version: Option<SemanticVersion>,
                                  safe: bool, prerelease: bool, pm: ProjectManager)
      returns (r: Result<seq<ResolvedAction>>)
      ensures var o := InstallPackagePlan(c, safe, prerelease, FirstOrDefault(ids), version, [pm]);
              r == (if o.error.Some? then Failure(o.error.value) else Success(resolve(o.queued)))
    {
      var resolver := new ActionResolver(resolve);
      var utility := new InstallPackageUtility(resolver);
      utility.allowPrereleaseVersions := prerelease;
      utility.safe := safe;
      r := utility.ResolveActionsForInstallPackage(c, FirstOrDefault(ids), version, [pm], false);
      assert utility.safe == safe && utility.allowPrereleaseVersions == prerelease;
      assert resolver.resolve == resolve;
      ghost var o := InstallPackagePlan(c, safe, prerelease, FirstOrDefault(ids), version, [pm]);
      assert resolver.queue == o.queued;
      assert o.error.Some? ==> r == Failure(o.error.value);
      assert o.error.None? ==> r == Success(resolve(resolver.queue));
    }
  }

  /** Installing one named package into one project in unsafe mode: the
      lookup's miss is the command's exception; a hit resolves exactly one
      Install of the package found, for that project. */
  lemma InstallOneUnsafe(c: Collaborators, resolve: seq<Operation> -> seq<ResolvedAction>, id: string,
                         version: Option<SemanticVersion>, prerelease: bool, pm: ProjectManager)
    requires id != ""
    ensures var o := InstallPackagePlan(c, false, prerelease, Some(id), version, [pm]);
            var found := c.findInSource(UnsafeLookup(id, version, prerelease, pm));
            && (found == None ==> o.error == Some(MissError(version)) && o.queued == [])
            && (found != None ==> o.error == None && o.queued == [Operation(Install, found, pm)])
  {
    assert [pm][..0] == [];
    assert UpdateOperations(c, false, prerelease, id, version, [pm])
        == Then(Start, UnsafeStep(c, id, version, prerelease, pm));
    assert !IsNullOrEmpty(Some(id));
  }
}
