# Install-Package decision logic, modelled in Dafny

This project models two pieces of a NuGet-style package manager:

- **`InstallPackageUtility`**. Given a package id (or none), an optional exact version and a list of project managers, it decides which `Install` operations to queue on an `ActionResolver`. It then returns the resolver's action list.
  - Update-all runs when the id is null or empty. It walks the projects, and for each project every package in the reverse of the sorter's dependency order.
  - Update-one runs for any other id. It makes one pass over the projects.
  - In *unsafe* mode, each project gets one source lookup at the requested version. A miss throws.
  - In *safe* mode, only projects that have the package installed get a lookup, over the safe range of the installed version. Whatever the lookup returns is queued.
- **The `Install-Package` command**. The model covers:
  - its file-conflict answer, which has two sticky "all" answers;
  - the classification of its argument;
  - the order in which `ExecuteCommand` chooses a path;
  - the project selection of update-all;
  - update-all's per-project loop, which catches every exception and carries on.

Layout:

- `packages.dfy`, module `PackageModel`: the values the utility works on.
  - Packages, project managers and lookups.
  - Queued operations and the exceptions it lets escape.
  - The collaborators: the dependency sorter, `GetSafeRange`, and the source and local `FindPackage`. Their code is not part of this model, so they are uninterpreted functions of a `Collaborators` value.
- `plan.dfy`, module `InstallPlan`: what the utility queues, as pure left folds.
  - Each project, or each project and package pair, is one `Step`: skipped, queued after one lookup, or failed after one lookup.
  - An `Outcome` records the operations queued, the lookups made and the exception raised.
  - Once an exception is raised, nothing further happens.
- `utility.dfy`, module `InstallUtility`: the imperative model.
  - `ActionResolver` is a class with a mutable queue.
  - `InstallPackageUtility` has the source's loops. It records every source lookup in a ghost field.
  - Each method's postcondition ties the resolver's queue, the lookups and the exception to the functions of `InstallPlan`.
- `command.dfy`, module `InstallCommand`: the command.
  - The class `InstallPackageCommand` holds the conflict option and the two sticky flags.
  - Functions cover argument classification, dispatch and project selection.
  - A loop method models update-all.
  - `InstallPackages` connects the command to the utility.

The file system, the console, the project systems and the repository-path lookup are not part of this model. They enter as function-valued fields of `PathServices` and `Solution`. The user's reply to a conflict prompt is a parameter.

Behaviour worth knowing, as the code has it:

- **Unsafe mode looks the package up in every project.** Installed or not, each project gets one source lookup (`InstallPackageUtility.cs:64-74`).
- **Safe mode queues whatever the lookup returned.** Within the safe range a miss is not skipped: an Install of the result, null included, is queued (`InstallPackageUtility.cs:88-95`). `Operation.package` is therefore an `Option`, and `SafeRunByIndex` states that a miss queues an Install with no package.
- **An unsafe miss with no version throws a null dereference.** Building the invalid-version message calls `version.ToString()` on null (`InstallPackageUtility.cs:125`). Update-all never passes a version, so every miss there ends this way.
- **An exception ends the whole run.** In update-one, an unsafe miss leaves the loop, so later projects are not processed. In update-all it leaves both loops. What was queued before it stays queued.
- **An empty project list throws on both paths.** `First()` is called on the project list even on the one-package path, where its value is unused (`InstallPackageUtility.cs:147`).
- **An exception from `GetProject` ends update-all.** `GetProject` catches only `CommandLineException` (`InstallPackageCommand.cs:162-174`). Any other exception leaves the selection (`InstallPackageCommand.cs:115`) before the loop's `try`, so no project is updated.

## Model

| member | source | states |
|---|---|---|
| PackageModel.Reverse | src/Core/OperationResolution/InstallPackageUtility.cs:40-41 | Enumerable.Reverse: same length, and element k is element n-1-k of the input. |
| InstallPlan.FailureIsFinal | src/Core/OperationResolution/InstallPackageUtility.cs:64-75 | Once an unsafe lookup has thrown, the run over the whole list equals the run up to that project, so later projects get no lookup and no operation. |
| InstallPlan.UpdateAllFailureIsFinal | src/Core/OperationResolution/InstallPackageUtility.cs:43-52 | In update-all, an exception for one project means no later project is processed. |
| InstallPlan.UpdateEachFailureIsFinal | src/Core/OperationResolution/InstallPackageUtility.cs:45-51 | In update-all's inner loop, an exception for one package means no later package is processed. |
| InstallPlan.UpdateEachAppends | src/Core/OperationResolution/InstallPackageUtility.cs:45-51 | The inner loop only appends to what earlier projects queued and looked up; it never changes it. |
| InstallPlan.UpdateOperationsOnlyInstalls | src/Core/OperationResolution/InstallPackageUtility.cs:59-98 | AddUpdateOperations queues nothing but Install operations. |
| InstallPlan.UpdateAllOnlyInstalls | src/Core/OperationResolution/InstallPackageUtility.cs:43-52 | Update-all queues nothing but Install operations. |
| InstallPlan.InstallPackageOnlyInstalls | src/Core/OperationResolution/InstallPackageUtility.cs:22-33 | Neither entry path ever queues an Uninstall. |
| InstallPlan.NoProjectsRaises | src/Core/OperationResolution/InstallPackageUtility.cs:144-155 | With no project managers, both paths throw from First() before any lookup or operation. |
| InstallPlan.UnsafeRunByIndex | src/Core/OperationResolution/InstallPackageUtility.cs:100-126 | Unsafe mode, by index. Project k gets exactly one lookup, with the requested version, its constraint provider, the prerelease flag and unlisted refused. A hit queues one Install of the hit for project k. The first miss throws an invalid-version error, or a null dereference when no version was given. Earlier projects' operations stay queued, and later projects get nothing. |
| InstallPlan.InstalledProjectsMembers | src/Core/OperationResolution/InstallPackageUtility.cs:79-85 | The projects safe mode processes are exactly the listed projects whose own repository has the package installed. |
| InstallPlan.SafeRunByIndex | src/Core/OperationResolution/InstallPackageUtility.cs:76-97 | Safe mode never throws. It makes one lookup per installed project, over GetSafeRange of the installed version with unlisted refused. It queues one Install per such project of whatever the lookup returned, a miss included. Other projects get neither a lookup nor an operation. |
| InstallPlan.SafeIgnoresVersion | src/Core/OperationResolution/InstallPackageUtility.cs:87-93 | Safe mode's result does not depend on the requested version. |
| InstallPlan.UpdateAllPassesNoVersion | src/Core/OperationResolution/InstallPackageUtility.cs:43-51 | Update-all never passes an explicit version to a lookup. Its only possible exception, on a non-empty list, is the null dereference. |
| InstallPlan.UpdateEachUnsafe | src/Core/OperationResolution/InstallPackageUtility.cs:45-51 | Unsafe update-all, one project: it throws exactly when some package's latest version is missing from the source. Otherwise it appends one lookup (no version) and one Install of the package found per package, in order. |
| InstallPlan.UpdateAllUnsafe | src/Core/OperationResolution/InstallPackageUtility.cs:43-52 | Unsafe update-all throws exactly when, for some project, some package is missing from the source. Otherwise the queue and the lookups are project after project, each project's block holding one lookup and one Install per package, in order. |
| InstallPlan.UpdateEachUnsafeFirstMiss | src/Core/OperationResolution/InstallPackageUtility.cs:45-51 | Unsafe update-all, one project, at its first miss, package j: the packages before j are looked up and queued, package j is looked up and throws the null dereference, and later packages get nothing. |
| InstallPlan.UpdateAllUnsafeFirstMiss | src/Core/OperationResolution/InstallPackageUtility.cs:43-52 | At the first miss, package j of project i, unsafe update-all throws the null dereference. It keeps the full blocks of the projects before i, and for project i the lookups and Installs of the packages before j plus the failed lookup of package j. |
| InstallPlan.InstallAllUnsafe | src/Core/OperationResolution/InstallPackageUtility.cs:35-56 | The same, from the entry point. The packages are the reverse of the sorter's order over the first project's package repository. |
| InstallPlan.UpdateEachSafe | src/Core/OperationResolution/InstallPackageUtility.cs:45-51 | Safe update-all, one project: it never throws. It appends, package by package, one safe-range lookup and one Install of its result for each package the project has installed, and nothing for the others. |
| InstallPlan.UpdateAllSafe | src/Core/OperationResolution/InstallPackageUtility.cs:43-52 | Safe update-all never throws. Its queue and lookups are, project after project and package after package, one safe-range lookup and one Install of its result for each package that project has installed; other packages get nothing. |
| InstallPlan.SafeBlockPairs | src/Core/OperationResolution/InstallPackageUtility.cs:87-95 | Within a project's safe block, lookups and Installs pair up one to one: each Install is of what its lookup returned, and each lookup is a range query with unlisted refused. |
| InstallPlan.UnsafeStep | src/Core/OperationResolution/InstallPackageUtility.cs:100-126 | One unsafe project: one lookup at the requested version; a hit queues an Install of it, a miss fails with the miss error. Its contract is stated by UnsafeRunByIndex. |
| InstallPlan.SafeStep | src/Core/OperationResolution/InstallPackageUtility.cs:79-95 | One safe project: skipped when the package is not installed there, otherwise one safe-range lookup and an Install of its result. Its contract is stated by SafeRunByIndex. |
| InstallPlan.UpdateOperations | src/Core/OperationResolution/InstallPackageUtility.cs:59-98 | AddUpdateOperations as a left fold of steps over the projects, stopping at the first exception. Its properties are stated by UnsafeRunByIndex, SafeRunByIndex and FailureIsFinal. |
| InstallPlan.InstallPackagePlan | src/Core/OperationResolution/InstallPackageUtility.cs:22-33 | With no project managers, either path throws from First() with nothing queued and no lookup made. |
| InstallUtility.ActionResolver.ResolveActions | src/Core/OperationResolution/InstallPackageUtility.cs:54 | The final action list depends only on the queue. The resolver's own algorithm is not part of this model. |
| InstallUtility.ActionResolver.AddOperation | src/Core/OperationResolution/InstallPackageUtility.cs:95 | AddOperation appends exactly one operation to the resolver's queue. |
| InstallUtility.InstallPackageUtility.constructor | src/Core/OperationResolution/InstallPackageUtility.cs:11-20 | A new utility keeps the given resolver, with Safe and AllowPrereleaseVersions false. |
| InstallUtility.InstallPackageUtility.AddUnsafeUpdateOperation | src/Core/OperationResolution/InstallPackageUtility.cs:100-141 | One lookup with the project's arguments. On a hit, exactly one Install of the hit for that project is queued. On a miss, nothing is queued and the miss error is returned. |
| InstallUtility.InstallPackageUtility.AddUpdateOperations | src/Core/OperationResolution/InstallPackageUtility.cs:59-98 | The new queue is the old queue followed by UpdateOperations' operations, the lookups are extended the same way, and the exception is UpdateOperations'. |
| InstallUtility.InstallPackageUtility.AddUnsafeUpdateOperations | src/Core/OperationResolution/InstallPackageUtility.cs:64-75 | The unsafe loop meets UpdateOperations, and stops at the first exception. |
| InstallUtility.InstallPackageUtility.AddSafeUpdateOperations | src/Core/OperationResolution/InstallPackageUtility.cs:76-97 | The safe loop meets UpdateOperations and never throws. |
| InstallUtility.InstallPackageUtility.UpdateProjectPackages | src/Core/OperationResolution/InstallPackageUtility.cs:45-51 | The inner update-all loop meets UpdateEach. Each call passes no version and that one project. |
| InstallUtility.InstallPackageUtility.UpdateAllProjects | src/Core/OperationResolution/InstallPackageUtility.cs:43-52 | The nested update-all loops meet UpdateAll: projects outside, packages inside. |
| InstallUtility.InstallPackageUtility.ResolveActionsToInstallAllPackages | src/Core/OperationResolution/InstallPackageUtility.cs:35-56 | The queue and lookups extend by InstallAllPackagesPlan's. The result is its exception, or else exactly the resolver's ResolveActions. |
| InstallUtility.InstallPackageUtility.ResolveActionsToInstallOnePackage | src/Core/OperationResolution/InstallPackageUtility.cs:144-155 | One AddUpdateOperations call with the whole list. The result is its exception, or else exactly ResolveActions. |
| InstallUtility.InstallPackageUtility.ResolveActionsForInstallPackage | src/Core/OperationResolution/InstallPackageUtility.cs:22-33 | A null or empty id takes update-all; any other id takes update-one. |
| InstallCommand.EndsWithIgnoresCase | src/CommandLine/Commands/InstallPackageCommand.cs:204 | A case-insensitive EndsWith gives the same answer for two strings equal up to case. |
| InstallCommand.ResolveCases | src/CommandLine/Commands/InstallPackageCommand.cs:357-381 | The option Overwrite or a set OverwriteAll gives Overwrite, before any Ignore condition. Otherwise the option Ignore, a set IgnoreAll, or no interactive console gives Ignore. Only then is the user prompted, and the answer is returned. Only a prompt changes the state: it sets OverwriteAll exactly for an OverwriteAll answer and IgnoreAll exactly for an IgnoreAll answer, so at most one flag is set. |
| InstallCommand.OverwriteAllSticks | src/CommandLine/Commands/InstallPackageCommand.cs:360-363 | Once OverwriteAll is set, every later conflict is answered Overwrite, with no prompt and no change of state. |
| InstallCommand.IgnoreAllSticks | src/CommandLine/Commands/InstallPackageCommand.cs:366-369 | Once IgnoreAll is set, and unless the option is Overwrite, every later conflict is answered Ignore, with no prompt and no change of state. |
| InstallCommand.AnswerAllSticks | src/CommandLine/Commands/InstallPackageCommand.cs:374-377 | After a prompt answered OverwriteAll (IgnoreAll), every later conflict is answered Overwrite (Ignore) without a prompt, one answer per conflict. |
| InstallCommand.RunKeepsAtMostOneFlag | src/CommandLine/Commands/InstallPackageCommand.cs:374-376 | Over any series of conflicts, the two flags are never both set, and the option never changes. |
| InstallCommand.NoPromptWithoutInteractiveConsole | src/CommandLine/Commands/InstallPackageCommand.cs:372-380 | Without an interactive console, no prompt is shown, the flags never change, and every answer is Overwrite or Ignore. |
| InstallCommand.Resolve | src/CommandLine/Commands/InstallPackageCommand.cs:357-381 | A prompt happens only on an interactive console; its answer is the user's reply, the option is unchanged and at most one flag is set. Without a prompt the state is unchanged and the answer is Overwrite or Ignore. A set OverwriteAll always gives Overwrite. |
| InstallCommand.InstallPackageCommand.constructor | src/CommandLine/Commands/InstallPackageCommand.cs:19 | A new command has both sticky flags clear. |
| InstallCommand.InstallPackageCommand.ResolveFileConflict | src/CommandLine/Commands/InstallPackageCommand.cs:357-381 | The answer, the new flags and the prompt shown (if any) are those of Resolve on the old state. |
| InstallCommand.GetPackagesConfigPath | src/CommandLine/Commands/InstallPackageCommand.cs:202-210 | An accepted path is returned as its full path, and is at least as long as "packages.config". |
| InstallCommand.GetInputFile | src/CommandLine/Commands/InstallPackageCommand.cs:176-200 | Any non-null input file is the full path of the first argument. |
| InstallCommand.GetInputFileClassifies | src/CommandLine/Commands/InstallPackageCommand.cs:176-210 | No argument gives null. Any non-null result is the full path of the first argument. The result is non-null exactly for: a .config extension with a name ending in packages.config, any case; a .sln extension; or a supported project extension. |
| InstallCommand.PackagesConfigPathIgnoresCase | src/CommandLine/Commands/InstallPackageCommand.cs:202-210 | Whether a .config path is accepted does not depend on the case of its name. |
| InstallCommand.ExecuteCommand | src/CommandLine/Commands/InstallPackageCommand.cs:54-103 | Self-update is chosen exactly when asked for. No argument is an invalid file. A project update or update-all happens only for an existing file named by the first argument. |
| InstallCommand.ExecuteCommandOrder | src/CommandLine/Commands/InstallPackageCommand.cs:54-103 | Self-update comes first. A null or empty input file is an invalid file. A valid config file name wins over a project extension. A project is updated only if it exists. Update-all runs exactly for an existing input file that is neither a config file nor a project, on its directory. |
| InstallCommand.Distinct | src/CommandLine/Commands/InstallPackageCommand.cs:117 | Distinct's result has no duplicates and the same members as its input. |
| InstallCommand.PackagesConfigFilesMembers | src/CommandLine/Commands/InstallPackageCommand.cs:114 | The files kept are exactly those whose name starts with "packages.", in any case. |
| InstallCommand.ResolvedProjectsMembers | src/CommandLine/Commands/InstallPackageCommand.cs:115-116 | The projects kept are exactly those some kept file resolves to; a file that resolves to none is dropped. |
| InstallCommand.SelectProjectsMembers | src/CommandLine/Commands/InstallPackageCommand.cs:114-118 | Update-all works on each project at most once per identity `Distinct` compares by, and on exactly the projects that some packages.* file resolves to. |
| InstallCommand.EveryProjectAttempted | src/CommandLine/Commands/InstallPackageCommand.cs:138-159 | The loop never stops early: project i gets result i. The result is Updated exactly when the project's update returned normally. Otherwise it is the warning for the exception thrown: ToString() in detailed verbosity, the message otherwise. |
| InstallCommand.FirstEscapeIsFirst | src/CommandLine/Commands/InstallPackageCommand.cs:114-118 | No exception escapes the selection exactly when no packages.* file's GetProject throws anything but a CommandLineException; otherwise the one that escapes is that of the first such file. |
| InstallCommand.InstallAllPackagesOutcome | src/CommandLine/Commands/InstallPackageCommand.cs:106-160 | An exception escaping GetProject aborts update-all before any project is touched. Otherwise: with no projects found, nothing is updated; if the repository path throws, no project is touched; else every selected project is attempted once, in order. |
| InstallCommand.InstallAllPackages | src/CommandLine/Commands/InstallPackageCommand.cs:106-160 | The loop method's result is InstallAllPackagesResult. |
| InstallCommand.InstallPackageCommand.InstallPackages | src/CommandLine/Commands/InstallPackageCommand.cs:334-345 | A fresh utility carries the command's Safe and Prerelease options. The result is the utility's plan for the first id (or none) and the one project, resolved. |
| InstallCommand.InstallOneUnsafe | src/CommandLine/Commands/InstallPackageCommand.cs:345 | One named package into one project, unsafe: a miss throws the miss error with nothing queued, and a hit queues exactly one Install of the package found, for that project. |

## Left out

- Logging: the `Logger.Log` calls (`InstallPackageUtility.cs:106,116,129-140`) and the command's `Log`. They do not change what is queued.
- The constraint provider's `GetConstraint` call is not modelled, because it only feeds a log message (`InstallPackageUtility.cs:129-134`). Its own possible failure is not part of this model.
- Parameters the code never reads: `targetVersionSetExplicitly`, `projectNameSpecified`, and the `packageManager` taken from `First()`. `First()` itself is modelled, because it throws on an empty list.
- `ActionResolver.ResolveActions`: its body is not shown, so it is an uninterpreted function of the queue. The resolver's own `AllowPrereleaseVersions` is not modelled.
- Executing the resolved actions (`ActionExecutor.Execute`): not modelled. `InstallPackages` returns the resolved actions instead.
- Constructing `PackageManager` and `ProjectManager` and the `PackageReferenceAdded` extraction event: construction only, and the event's effect is outside this model.
- The `SelfUpdater`: only the choice of the self-update path is modelled.
- The two `UpdatePackages` methods, `GetRepositoryPath`, `GetRepositoryPathFromSolution`, `GetPackagesDir`, `GetMSBuildProject` and `GetProject`: these are file-system and project-system work. Update-all sees them as the abstract `repositoryPath`, `getProject` (a project, null, or an escaping exception) and `updatePackages`.
- `CreateAggregateRepositoryFromSources` is not modelled: it builds a repository and is assumed not to throw.
- File-system and path functions (`GetExtension`, `GetFullPath`, `GetFileName`, `GetDirectoryName`, `FileExists`, `Directory.GetFiles`) and the set of supported project extensions: they are parameters.
- `PackageReferenceFile.IsValidConfigFileName`: its body is not shown, so it is a parameter.
- Console output is not modelled: the "scanning", "found projects" and "no projects found" messages, and the blank line in verbose mode. The warning text of a caught exception is modelled.
- Ordinal case-insensitive comparison folds ASCII letters only. Culture-independent upper-casing of other characters is not modelled.
- EveryProjectAttempted: each project's `UpdatePackages` outcome is a pure function of the project and the repository path. The shared repository that earlier projects extract packages into (`PackageReferenceAdded`, `InstallPackageCommand.cs:327-330`) is not threaded through the loop, so the model cannot show a later project's outcome depending on an earlier one's.
- InstallAllPackagesOutcome: the same simplification applies to the per-project outcomes it states.
- SelectProjectsMembers: `Distinct` compares projects by an abstract identity, because how two project systems compare is not shown. `GetMSBuildProject` builds a new project object per file (`InstallPackageCommand.cs:306`), so under reference equality two config files of one project would give two entries.
- `FileConflictAction`: the enum's declaration is not shown. Values other than Overwrite and Ignore are one value, `Other`, and the command takes its option as a constructor parameter.
- `Constants.PackageReferenceFile` is not shown. It is taken as "packages.config".
- InstallCommand.InstallPackageCommand.ResolveFileConflict: the console's answer is a parameter, so the prompt's I/O is reduced to recording the message in a ghost field.
