# esclimojo, modelled in Dafny

esclimojo is a command-line tool that scaffolds TypeScript packages. It copies
template files, initialises `package.json`, installs the development
dependencies and adds named entry points. Adding an entry point means:

- an export for the name;
- a `files` entry;
- a bundler (tsup) entry;
- a stub sub-package manifest for deep imports.

This project models the parts of the tool that have rules of their own:

- **Manifests and the store.** A manifest is JSON, and an object's properties are a map (`json.dfy`). The working directory is a `Disk` class whose `files` map is changed by `WritePackageJson` and `Touch` (`store.dfy`).
- **Adding an entry point** (`entry_points.dfy`). `addEntrypoint` is in two parts: a method that updates the manifest in place, proved equal to the transform `Transform`; and the method on the disk, proved equal to `AddOnDisk`. A batch of names is two loops: one stops at the first failure, as init does; one reports a failure per name, as the `tasks` runner does. Both are proved equal to folds. Lemmas give:
  - the error cases;
  - the exact new `exports`, `files` and `entry`;
  - that every other key is unchanged;
  - that the entry's shape is kept;
  - that a batch is all-or-nothing;
  - that the two batch styles leave the same disk.
- **The stub manifest and the default tsup configuration** (`templates.dfy`).
- **Initialisation** (`init.dfy`). This covers the manifest transform of `init` (delete `main`, then `Object.assign` the fixed fields) and its method on the disk. It also covers the install calls built from the dependency lists, and the order of steps in the current and in the older inline version of `init`.
- **Dependency lists and the package-manager table** (`deps.dfy`, `package_managers.dfy`).
- **`copy-templates`** (`copy_templates.dfy`). This covers:
  - assembling the known templates, a loop over the managers;
  - parsing `manager:file` arguments;
  - the reverse `while (i--)` validation loop, proved equal to the reverse of a filter;
  - the copies requested.
- **`copy-template`** (`copy_template.dfy`): the overwrite decision.
- **The two loggers** (`logging.dfy`, `legacy_logging.dfy`). Each is a class with the `logged` and `closed` flags, the sequence of writes to standard output and a ghost history of calls. `log_trace.dfy` defines what a history logged (`OpenLogs`, the messages before the first close, and `CloseCount`). Each logger module defines `Written`, the writes a history produces, and every method keeps `Valid()`, which ties the state to `Written` of the history.

The inline copies in `src/index.ts` are covered by the same members, with these differences:

- `addEntrypoint` and the `init` manifest transform are identical to the library versions.
- `copy-template` is identical to `src/commands/copy-template.ts`.
- The dev dependency list differs: `LegacyDevDeps`.
- The install happens before the entry points: `LegacyInitSteps`.
- Its `add-entrypoints` command and its `promptEntrypoints` (src/index.ts:133-145, 353-365) add a batch in one loop that stops at the first failure, as `init` does (`EntryPoints.AddEntrypoints`, `EntryPoints.AddAllOnDisk`). The newer `add-entrypoints` and `promptEntrypoints` run one task per name and report each failure (`EntryPoints.AddEntrypointTasks`, `EntryPoints.AddEachOnDisk`); `EntryPoints.BatchStylesAgree` shows both leave the same files.

Two behaviours of the code are worth knowing:

- `files` gains a second copy when a name is added again (`EntryPoints.AddTwiceKeepsBothCopies`).
- `touch` writes "", so adding a name again empties `src/<e>.ts` (`Store.Disk.Touch`, src/lib/fs.ts:11-17).

## Model

| member | source | states |
|---|---|---|
| Json.ToJsString | src/lib/templates.ts:21 | a string converts to itself and `null` to "null", as JavaScript's `+` coerces the parent name |
| Store.ReadDocument | src/lib/fs.ts:20-24 | reading succeeds exactly when `package.json` in the directory holds JSON, which is returned as it is; a missing file is NotFound |
| Store.ReadManifest | src/lib/entry-points.ts:11-13 | the manifest as an object: Ok exactly when the document is a JSON object, whose properties are returned; a missing file is NotFound |
| Store.Disk.GetPackageJson | src/lib/fs.ts:20-24 | returns what `ReadDocument` gives for the current files |
| Store.Disk.WritePackageJson | src/lib/fs.ts:26-30 | the manifest file of the directory holds the new value and no other file changes |
| Store.Disk.Touch | src/lib/fs.ts:11-18 | the file holds "" afterwards, even when it existed; no other file changes |
| Templates.EntrypointPackageJson | src/lib/templates.ts:15-29 | the stub has exactly name, version, type, main, module, types and files; its name ends in "-" + e; files is ["../dist"] |
| Templates.StubName | src/lib/templates.ts:16-21 | a missing parent name gives "-e", a string name n gives n + "-e", a null name gives "null-e" |
| Templates.StubVersion | src/lib/templates.ts:17-22 | "1.0.0" only for an undefined version; any other value is copied unchanged |
| Templates.StubPointsIntoDist | src/lib/templates.ts:23-27 | type "module", main ../dist/e.cjs, module ../dist/e.js, types ../dist/e.d.ts |
| Templates.DefaultTsupConfigFields | src/lib/templates.ts:4-10 | entry ["src/index.ts"], format ["esm","cjs"], sourcemap, dts and minify true |
| Deps.Specifier | src/lib/deps.ts:24-25 | the name, followed by "@" and the range exactly when a version string is given |
| Deps.ProcessDepMap | src/lib/deps.ts:22-27 | one specifier per entry in entry order; `true` gives the bare name, a string v gives name@v |
| Deps.DevDepsRendered | src/lib/deps.ts:3-18 | the 14 current dev dependencies render with "eslint@^8" at index 3 and every other one bare |
| Deps.NoRuntimeDeps | src/lib/deps.ts:20 | the runtime dependency list renders empty |
| Deps.LegacyDepListBare | src/index.ts:150-169 | in the older list every element is a bare package name |
| PackageManagers.Commands | src/lib/package-managers.ts:1-30 | both managers init with "init" "-y" and install dev packages with "-D"; yarn installs with "add", npm with "install" |
| PackageManagers.SupportedManagers | src/lib/package-managers.ts:32-36 | the table's keys in table order |
| PackageManagers.SupportedManagersExactly | src/lib/package-managers.ts:1-36 | the supported managers are exactly ["yarn", "npm"] |
| PackageManagers.ManagerNamesDistinct | src/lib/package-managers.ts:1-36 | two managers have the same key only if they are the same manager |
| PackageManagers.ParseManager | src/lib/package-managers.ts:32-36 | a recognised name is the key of the manager returned |
| PackageManagers.ParseManagerIffSupported | src/lib/package-managers.ts:32-36 | a name is recognised exactly when it is in the supported list, and every manager's key is recognised as that manager |
| EntryPoints.Transform | src/lib/entry-points.ts:13-34 | the manifest written back, or the error thrown first; its lemmas below give the result key by key and the iff for failure |
| EntryPoints.UpdateManifest | src/lib/entry-points.ts:13-34 | the in-place updates (`??=` on exports, the export key, `??=` on tsup, `files.push`, `??=` on entry, push or key set) yield `Transform` |
| EntryPoints.AddEntrypoint | src/lib/entry-points.ts:10-44 | the new disk and error are those of `AddOnDisk`: read, transform, write the stub, touch src/e.ts, write the root |
| EntryPoints.AddOnDisk | src/lib/entry-points.ts:10-44 | on a read or shape error the disk is unchanged: those throws come before the first write |
| EntryPoints.ThrowsOnlyOnBadShape | src/lib/entry-points.ts:15-34 | the transform fails exactly when the manifest's shape is wrong, and the error does not depend on the name |
| EntryPoints.ExportsMustBeObject | src/lib/entry-points.ts:13-17 | a present non-object `exports` fails with "exports must be object" and writes nothing |
| EntryPoints.ExportsAfterAdd | src/lib/entry-points.ts:13-22 | exports["./e"] is exactly {import: ./dist/e.js, require: ./dist/e.cjs}, replacing any earlier value, and every other export key is unchanged; a missing exports starts empty |
| EntryPoints.FilesAfterAdd | src/lib/entry-points.ts:27 | e is appended at the end of `files`, which starts as [] when missing |
| EntryPoints.EntryAfterAdd | src/lib/entry-points.ts:24-34 | a missing tsup is the default config; a list entry gains src/e.ts at its end, an object entry gets key e, a missing entry becomes [src/e.ts] |
| EntryPoints.OtherKeysUnchanged | src/lib/entry-points.ts:10-44 | only exports, files and tsup differ, and all three are present afterwards |
| EntryPoints.SuccessKeepsShape | src/lib/entry-points.ts:15-34 | after a successful addition the next addition cannot throw |
| EntryPoints.AddTwiceKeepsBothCopies | src/lib/entry-points.ts:27 | adding the same name twice succeeds and leaves two copies of it at the end of `files` |
| EntryPoints.AddOnDiskWrites | src/lib/entry-points.ts:36-43 | after success the disk holds the stub built from the updated manifest's name and version, an empty src/e.ts and the updated root manifest |
| EntryPoints.StubMatchesExport | src/lib/templates.ts:24-25 | seen from its own directory, the stub's main and module are the export's require and import targets |
| EntryPoints.AddEntrypoints | src/commands/init.ts:166-180 | the for loop's disk and error are those of the stop-at-first-error fold `AddAllOnDisk` |
| EntryPoints.AddEntrypointTasks | src/lib/entry-points.ts:61-72 | the tasks runner's disk and per-name errors are those of the fold `AddEachOnDisk` |
| EntryPoints.AddEachOnDisk | src/commands/add-entrypoints.ts:14-26 | one error slot per name |
| EntryPoints.AddAllOnDisk | src/commands/init.ts:166-172 | the batch that stops at its first failure; `StoreBatchIsFold`, `FailureIsSticky` and `BatchStylesAgree` state its result |
| EntryPoints.TransformAll | src/commands/init.ts:166-172 | the manifest after a batch; the batch lemmas below state it |
| EntryPoints.BatchAllOrNothing | src/lib/entry-points.ts:61-72 | a batch succeeds exactly when the manifest's shape is right; otherwise it fails with the error of its first name |
| EntryPoints.BatchAppendsInOrder | src/lib/entry-points.ts:61-72 | after a batch, `files` is the old list followed by the names in order |
| EntryPoints.BatchExportsEveryName | src/lib/entry-points.ts:61-72 | after a batch, every name of it has its dist export |
| EntryPoints.EntryStep | src/lib/entry-points.ts:24-34 | on an object tsup, one addition leaves an object tsup whose entry is the old entry with e added |
| EntryPoints.BatchEntryList | src/lib/entry-points.ts:28-31 | a list entry gains the batch's source paths in batch order |
| EntryPoints.BatchEntryMap | src/lib/entry-points.ts:28-34 | a mapping entry gains every name as a key mapped to src/n.ts; other keys keep their values |
| EntryPoints.BatchKeepsTsup | src/lib/entry-points.ts:24-34 | after a batch on an object tsup, the manifest holds an object tsup with an entry |
| EntryPoints.BatchEntriesEveryName | src/lib/entry-points.ts:24-34 | after a batch the entry keeps its shape and holds src/n.ts for every name: appended in order to a list, under key n in a mapping |
| EntryPoints.ExportKept | src/lib/entry-points.ts:19-22 | an export already present keeps its value through a batch that does not name it |
| EntryPoints.StoreBatchIsFold | src/commands/init.ts:166-172 | the disk batch succeeds exactly when the manifest fold does, and the root manifest afterwards is that fold's result |
| EntryPoints.FailureIsSticky | src/lib/entry-points.ts:61-72 | once a call fails on a disk, a batch on that disk changes nothing |
| EntryPoints.BatchStylesAgree | src/commands/add-entrypoints.ts:14-26 | reporting failures per name and stopping at the first failure leave the same disk |
| Init.InitFields | src/commands/init.ts:120-152 | the assigned object has exactly the version, type, main, module, types, exports, files, scripts, prettier, lint-staged and tsup keys |
| Init.InitManifest | src/commands/init.ts:118-152 | the deletion of `main` followed by the assignment; its lemmas below state the result field by field |
| Init.InitOnDisk | src/commands/init.ts:116-156 | a failed read changes nothing |
| Init.InitOnDiskCases | src/commands/init.ts:116-156 | an object manifest is initialised; a null document fails and changes nothing; any other document is written back unchanged; src/index.ts is emptied unless the step fails |
| Init.InitPackageJson | src/commands/init.ts:116-156 | the new disk and error are those of `InitOnDisk` |
| Init.InitVersion | src/commands/init.ts:121 | an existing version is kept; a missing or null one becomes "1.0.0" |
| Init.InitFixedFields | src/commands/init.ts:118-151 | main is ./dist/index.cjs whatever it was, exports has exactly "./package.json" and ".", files is ["dist"], tsup is the default config |
| Init.InitKeepsOtherFields | src/commands/init.ts:118-152 | the keys are the old ones plus the assigned ones, and every unassigned field keeps its value |
| Init.InitShapeOk | src/commands/init.ts:126-151 | the initialised manifest has the shape under which an entry point can be added |
| Init.InitThenAddEntrypoint | src/lib/entry-points.ts:24-34 | after init, adding e cannot throw, takes the list branch, and the entry becomes [src/index.ts, src/e.ts] |
| Init.InitThenAddExports | src/lib/entry-points.ts:19-22 | after init and one addition, exports has exactly "./package.json", "." and "./e", and files is ["dist", e] |
| Init.InstallCalls | src/commands/init.ts:182-206 | one call per non-empty list, with the manager's install command; the dev call puts -D before the rendered names |
| Init.ShippedInstall | src/commands/init.ts:184-198 | with the shipped lists only the dev install runs: `<pm> add/install -D` with the 14 rendered dev dependencies |
| Init.LegacyInstallCall | src/index.ts:308-320 | the older init always installs once: the install command, -D, and the bare older dev list |
| Init.InitSteps | src/commands/init.ts:81-206 | setup, then one addition per entry point, then the installs; `EntrypointsBeforeInstall` states the order |
| Init.LegacyInitSteps | src/index.ts:223-337 | setup, then the single install, then the additions; `LegacyInstallBeforeEntrypoints` states the order |
| Init.SetupSteps | src/commands/init.ts:81-114 | the shared setup adds no entry point and installs nothing |
| Init.EntrypointsBeforeInstall | src/commands/init.ts:166-206 | every entry-point addition comes before every install |
| Init.LegacyInstallBeforeEntrypoints | src/index.ts:308-337 | the install comes before every entry-point addition |
| CopyTemplates.AssembleTemplates | src/commands/copy-templates.ts:34-58 | the loop's list is `KnownTemplates`: the generic templates, then each listed manager's in supported order |
| CopyTemplates.KnownTemplates | src/commands/copy-templates.ts:34-58 | the generic templates followed by the listed managers'; `KnownTemplatesMembership` characterises it |
| CopyTemplates.ListedForMembership | src/commands/copy-templates.ts:43-58 | a manager template is listed exactly when its manager's directory was listed and contains the file |
| CopyTemplates.KnownTemplatesMembership | src/commands/copy-templates.ts:34-58 | a descriptor is known exactly when it is a generic file or a listed manager file; the generic ones come first |
| CopyTemplates.Split | src/commands/copy-templates.ts:88 | at least one part, no part contains the separator, and joining the parts with it gives the input back |
| CopyTemplates.SplitAfterPrefix | src/commands/copy-templates.ts:88 | the first part is the text before the first separator |
| CopyTemplates.ParseTemplateArg | src/commands/copy-templates.ts:87-101 | a generic result keeps the whole argument; a manager result has a non-empty colon-free file name; an error names an unsupported manager |
| CopyTemplates.ParsePrefixed | src/commands/copy-templates.ts:88-97 | "first:file..." with a non-empty file part gives that file for manager first, or fails when first is not supported; later segments are ignored |
| CopyTemplates.ParseEmptyFilePart | src/commands/copy-templates.ts:88-100 | an argument with nothing after its first colon (such as "yarn:") is a generic file name, taken whole |
| CopyTemplates.ParseNoColon | src/commands/copy-templates.ts:98-100 | an argument without a colon is a generic file name |
| CopyTemplates.ParseFormatRoundTrip | src/commands/copy-templates.ts:87-101 | parsing the `manager:file` or `file` form of a descriptor gives it back |
| CopyTemplates.ParseTemplateArgs | src/commands/copy-templates.ts:87-101 | succeeds exactly when every argument parses, with one descriptor per argument; otherwise it fails with the error of the first failing argument |
| CopyTemplates.Processed | src/commands/copy-templates.ts:71-86 | with no file arguments the multiselect answer is used unchanged |
| CopyTemplates.ValidateTemplates | src/commands/copy-templates.ts:104-127 | `final` is the known descriptors in reverse order and the reported ones are the unknown ones in reverse order |
| CopyTemplates.KnownOnly | src/commands/copy-templates.ts:109-115 | the descriptors some template matches, in input order; `KnownOnlyMembership` characterises it |
| CopyTemplates.ReversedAt | src/commands/copy-templates.ts:105-107 | the k-th element of the reverse is the k-th from the end |
| CopyTemplates.KnownOnlyMembership | src/commands/copy-templates.ts:109-126 | the kept descriptors are exactly the known ones, the reported ones exactly the others, and together they account for every descriptor |
| CopyTemplates.ValidationPartitions | src/commands/copy-templates.ts:104-127 | a descriptor is copied exactly when it was given and is known, reported exactly when given and unknown; none is lost |
| CopyTemplates.SelectionCopiedInReverse | src/commands/copy-templates.ts:104-127 | templates picked in the multiselect are all kept and copied in reverse order |
| CopyTemplates.ResolveReact | src/commands/copy-templates.ts:62-69 | a given --react flag is used as it is |
| CopyTemplates.CopyRequests | src/commands/copy-templates.ts:129-135 | one copy per final descriptor with its file and manager, prompting before overwrite exactly when --yes was not given |
| CopyTemplates.CopyTemplatesRun | src/commands/copy-templates.ts:32-135 | a whole run: the copies requested and the descriptors reported, or the unsupported-manager throw; `RunCopiesOnlyKnown` states its requests |
| CopyTemplates.RunCopiesOnlyKnown | src/commands/copy-templates.ts:34-135 | every copy a run requests names a known template, and with --yes none prompts |
| CopyTemplate.CopyOf | src/commands/copy-template.ts:46-49 | the copy goes from templates/f in the package to f in the working directory |
| CopyTemplate.Decision | src/commands/copy-template.ts:21-57 | an unreadable template is an error with no prompt; --yes copies with no prompt; an existing destination prompts once and copies iff confirmed, a declined overwrite copies nothing and cancelling exits; otherwise nothing is copied |
| CopyTemplate.CopyTemplate | src/commands/copy-template.ts:21-57 | the prompts and the outcome are those of `Decision` |
| CopyTemplate.IntendedDecision | src/commands/copy-template.ts:27-43 | corrected: copies exactly when readable and either --yes, or no destination, or a confirmed overwrite; prompts only to overwrite |
| CopyTemplate.AbsentDestinationNotCopied | src/commands/copy-template.ts:27-43 | without --yes and with no destination the code copies nothing, where the intended command copies |
| CopyTemplate.IntendedAgreesElsewhere | src/commands/copy-template.ts:27-43 | the code and the intended command agree wherever a destination exists or --yes is given |
| LogTrace.CloseCountZero | src/lib/logging.ts:14-29 | no close has been counted exactly when close was never called |
| LogTrace.AppendLogCall | src/lib/logging.ts:16-24 | a log adds its message only while no close came before, and does not count as a close |
| LogTrace.AppendCloseCall | src/lib/logging.ts:25-30 | a close leaves the logged messages alone and counts once more |
| Logging.Bar | src/lib/logging.ts:4-7 | "│" where unicode is supported, "|" otherwise |
| Logging.GetMessage | src/lib/logging.ts:9-10 | the gray bar, then two spaces, the message and a newline |
| Logging.Written | src/lib/logging.ts:12-32 | nothing without a message before the first close; otherwise the bar line, those messages and one trailer per close; the logger class keeps its writes equal to it |
| Logging.Logger.constructor | src/lib/logging.ts:12-15 | a new logger has logged nothing and written nothing |
| Logging.Logger.Log | src/lib/logging.ts:16-24 | while open, the first log writes the bar line and then the message, and later logs only the message; after close nothing is written; the writes stay those of `Written` |
| Logging.Logger.Close | src/lib/logging.ts:25-30 | the trailer is written iff something was logged, on every close; the writes stay those of `Written` |
| Logging.TwoMessagesThenClose | src/lib/logging.ts:16-30 | logging a and b and closing writes the bar line, a, b and the trailer |
| Logging.LogAfterCloseIgnored | src/lib/logging.ts:17 | a message logged after close adds nothing |
| Logging.CloseAgainRepeatsTrailer | src/lib/logging.ts:25-30 | once something was logged, every further close writes the trailer again |
| Logging.SilentWithoutMessages | src/lib/logging.ts:26 | a logger that logged nothing writes nothing, however often it is closed |
| LegacyLogging.GetMessage | src/logging.ts:9-10 | the newer line without its final newline |
| LegacyLogging.Written | src/logging.ts:12-29 | each message before the first close, then one trailer per close once something was logged; the logger class keeps its writes equal to it |
| LegacyLogging.Logger.constructor | src/logging.ts:12-15 | a new logger has logged nothing and written nothing |
| LegacyLogging.Logger.Log | src/logging.ts:16-21 | while open each log writes exactly its message line and no header; after close nothing is written |
| LegacyLogging.Logger.Close | src/logging.ts:22-27 | the trailer is written iff something was logged |
| LegacyLogging.TwoMessagesThenClose | src/logging.ts:16-27 | logging a and b and closing writes a, b and the trailer, with no header |
| LegacyLogging.LogAfterCloseIgnored | src/logging.ts:17 | a message logged after close adds nothing |
| LegacyLogging.MatchesNewerLogger | src/logging.ts:9-27 | the older logger writes the newer one's lines without the header and without each line's final newline |

## Findings

| source | as written | input that shows it | evidently intended | confidence | as-written member | corrected member |
|---|---|---|---|---|---|---|
| src/commands/copy-template.ts:27-43 (also src/index.ts:391-407) | `yes` is set only by the overwrite answer, so with no `--yes` and no existing destination it stays undefined and the template is not copied | `copy-template a` where ./a does not exist and templates/a does | copy the template when there is nothing to overwrite; ask only before overwriting | high (not executed) | CopyTemplate.AbsentDestinationNotCopied | CopyTemplate.IntendedDecision |

## Left out

- JSON text: `JSON.parse` and `JSON.stringify` are library calls. A manifest is a structured value and a number keeps its literal text.
- Key order: objects are maps, so the order in which properties are written is not modelled.
- Non-object roots in `addEntrypoint`: an array-valued `package.json` is refused (NotAnObject). The source carries on: the properties it sets on the array are lost when it is written back with its own elements unchanged, and the stub gets the name "-e" and version "1.0.0". (`null` and primitive roots do throw there; in `init` every root is modelled as the source treats it, see `Init.InitOnDiskCases`.)
- Special JavaScript keys such as `__proto__` are ordinary keys in the model; in the source, `entry["__proto__"] = …` on an object entry adds no key.
- Write failures: `Store.Disk.WritePackageJson` and `Store.Disk.Touch` cannot fail. In the source the `mkdir` or `writeFile` of `touch` can reject after the stub has been written to `<e>/package.json` (for instance when `src` is a regular file); the stub then stays on disk and the root manifest is not updated.
- EntryPoints.AddOnDisk: the default tsup configuration is copied on each use. The source shares one mutable object, so a push into its `entry` is visible to later uses in the same process. Object identity is not modelled.
- Paths: directories are plain strings joined with "/"; `path.join` normalisation, `mkdir` and the current working directory are not modelled.
- Prompts, spinners, the multiselect and cancellation (`@clack/prompts`): answers are inputs. Only `copy-template` models a cancellation (its `Exited` outcome). Cancelling the React confirm or the multiselect of `copy-templates`, the manager select of `init`, or the prompts of `promptEntrypoints` ends the process and has no outcome in the model.
- Subprocesses (`git`, `yarn`, `npm` via `execFile`): modelled only as the argument lists built for them (`Init.Exec`); their effects are not.
- `readdir` of the template directories: the listings are inputs, and a manager directory that cannot be read is absent from the map. A failure to read the generic templates directory aborts the command and is not modelled.
- `copyTemplate` as called by `copy-templates` (variant-block React filtering, the overwrite prompt it performs) is not part of this model; only the request made to it is (`CopyTemplates.CopyRequest`).
- The `if (!desc) continue` guard in the validation loop: descriptors are always objects, so it never fires.
- Colours and terminal detection: the gray colouring is a function parameter and unicode support a boolean parameter.
- Option parsing (commander, valibot) and `arrgv` splitting of typed names are libraries; their results are inputs.
- The recursion of `promptEntrypoints` (ask again after each batch) is not modelled; a single batch is (`EntryPoints.AddEntrypointTasks`, and `EntryPoints.AddEntrypoints` for the older copy).
- The yarn pre-init steps (`touch yarn.lock`, `yarn set version stable`) and `git init` appear only as steps in the order of `init` (`Init.SetupSteps`).
