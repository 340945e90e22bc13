# Frontend project manager — a verified model of the run bookkeeping and the Node catalogue

The project manager is a desktop tool. It lists front-end projects, picks a Node installation for each, and runs their
package scripts. It has two back ends: a Tauri application (Rust, Windows only) and a uTools plugin (JavaScript).
Both share a Vue front end. This project models the logic around the script runner in Dafny and proves what that
logic promises:

- **Run tables.** Each back end keeps a table of live runs keyed by run id.
  - The Rust `ProcessState` (`TauriRunner.ProcessState`) refuses a second start and inserts the pid only after a
    successful spawn. Stopping issues a tree kill and leaves the entry for the exit watcher to remove.
  - The uTools `processes` map (`PreloadRunner.Supervisor`) inserts the child right after spawning. It removes the
    child synchronously on stop and on exit, and empties the table on plugin-out.
  - In both, spawned commands, kills, log lines and events sent to the UI are recorded in sequences.
  - The uTools exit handler removes its run id whatever child is registered under it by then. A caller of the
    preload service that stops a run and restarts it before the stopped child's `'exit'` arrives therefore loses the
    new entry to that late exit. `OnChildExit` models it that way; "## Findings" shows the sequence of events and the
    guarded handler `OnChildExitOf`. The shipped project store is not such a caller: its start guard
    (src/stores/project.ts:59) refuses the restart until the exit listener (src/stores/project.ts:34-38) has
    cleared the running status, which a stop (src/stores/project.ts:113-120) leaves set.
- **Command and environment construction.**
  - On Windows (Tauri): the PATH prefix, the package-manager fallback chain, the full `cmd /C` line, the
    `NODE_OPTIONS` legacy-provider rule, and the clean-up of the editor name.
  - In the uTools plugin: the runtime-directory resolution and the `set PATH` / `export PATH` clause.
- **The Node catalogue.**
  - `get_nvm_list`: directory filter and a stable descending version sort.
  - The front-end node store: sorting, reloading the nvm entries, custom entries, the system entry placeholder, and
    checking installs and uninstalls.
  - The custom-entry merge of the data file.
- **The project store.**
  - Run ids `<project id>:<script>`.
  - The running-status and log maps, and the start guard.
  - Node-path resolution.
  - Project edits and the refresh of script lists.
- **Package scan.** `scan_project` turns an already-parsed package.json into a name, a sorted script list and a path.

External effects are parameters of the model. This covers spawning, the clock, the file system, JSON parsing,
local storage and calls from the front end to the back end. The outcome or content of each is passed in, so every
branch of the source on those outcomes is modelled, except the asynchronous spawn error listed under "Left out".

## Model

| member | source | states |
|---|---|---|
| NvmList.ParseU32 | src-tauri/src/nvm.rs:43 | a component parses only to a value that fits in u32, and only from text that starts with a digit or '+' |
| NvmList.ComponentValue | src-tauri/src/nvm.rs:43 | a component that `ParseU32` reads gives that value, an unparseable one counts as 0; every value fits in u32 |
| NvmList.ParseVersion | src-tauri/src/nvm.rs:40-45 | every leading 'v' is stripped, then there is one component per '.'-separated piece, and component i is `ComponentValue` of piece i (0 when it does not parse), each within u32 |
| NvmList.ParseU32Numeral | src-tauri/src/nvm.rs:43 | the decimal numeral of any u32 value parses back to that value |
| NvmList.ParseFormatVersion | src-tauri/src/nvm.rs:40-45 | parsing "v" followed by dot-joined numerals gives back exactly those numbers |
| NvmList.NewerOrSameIsPreorder | src-tauri/src/nvm.rs:46-48 | `NewerOrSame`, the descending comparison of the parsed vectors, where a proper prefix is older, is a total preorder |
| NvmList.VersionDirsMembers | src-tauri/src/nvm.rs:20-37 | `VersionDirs`, the directory filter: an entry is listed iff it comes from a readable directory whose name is valid Unicode and starts with "v"; its version is that name and its source is nvm |
| NvmList.GetNvmList | src-tauri/src/nvm.rs:15-52 | an unset NVM_HOME gives Err("NVM_HOME not set"); an unreadable directory gives Ok([]); otherwise the "v" directories in the stable descending order |
| NvmList.GetNvmListResult | src-tauri/src/nvm.rs:39-49 | the result is a permutation of the listed directories, sorted newest first; tied versions keep their directory order |
| Sorting.InsertionSortCorrect | src-tauri/src/nvm.rs:39 | the stable sort used for `sort_by` and `Array.prototype.sort`: sorted, a permutation, and ties keep their order, for any total preorder |
| NodeStore.JsNumber | src/stores/node.ts:47 | `Number` of a piece is never undefined: a run of digits reads as its decimal value (the empty piece as 0), any other piece as NaN |
| NodeStore.JsParse | src/stores/node.ts:47 | a version splits into at least one component, none of them undefined |
| NodeStore.CompareAsWritten | src/stores/node.ts:41-55 | the comparator as written: negative whenever the first entry is the system entry; positive when only the second one is; otherwise `FirstDifferenceAsWritten` of the parsed versions, whose behaviour the FirstDifferenceOnNumbers and AsWrittenTiesAreNotTransitive rows state |
| NodeStore.VersionKey | src/stores/node.ts:47-53 | the corrected sort key has exactly the three compared components: component k is the k-th parsed number, and 0 when it is missing or NaN |
| NodeStore.PrecedesIsPreorder | src/stores/node.ts:40-56 | `Precedes`, the corrected order (system first, then the three components descending), is a total preorder |
| NodeStore.KeyDiffSign | src/stores/node.ts:51-53 | the sign of the first difference over the three components is negative iff the first key is strictly newer, and zero iff the keys tie |
| NodeStore.FirstDifferenceOnNumbers | src/stores/node.ts:51-53 | on numeric components, the comparison loop as written returns exactly the first difference of the keys |
| NodeStore.AsWrittenAgreesOnFullVersions | src/stores/node.ts:41-55 | for non-system entries with three numeric components, the comparator as written agrees with the corrected order, in both directions |
| NodeStore.AsWrittenTiesAreNotTransitive | src/stores/node.ts:47-53 | "v18" ties with "v18.0.1" and with "v18.0.0", yet "v18.0.1" sorts strictly before "v18.0.0"; the corrected order puts "v18" after "v18.0.1" |
| NodeStore.Normalize | src/stores/node.ts:110 | a normalised version starts with 'v' and is lower case: it is the lower-cased input when that starts with 'v', and 'v' followed by the lower-cased input otherwise |
| NodeStore.NormalizeIdempotent | src/stores/node.ts:143 | normalising twice is normalising once |
| NodeStore.NormalizeIgnoresPrefixAndCase | src/stores/node.ts:110 | "18.0.0", "v18.0.0" and "V18.0.0" normalise alike |
| NodeStore.WithNvmNodesResult | src/stores/node.ts:23-38 | `WithNvmNodes`, the reload: after a reload the list is sorted, every nvm entry comes from the fetched list, and every other entry survives with its multiplicity |
| NodeStore.WithNvmNodesNvmMember | src/stores/node.ts:28-29 | an nvm entry is in the reloaded list iff it was fetched |
| NodeStore.InstallCheckSeesFetchedList | src/stores/node.ts:113-115 | the post-install lookup (`HasNvmVersion` on the reloaded list) finds the version iff a fetched entry carries it up to normalisation |
| NodeStore.SystemEntryFirst | src/stores/node.ts:42-44 | a sorted list that holds a system entry starts with one |
| NodeStore.WithPlaceholder | src/stores/node.ts:162-195 | after the mount step the list holds a system entry; an existing list with one is unchanged, otherwise exactly one entry is appended, `NodeVersion(<reported version, else "默认">, PlaceholderPath(stored, detected), System)` |
| NodeStore.PlaceholderPath | src/stores/node.ts:163-180 | the stored system path when present, non-empty and not "System Default"; else the detected path when detection succeeds with a real path; else "System Default" |
| NodeStore.MountedListStartsWithSystem | src/stores/node.ts:160-198 | after mounting and a successful reload, the list starts with the system entry |
| NodeStore.NodeStore.constructor | src/stores/node.ts:7-8 | the store starts empty and not loading, over the given local storage |
| NodeStore.NodeStore.SortVersions | src/stores/node.ts:40-56 | the list becomes its stable sort in the corrected order |
| NodeStore.NodeStore.LoadNvmNodes | src/stores/node.ts:23-38 | a successful fetch replaces the nvm entries and sorts; a failed one leaves the list; loading ends false |
| NodeStore.NodeStore.SaveCustomNodes | src/stores/node.ts:96-99 | local storage gets exactly the custom entries, in list order |
| NodeStore.NodeStore.LoadCustomNodes | src/stores/node.ts:11-21 | readable stored custom entries are appended; otherwise nothing changes |
| NodeStore.NodeStore.AddCustomNode | src/stores/node.ts:58-62 | the entry is appended and saved before the list is sorted |
| NodeStore.NodeStore.RemoveNode | src/stores/node.ts:64-67 | every entry with that path is dropped, the rest keep their order, and the custom entries are saved |
| NodeStore.NodeStore.UpdateSystemNode | src/stores/node.ts:69-94 | with no system entry nothing changes; otherwise the first one gets the new path (also stored), and its version changes only for a real path with a non-empty probe |
| NodeStore.NodeStore.InstallNode | src/stores/node.ts:101-133 | a failed install returns its error; otherwise the list is reloaded and the call succeeds iff an nvm entry carries the version, else fails with the not-found message |
| NodeStore.NodeStore.UninstallNode | src/stores/node.ts:135-158 | a failed uninstall returns its error; otherwise the list is reloaded and the call succeeds iff no nvm entry carries the version, else fails with the still-present message |
| NodeStore.NodeStore.AddSystemPlaceholder | src/stores/node.ts:161-195 | a system placeholder is appended only when none exists; a detected path is saved only when the stored one is unusable |
| NodeStore.NodeStore.OnMounted | src/stores/node.ts:160-198 | placeholder, then stored custom entries, then the nvm reload, in that order; the stored system path becomes `MountedStoredPath`, changed only when a placeholder is added over an unusable stored path and detection succeeds |
| ProjectStore.RunId | src/stores/project.ts:57 | a run id is the project id, ':' and the script |
| ProjectStore.RunIdSplits | src/stores/project.ts:57 | when the project id holds no ':', the first ':' of the run id separates the project id from the script |
| ProjectStore.RunIdsCollide | src/stores/project.ts:57 | project "a:b" with script "c" and project "a" with script "b:c" share a run id |
| ProjectStore.ResolveNodePath | src/stores/project.ts:68-83 | the path is never the "System Default" marker; no version means no path; a path is always some entry's path |
| ProjectStore.ResolveNodePathChoice | src/stores/project.ts:71-81 | the first entry with the project's version decides; only when none has it does a default version take the first system entry; a "System Default" path reads as none |
| ProjectStore.ResolveNodePathUnmatched | src/stores/project.ts:70-83 | when no entry has the project's version, the path is "" for a non-default version, and also for a default one when the list has no system entry |
| ProjectStore.RunnerLines | src/stores/project.ts:95-97 | a run's log starts with three labelled lines from which the script, the version ("None" when unset) and the path ("System Default" when none) read back after their labels |
| ProjectStore.UpdateKeepsIds | src/stores/project.ts:44-49 | `WithUpdated`, the update, keeps the ids in place and puts the new project in iff its id was present; with no project of that id the list is unchanged, otherwise exactly the first one with that id is replaced |
| ProjectStore.RemoveDropsExactlyThatId | src/stores/project.ts:51-54 | `WithoutProject`, the removal, keeps exactly the projects with another id |
| ProjectStore.RefreshedAll | src/stores/project.ts:126-137 | a refresh keeps the number of projects, and a project whose scan succeeded gets the scanned scripts |
| ProjectStore.RefreshChangesOnlyScripts | src/stores/project.ts:126-137 | `Refreshed`, applied to each project: a refresh keeps order and ids, changes nothing but scripts, replaces the scripts by the scanned ones when the scan succeeds, and keeps a project whose scan failed |
| ProjectStore.Appended | src/stores/project.ts:30-31 | one line is appended to the run's log, which is created when missing: its earlier lines are kept and the new one is last; no other log changes |
| ProjectStore.ProjectStore.constructor | src/stores/project.ts:8-11 | no projects, no live runs, no logs, no selection |
| ProjectStore.ProjectStore.OnOutput | src/stores/project.ts:16-32 | the output line is appended to that run's log |
| ProjectStore.ProjectStore.OnExit | src/stores/project.ts:34-38 | the run is no longer live and its log ends with "[Process exited]" |
| ProjectStore.ProjectStore.AddProject | src/stores/project.ts:40-42 | the project is appended |
| ProjectStore.ProjectStore.UpdateProject | src/stores/project.ts:44-49 | the first project with the same id is replaced; otherwise no change |
| ProjectStore.ProjectStore.RemoveProject | src/stores/project.ts:51-54 | projects with that id are dropped; the selection is cleared only when it was that id |
| ProjectStore.ProjectStore.ClearLog | src/stores/project.ts:122-124 | that run's log becomes empty |
| ProjectStore.ProjectStore.RefreshAll | src/stores/project.ts:126-137 | the list becomes the per-project refresh of the scans |
| ProjectStore.ProjectStore.RunProject | src/stores/project.ts:56-111 | a live run id changes nothing; otherwise the request and the running-status key are the id `StopRequest` later sends; empty node lists are loaded, the path is resolved, the run is requested and marked live, and a failed start marks it not live and logs the error |
| ProjectStore.ProjectStore.StartRun | src/stores/project.ts:85-110 | the log restarts with the three runner lines, the project is selected, and the run is live iff the start succeeded, else one error line is added |
| ProjectStore.StopRequest | src/stores/project.ts:113-120 | stopping only forwards the run id: the project id, ':' and the script, the id that RunProject registered for that run |
| Persistence.SavedData | src/utils/persistence.ts:14-18 | the saved record holds the projects, the settings and exactly the custom entries |
| Persistence.MergedExtends | src/utils/persistence.ts:42-51 | `Merged`, the merge, never changes or reorders existing entries; it appends only incoming entries whose path was absent before the merge, and every such entry as many times as it was loaded |
| Persistence.MergedKeepsSharedNewPath | src/utils/persistence.ts:42-51 | two loaded entries that share a path absent before the merge are both appended, since the path set is taken before the loop |
| Persistence.MergedIdempotent | src/utils/persistence.ts:42-51 | loading the same custom entries twice adds them once |
| Persistence.SaveThenLoad | src/utils/persistence.ts:8-51 | loading what was saved changes nothing; into an empty list it restores exactly the custom entries, in order |
| Persistence.MergeCustomNodes | src/utils/persistence.ts:45-50 | the path set is taken once, before the loop, and the list becomes the merge |
| Persistence.LoadData | src/utils/persistence.ts:27-56 | an unreadable, empty or unparseable file changes nothing; otherwise each present field replaces or merges its store |
| ProjectScan.StringLeIsPreorder | src-tauri/src/project.rs:32 | Rust's string order (code point order) is a total preorder |
| ProjectScan.ScanProject | src-tauri/src/project.rs:20-41 | the three errors in order, the path kept, the name from package.json else the directory name, and a panic exactly when neither exists |
| ProjectScan.ScanScripts | src-tauri/src/project.rs:31-32 | the scripts are exactly the keys of the scripts map (none when absent), strictly ascending |
| TauriRunner.WinJoin | src-tauri/src/runner.rs:72-77 | a join starts with the base and ends with the part, with at most one '\\' between |
| TauriRunner.PmCmd | src-tauri/src/runner.rs:69-107 | `"<dir>\node.exe" "<dir>\node_modules\npm\bin\npm-cli.js"` when npm-cli.js is present, else the directory's `<pm>.cmd`, else bare; with no directory, `.cmd` exactly for npm, pnpm and yarn |
| TauriRunner.NpmCliOverridesManager | src-tauri/src/runner.rs:79-87 | once npm-cli.js exists, yarn and pnpm projects get the same command as npm |
| TauriRunner.NodeExecutable | src-tauri/src/runner.rs:111-116 | plain "node" exactly when no Node directory is given, otherwise the quoted `<dir>\node.exe` |
| TauriRunner.CommandLine | src-tauri/src/runner.rs:123 | the full command (`FullCmd`, built from NodeExecutable and PmCmd) starts with the Node version check, ends with the script run, and the manager command lies exactly between them |
| TauriRunner.LogFileName | src-tauri/src/runner.rs:51 | the log file name is the run id, '_', the timestamp's digits and ".log", and the id and timestamp read back from it |
| TauriRunner.RawArg | src-tauri/src/runner.rs:172 | `cmd` receives the whole command line, unchanged, as one quoted argument after `/C` |
| TauriRunner.NewPath | src-tauri/src/runner.rs:61-66 | with a directory, PATH is that directory, ';' and the old PATH; otherwise the old PATH, empty when unset |
| TauriRunner.LegacyOffForOldNvmDirs | src-tauri/src/runner.rs:166-169 | `UseLegacyProvider`: a path naming Node 10, 12, 14 or 16 turns the legacy provider off |
| TauriRunner.LegacyOnWithoutV | src-tauri/src/runner.rs:166-169 | a path without 'v', the empty one included, turns it on |
| TauriRunner.ChildEnv | src-tauri/src/runner.rs:171-181 | the child gets the new PATH, no SASS_BINARY_PATH, NODE_OPTIONS set to the legacy flag iff the provider is on; other variables inherited |
| TauriRunner.StreamAt | src-tauri/src/runner.rs:200-259 | `StreamEvents` and `StreamLogWrites`: the i-th event and the i-th log line of a stream both come from its i-th chunk |
| TauriRunner.ForwardedLinesAgree | src-tauri/src/runner.rs:207-254 | every forwarded line lacks trailing whitespace, and its log copy is the same text, with "ERR: " exactly for stderr |
| TauriRunner.ProcessState.constructor | src-tauri/src/runner.rs:14-20 | no live runs and nothing recorded |
| TauriRunner.ProcessState.RunProjectCommand | src-tauri/src/runner.rs:34-191 | a live id or a log-file error returns its error with no effect; the log file is `LogFileName`, `<id>_<timestamp>.log`; otherwise the command line is emitted and logged, launched with the child environment, and the pid is entered exactly when the spawn succeeds |
| TauriRunner.ProcessState.Launched | src-tauri/src/runner.rs:125-191 | the command line is emitted and logged once, `cmd` is launched with it, and the pid is entered exactly when the spawn succeeds, the spawn error returned otherwise |
| TauriRunner.ProcessState.ForwardStream | src-tauri/src/runner.rs:200-259 | a reader thread emits and logs every chunk, trimmed, in order |
| TauriRunner.ProcessState.OnExit | src-tauri/src/runner.rs:264-278 | the watcher removes the run, then emits its exit |
| TauriRunner.ProcessState.StopProjectCommand | src-tauri/src/runner.rs:283-300 | always Ok; a live run gets a `taskkill /PID <pid> /F /T` (`TaskkillArgs`) and stays in the table |
| TauriRunner.EditorCommand | src-tauri/src/runner.rs:305-306 | the editor is never empty, is "code" when nothing is left after trimming, and otherwise carries no surrounding quote; `EditorArgs` hands it to `cmd /C start` |
| TauriRunner.EditorCommandUnquotes | src-tauri/src/runner.rs:305-306 | a quoted editor path with spaces around it is used as the bare path |
| TauriRunner.EditorCommandTrims | src-tauri/src/runner.rs:305-306 | an unquoted editor command with spaces around it, such as " subl ", is used as the bare command |
| PreloadRunner.PosixJoin | utools/preload.js:292-293 | a join starts with the base and ends with the part, with at most one '/' between |
| PreloadRunner.Win32Join | utools/preload.js:44 | Node's Windows join: the part follows the base directly when the base is empty or ends in a separator, otherwise after one '\\', a bare drive such as "C:" included |
| PreloadRunner.Join | utools/preload.js:42-46 | a join on either platform starts with the base and ends with the part |
| PreloadRunner.NodeDir | utools/preload.js:263-296 | a regular file gives its directory; a stat failure keeps the path; on POSIX a directory with `bin` gives `<path>/bin`; on Windows a directory is kept |
| PreloadRunner.WindowsIgnoresBin | utools/preload.js:263-273 | on Windows the directory does not depend on a `bin` child |
| PreloadRunner.PosixRootResolvesToBin | utools/preload.js:289-295 | on POSIX an installation root with `bin` resolves to a path under it ending in "/bin" |
| PreloadRunner.CmdStr | utools/preload.js:258-300 | the command always ends with `<pm> run <script>`, and is exactly that with no Node path |
| PreloadRunner.CmdStrPrefixesPath | utools/preload.js:275-298 | with a Node path, the command is exactly `PathClause` followed by `<pm> run <script>`; the clause puts the resolved directory in front of PATH (`set "PATH=<dir>;` on Windows, `export PATH="<dir>:` on POSIX) and ends by keeping the old PATH and chaining the run (`%PATH%" && ` or `$PATH" && `) |
| PreloadRunner.Supervisor.constructor | utools/preload.js:15-17 | no runs and no subscribers |
| PreloadRunner.Supervisor.RunProjectCommand | utools/preload.js:252-311 | a live id is refused with "Already running" and no effect; otherwise the command is spawned in the project directory, and the child is entered, or, when `spawn` throws, the call fails with that error and the table is unchanged |
| PreloadRunner.Supervisor.OnChildData | utools/preload.js:313-319 | a chunk goes unchanged to the output subscriber, or is dropped when there is none |
| PreloadRunner.Supervisor.OnChildExit | utools/preload.js:321-324 | the id leaves the table, then the exit subscriber, if any, is told |
| PreloadRunner.Supervisor.OnChildExitOf | utools/preload.js:321-324 | corrected handler: the exit of a child whose id a newer child has taken changes nothing; any other exit acts as `OnChildExit`; no other child's entry is ever removed |
| PreloadRunner.StaleExitDropsRestart | utools/preload.js:253-332 | run, stop, run again under the same id, then the first child's late exit: the id is gone from the table while only the first child was killed |
| PreloadRunner.StaleExitKeepsRestart | utools/preload.js:253-332 | the same events with the guarded handler leave the second child in the table |
| PreloadRunner.Supervisor.StopProjectCommand | utools/preload.js:327-334 | a live child is killed and removed at once; an unknown id changes nothing |
| PreloadRunner.Supervisor.OnProjectOutput | utools/preload.js:336-339 | the new output subscriber replaces the old one |
| PreloadRunner.Supervisor.UnsubscribeOutput | utools/preload.js:338 | the output slot is cleared, whoever holds it |
| PreloadRunner.Supervisor.OnProjectExit | utools/preload.js:341-344 | the new exit subscriber replaces the old one |
| PreloadRunner.Supervisor.UnsubscribeExit | utools/preload.js:343 | the exit slot is cleared |
| PreloadRunner.Supervisor.OnPluginOut | utools/preload.js:20-27 | every live child gets one kill, nothing else is killed, and the table ends empty |
| PreloadRunner.NvmBase | utools/preload.js:30-62 | Windows lists NVM_HOME, none when it is unset or empty; POSIX lists exactly `<root>/versions/node`, where root is NVM_DIR, or `<HOME>/.nvm` when NVM_DIR is unset or empty |
| PreloadRunner.NvmEntriesMembers | utools/preload.js:38-49 | `NvmEntries`: an entry is listed iff its name is one of the listed names (files included, as `readdirSync` lists them) starting with "v"; it is an nvm entry at that name joined to the base |
| PreloadRunner.GetNvmList | utools/preload.js:30-82 | no base, a missing POSIX directory or an unreadable one gives []; otherwise the "v" entries in listing order |
| PreloadRunner.ListEntries | utools/preload.js:64-75 | the loop over the listed names yields exactly the "v" entries, in listing order |
| PreloadRunner.HostOptionsOf | utools/preload.js:371-387 | a directory picker iff requested, otherwise a file picker; multi-select iff requested; an empty default path dropped; filters passed on |
| PreloadRunner.DialogResult | utools/preload.js:389-392 | a dismissed dialog gives nothing; with multi-select every path; otherwise the first path, or nothing when there is none |

## Left out

- JavaScript `Number` on a version piece: digit strings and the empty string are modelled; every other piece (signs, spaces, exponents, hex) reads as NaN.
- Case folding and whitespace: `toLowerCase`, `trim` and `trim_end` are modelled on ASCII letters and ASCII whitespace only.
- `path.join`, `path.dirname` and Rust `Path::join`: the join inserts at most one separator (Rust's `Path::join` none after a bare drive such as "C:", Node's `path.join` one there too); there is no normalisation of `..`, repeated separators or verbatim prefixes. `path.dirname` is a parameter.
- Library sorts: `Array.prototype.sort` and `sort_by` are modelled by one stable insertion sort; `sort` on strings is the same sort under code-point order.
- NodeStore.NodeStore.SortVersions: sorts with the corrected comparator, not the one as written (see Findings).
- Concurrency: reader threads, the exit watcher, promises and event callbacks run one at a time, each as one call; interleavings are not modelled.
- Locks: a poisoned `Mutex` in `run_project_command` and `stop_project_command` is not modelled.
- Log files: the log directory lookup, its creation and opening the file are one `logDir` result. Each line written is one entry of `logWrites`; the append mode and write errors are not modelled.
- `String::from_utf8_lossy` on the child's output: chunks are already strings.
- Environment variables are case-sensitive map keys; Windows treats them case-insensitively.
- TauriRunner.ProcessState.RunProjectCommand: returns the log file path on success, where the source returns `()`. The pid is a `nat`, not a u32.
- PreloadRunner.Supervisor.RunProjectCommand: an asynchronous `'error'` event of the child (a missing working directory, say) is not modelled. No listener is attached and no `'exit'` follows, so in the source the id stays in the table until it is stopped.
- PreloadRunner.GetNvmList: HOME is always a string; an unset HOME with an unset NVM_DIR, which makes `path.join` throw, is not modelled.
- PreloadRunner.Supervisor.OnPluginOut: kills children in some order; the Map's insertion order is not modelled.
- PreloadRunner.DialogResult: `undefined` (an empty answer without multi-select) and `null` are both `NoSelection`.
- Node install, uninstall and switching: the PowerShell, AppleScript and terminal launches, and probing `node` for its path or version, are only outcomes passed in.
- The updater, the registry and `.desktop` writes, the release script, the API adapters, the settings store's defaults and the other framework wiring are not part of this model.
- The preload's config-file I/O and its own `scanProject` are not modelled; the package scan is modelled on the Rust side.

## Findings

| source | as written | input that shows it | evidently intended | confidence | as-written member | corrected member |
|---|---|---|---|---|---|---|
| src/stores/node.ts:47-53 | `va[i] !== vb[i]` compares the raw components, where a missing one is `undefined`, but the result `(vb[i] \|\| 0) - (va[i] \|\| 0)` reads it as 0, so the loop stops at a 0 | custom entries "v18", "v18.0.1", "v18.0.0": "v18" ties with both others, yet "v18.0.1" sorts strictly before "v18.0.0", so the ties are not transitive and the sort order is unspecified | missing and NaN components count as 0 in both the test and the difference, a consistent newest-first order | medium, not executed | NodeStore.AsWrittenTiesAreNotTransitive | NodeStore.PrecedesIsPreorder |
| utools/preload.js:321-324 | the `'exit'` handler deletes `id` from `processes` whatever child is registered under it by then | a caller of the preload service starts "app:dev" (child 1), stops it (child 1 is killed and removed), starts it again (child 2) before child 1's `'exit'` arrives, and then that `'exit'` arrives: the table loses child 2, which keeps running and can no longer be stopped. The shipped project store does not restart before the exit event (src/stores/project.ts:59 with 34-38 and 113-120), so only another caller of the service reaches this | an exit removes the entry only while it still belongs to the exiting child | low: a latent defect of the service, unreachable through the shipped store; not executed | PreloadRunner.StaleExitDropsRestart | PreloadRunner.Supervisor.OnChildExitOf |
