# nx-tools: a Dafny model of the plugins' decision logic

nx-tools is a set of Nx workspace plugins. They run Cypress end-to-end tests against Firebase emulators or a dev server. They drive the Firebase CLI from Nx executors, and they infer Nx targets from `firebase.json` and `cypress.config.*` files. Around the process handling they hold a good deal of deterministic logic:

- parsing target strings and web-server commands;
- building Firebase CLI command lines;
- normalising options and matching ready markers;
- picking emulator ports out of `firebase.json`;
- building target records, inputs, outputs and per-spec CI targets;
- the generator and the migration that write into the workspace;
- the release scripts.

This project models that logic in Dafny 4 and proves properties of it.

## How the model is built

- **One module per source file.** Variants of the same routine in different packages are kept apart. For example, `CypressFirebase`, `CypressFirebaseV2` and `LegacyFirebase` each model one copy of the emulator helpers, because the copies differ.
- **Shared helpers.** `Wrappers` (Option and Result), `Text` (split, join, contains, trim, ASCII lower case), `Records` (JavaScript objects as ordered key/value lists), `Paths` (`path.join`, `joinPathFragments`, `dirname`, `relative`, normalisation) and `Workspace` (projects, targets and directory listings).
- **Thrown errors** are `Err` values of `Result`. A `TypeError` names the read that fails.
- **External effects are inputs.** Processes, HTTP probes, `runExecutor`, `Cypress.run`, `killPort`, `require`, hashing, globbing and the project graph are not modelled as behaviour. Their answers are parameters, or oracle sequences such as the successive results a server target yields. Whether an HTTP address can be requested at all is not an input: it is decided from the address text by the `Urls` module.
- **Objects the source mutates in place are classes**, each with a pure specification function:
  - the killable-run options;
  - the `readyWhen` data;
  - the three targets caches;
  - the Cypress version module state;
  - the generator `Tree`;
  - the two plugin manifests.

  Each method's `ensures` ties its new state to that function, and lemmas prove what the source promises about the function.
- **Loops become methods with invariants**, proved against the same functions. Examples are the argument filter, the port scans, the CI-target loop, the option builders and the migration's `forEach`.
- **Async generators** become functions from the sequence of server results (and the `watch` flag) to the sequence of values yielded.

## Model

| member | source | states |
|---|---|---|
| Emulators.TruthyPorts | packages/firebase-cypress/src/utils/firebase-v2.ts:57-63 | the collected ports are exactly the truthy `port` values of the emulator entries; every one is truthy |
| Emulators.DigitsAreNumeric | packages/firebase-cypress/src/utils/firebase-v2.ts:43 | a port written as decimal digits passes the `!isNaN(+p)` test |
| Emulators.LettersAreNaN | packages/firebase-cypress/src/utils/firebase-v2.ts:43 | a port such as `abc` fails the `!isNaN(+p)` test |
| TargetString.FindWithColon | packages/firebase-cypress/src/utils/target-string-to-target.ts:6 | `find` gives the first part holding a ':', and nothing exactly when no part holds one |
| TargetString.TokenWithColon | packages/firebase-cypress/src/utils/target-string-to-target.ts:4-8 | some space-separated token holds a ':' exactly when the whole string does |
| TargetString.ParseFailsWithoutColon | packages/firebase-cypress/src/utils/target-string-to-target.ts:6-22 | parsing fails exactly for strings without ':', always with `Unable to parse target: "<s>" to a valid target` |
| TargetString.ParseProjectTarget | packages/firebase-cypress/src/utils/target-string-to-target.ts:13-19 | `p:t` without spaces or further colons gives project `p`, target `t` and no configuration |
| TargetString.ParseWithConfiguration | packages/firebase-cypress/src/utils/target-string-to-target.ts:13-19 | a third ':'-segment becomes the configuration |
| TargetString.ParseDropsExtraSegments | packages/firebase-cypress/src/utils/target-string-to-target.ts:14 | segments after the third are dropped |
| TargetString.ParseWithSpaces | packages/firebase-cypress/src/utils/target-string-to-target.ts:4-11 | with spaces, the first token holding a ':' is parsed as if it were the whole string (`nx run test:firebase-emulators` gives `test`, `firebase-emulators`) |
| TargetString.FindAfterColonFree | packages/firebase-cypress/src/utils/target-string-to-target.ts:6 | `find` skips the tokens before the first one holding a ':' |
| TargetString.ParseEmptyProject | packages/firebase-cypress/src/utils/target-string-to-target.ts:13-19 | empty segments are not rejected: `:serve` gives project '' and target `serve` |
| FirebaseServer.AgreesWithTargetString | packages/firebase/src/utils/server.ts:16-32 | this copy succeeds exactly when the other parser does, with the same target; it fails with `Unable to parse base serve target`, or, with spaces and no ':', with a TypeError from `includes` on `undefined` |
| FirebaseServer.ParseBaseTargetFails | packages/firebase/src/utils/server.ts:22-31 | parsing fails exactly for strings without a ':' |
| FirebaseServer.StartServer | packages/firebase/src/utils/server.ts:3-14 | a parse failure is thrown before any result is read; otherwise the results are read in order up to and including the first unsuccessful one, and all of them when every one succeeds |
| KillableRunArgs.WrapOption | packages/nx-firebase/src/executors/killable-run/executor.ts:656-663 | `--k=v` whose value holds a space and starts with no quote becomes `--k="v"`; text after a second '=' is lost |
| KillableRunArgs.WrapBare | packages/nx-firebase/src/executors/killable-run/executor.ts:666-667 | an argument without '=' that holds a space and starts with no quote is wrapped in double quotes |
| KillableRunArgs.WrapUnchanged | packages/nx-firebase/src/executors/killable-run/executor.ts:655-671 | an argument without a space, or one starting with a quote, comes back unchanged |
| KillableRunArgs.WrapIdempotent | packages/nx-firebase/src/executors/killable-run/executor.ts:655-671 | quoting an already quoted argument changes nothing more |
| KillableRunArgs.FilterPropKeysFromUnParsedOptions | packages/nx-firebase/src/executors/killable-run/executor.ts:567-600 | the loop, including its `i++` skip of a reserved flag's value, computes the recursive definition of the filter |
| KillableRunArgs.FilteredKeep | packages/nx-firebase/src/executors/killable-run/executor.ts:575-597 | an item that names none of the executor's own options is kept |
| KillableRunArgs.FilteredSwallow | packages/nx-firebase/src/executors/killable-run/executor.ts:583-590 | a reserved bare flag drops the next item too when that item equals the flag's truthy parsed value |
| KillableRunArgs.FilteredDrop | packages/nx-firebase/src/executors/killable-run/executor.ts:576-592 | any other reserved `--k=v` or `--k` is dropped alone |
| KillableRunArgs.FilteredIsSubsequence | packages/nx-firebase/src/executors/killable-run/executor.ts:567-600 | the kept items are an in-order subsequence of the input |
| KillableRunArgs.FilteredHasNoReserved | packages/nx-firebase/src/executors/killable-run/executor.ts:576-594 | no kept item names one of the executor's own options (key up to the first '=' and '.', or the bare flag) |
| KillableRunArgs.FilteredUnchanged | packages/nx-firebase/src/executors/killable-run/executor.ts:567-600 | the input comes back whole exactly when no item names one of the executor's own options |
| KillableRunArgs.ReplaceArgsNoMarker | packages/nx-firebase/src/executors/killable-run/executor.ts:517-518 | a command without placeholders is left as it is by the replacement |
| KillableRunArgs.ReplaceArgsPrefix | packages/nx-firebase/src/executors/killable-run/executor.ts:517-518 | text without '{' before a placeholder is copied unchanged |
| KillableRunArgs.ReplaceArgsAtMarker | packages/nx-firebase/src/executors/killable-run/executor.ts:517-518 | `{args.x}` is replaced by the parsed value of `x`, or by '' when `x` has none |
| KillableRunArgs.WrapAll | packages/nx-firebase/src/executors/killable-run/executor.ts:528-539 | every forwarded argument is quoted if needed, in order |
| KillableRunArgs.InterpolateArgsIntoCommand | packages/nx-firebase/src/executors/killable-run/executor.ts:504-547 | the result is `undefined` exactly when there is no `{args.` and arguments are not forwarded; when forwarded without placeholder the command is a prefix of the result, and is the result when there are no unknown options |
| KillableRunArgs.InterpolatePlaceholder | packages/nx-firebase/src/executors/killable-run/executor.ts:516-518 | a command with a placeholder has it replaced by its value whether or not arguments are forwarded |
| KillableRunArgs.ReplacePlaceholder | packages/nx-firebase/src/executors/killable-run/executor.ts:517-518 | the first placeholder after text without '{' is replaced by its value, and the rest is replaced in turn |
| KillableRun.FirstMatch | packages/nx-firebase/src/executors/killable-run/executor.ts:678-683 | the scan stops at the first marker occurring in the chunk; no earlier marker occurs in it |
| KillableRun.IsReady | packages/nx-firebase/src/executors/killable-run/executor.ts:673-687 | with non-empty data the shared array has the first occurring marker flagged and nothing else changed; missing or empty data changes nothing; the answer is whether every marker is flagged |
| KillableRun.MarkFirstChangesOne | packages/nx-firebase/src/executors/killable-run/executor.ts:678-683 | at most one marker changes per chunk, the first one occurring in it; flags are never cleared and strings never change |
| KillableRun.NoMarkersReady | packages/nx-firebase/src/executors/killable-run/executor.ts:686 | with no markers the run is ready at once (`every` over []) |
| KillableRun.MarkFirstStopsAtFlagged | packages/nx-firebase/src/executors/killable-run/executor.ts:679-682 | the scan also stops at an already flagged marker, so a chunk holding two markers never flags the second once the first was seen |
| KillableRun.MarkFirstFlagsNext | packages/nx-firebase/src/executors/killable-run/executor.ts:678-683 | a chunk holding the first unflagged marker and none of the earlier ones flags exactly that marker |
| KillableRun.AsConfig | packages/nx-firebase/src/executors/killable-run/executor.ts:246 | a bare string entry becomes `{ command }` with no prefix, colour or `forwardAllArgs` |
| KillableRun.ReadyWhenStatusOf | packages/nx-firebase/src/executors/killable-run/executor.ts:223-234 | a string gives one unfound marker, a list one unfound marker per string in order, absence none; an empty string is falsy and has no `map`, so it throws |
| KillableRun.AsConfigs | packages/nx-firebase/src/executors/killable-run/executor.ts:246 | every entry of `commands` becomes a command object, in order |
| KillableRun.CommandsOf | packages/nx-firebase/src/executors/killable-run/executor.ts:236-247 | a truthy `command` (a list joined by ' ') is the only command; otherwise `commands` is mapped, and its absence throws |
| KillableRun.InterpolateCommand | packages/nx-firebase/src/executors/killable-run/executor.ts:272-278 | a command object keeps everything but its command, which is interpolated; an object without `command` throws at its first read, `command.indexOf` |
| KillableRun.JoinedArgs | packages/nx-firebase/src/executors/killable-run/executor.ts:249-251 | a list of `args` is joined by ' '; other values are kept |
| KillableRun.KillableRunOptions.InterpolateAll | packages/nx-firebase/src/executors/killable-run/executor.ts:272-278 | every command, in order, is replaced by its interpolated form, with the entry's `forwardAllArgs` before the options'; the first command that throws stops the loop, and nothing but the command list changes |
| KillableRun.StatusIsUnknownObject | packages/nx-firebase/src/executors/killable-run/executor.ts:223-264 | `readyWhenStatus`, assigned before the keys are read and not one of the executor's own keys, is an unknown option holding an object, after the caller's, unless `__unparsed__` sets it |
| KillableRun.StatusAddsNoArgument | packages/nx-firebase/src/executors/killable-run/executor.ts:522-527 | the marker list, being an object, adds no `--name=value` argument |
| KillableRun.UnparsedForwardedWithoutUnknowns | packages/nx-firebase/src/executors/killable-run/executor.ts:519-545 | with no unknown option of the caller's, a command without placeholders still gets the filtered `__unparsed__` arguments appended: the `return command` branch is not reached |
| KillableRun.ForwardWithoutOptionArgs | packages/nx-firebase/src/executors/killable-run/executor.ts:519-542 | when the unknown options give no argument, forwarding appends just the filtered, quoted `__unparsed__` items |
| KillableRun.KillableRunOptions.Normalize | packages/nx-firebase/src/executors/killable-run/executor.ts:220-280 | the options object gets its marker array, command list, `parallel` (only reset when `command` is given), joined `args` and commands interpolated with the unknown options `UnknownOptions` builds (`readyWhenStatus` among them); the first failing step is reported |
| KillableRun.KillableRunOptions.Execute | packages/nx-firebase/src/executors/killable-run/executor.ts:115-146 | after normalisation and both checks, the run is serial without `parallel`, a race with markers, all-settled otherwise; the failures are a TypeError or one of the two configuration errors |
| KillableRun.KillableRunOptions.CheckConfig | packages/nx-firebase/src/executors/killable-run/executor.ts:122-133 | markers without `parallel` throw first; otherwise a command with prefix, color or bgColor without `parallel` throws; nothing is thrown exactly when `parallel` is set or neither applies |
| KillableRun.SucceededPrefix | packages/nx-firebase/src/executors/killable-run/executor.ts:289-319 | the number of commands that succeed before the first failure |
| KillableRun.RunSerially | packages/nx-firebase/src/executors/killable-run/executor.ts:282-325 | commands start one after another up to and including the first failure; the run succeeds iff every command does; the output is the outputs of the started commands, without the warning |
| KillableRun.FailedWarnings | packages/nx-firebase/src/executors/killable-run/executor.ts:193-200 | there are no warnings exactly when every command succeeded |
| KillableRun.ParallelAll | packages/nx-firebase/src/executors/killable-run/executor.ts:187-216 | without markers the run succeeds iff none failed, and its output starts with every command's output in order |
| KillableRun.ParallelRace | packages/nx-firebase/src/executors/killable-run/executor.ts:171-186 | with markers the first process to settle decides success, and its output gets the warning when it failed |
| KillableRun.Failures | packages/nx-firebase/src/executors/killable-run/executor.ts:193-200 | exactly the positions of the failed results, in increasing order |
| KillableRun.FailedWarningsCount | packages/nx-firebase/src/executors/killable-run/executor.ts:193-200 | one warning per failed command: warning i names the command of the i-th failed result |
| KillableRun.CalculateCwd | packages/nx-firebase/src/executors/killable-run/executor.ts:469-476 | no working directory gives the workspace root, an absolute one is kept, a relative one is joined to the root |
| KillableRun.CalculateCwdBelowRoot | packages/nx-firebase/src/executors/killable-run/executor.ts:475 | a relative directory of plain segments lands below a root of plain segments |
| FirebaseExecutor.NormalizeOptions | packages/nx-firebase/src/executors/firebase/executor.ts:29-45 | defaults cwd '.', command `npx firebase emulators:start`, parallel true, readyWhen `It is now safe to connect`, only [], disableOnly false; any provided value is kept, even '' or false; the marker object exists iff readyWhen is non-empty |
| FirebaseExecutor.CheckOptions | packages/nx-firebase/src/executors/firebase/executor.ts:20-22 | the `--parallel` error is thrown exactly when readyWhen is non-empty and parallel is false |
| FirebaseExecutor.SerialNeedsEmptyReadyWhen | packages/nx-firebase/src/executors/firebase/executor.ts:20-35 | with parallel false the check passes only when readyWhen is given as '', because of its non-empty default |
| FirebaseExecutor.StringifyCommandAndOpts | packages/nx-firebase/src/executors/firebase/executor.ts:57-69 | with disableOnly or no emulators the command is unchanged; otherwise ` --only=` and the names joined by ',' are appended |
| FirebaseExecutor.OnlyRoundTrip | packages/nx-firebase/src/executors/firebase/executor.ts:64-66 | the names read back from the `--only=` suffix, split on ',', are the given names when none holds a comma |
| FirebaseExecutor.ReadyWhenData.IsReady | packages/nx-firebase/src/executors/firebase/executor.ts:47-55 | a non-empty chunk holding the marker sets the flag; nothing clears it; the answer is the flag |
| FirebaseExecutor.ProcessOutcome | packages/nx-firebase/src/executors/firebase/executor.ts:71-100 | with the marker already seen, the first event other than an error decides: success unless it is an exit with a non-zero code |
| FirebaseExecutor.StartProcess | packages/nx-firebase/src/executors/firebase/executor.ts:71-100 | the first event that resolves the promise decides the outcome, later ones are ignored; the marker object ends flagged iff it was, or some non-empty chunk showed the marker |
| FirebaseExecutor.ReadyIsSticky | packages/nx-firebase/src/executors/firebase/executor.ts:77-88 | once a stdout or stderr chunk shows the marker before any error or exit, the outcome is success whatever follows |
| FirebaseExecutor.WithoutMarker | packages/nx-firebase/src/executors/firebase/executor.ts:90-97 | without a marker the first error or exit decides, success exactly for exit code 0 |
| FirebaseExecutor.ExitBeforeReadyPends | packages/nx-firebase/src/executors/firebase/executor.ts:94-98 | with a marker never shown and no error, an exit leaves the promise pending |
| FirebaseExecutor.RunExecutor | packages/nx-firebase/src/executors/firebase/executor.ts:15-27 | the configuration error is thrown exactly when the check fails; otherwise the command line and cwd are those of the normalised options, with a fresh unflagged marker object iff readyWhen is non-empty |
| EmulatorsExecutor.KeepValid | packages/nx-firebase/src/executors/emulators/executor.ts:92-109 | exactly the names among the eight valid emulators are kept (`dataconnect` is not one), never more than given |
| EmulatorsExecutor.TrimAll | packages/nx-firebase/src/executors/emulators/executor.ts:102 | every piece is trimmed, in order |
| EmulatorsExecutor.GetValidEmulators | packages/nx-firebase/src/executors/emulators/executor.ts:91-110 | a list is filtered; a string is split on ',', trimmed, then filtered; any other value has no `split` and throws |
| EmulatorsExecutor.KeepValidSubsequence | packages/nx-firebase/src/executors/emulators/executor.ts:99-109 | the kept names keep their relative order |
| EmulatorsExecutor.OptionArgs | packages/nx-firebase/src/executors/emulators/executor.ts:50-85 | `cwd` and unknown keys contribute no arguments |
| EmulatorsExecutor.StringifyOptions | packages/nx-firebase/src/executors/emulators/executor.ts:47-89 | the loop's arguments are those of every option, in key order |
| EmulatorsExecutor.FailurePersists | packages/nx-firebase/src/executors/emulators/executor.ts:50-86 | an option that throws ends the whole `forEach` with that error |
| EmulatorsExecutor.ArgsInKeyOrder | packages/nx-firebase/src/executors/emulators/executor.ts:50-86 | the arguments of two groups of keys are the first group's followed by the second's |
| EmulatorsExecutor.OnlyRoundTrip | packages/nx-firebase/src/executors/emulators/executor.ts:56-61 | `only` gives `--only` and a list that reads back, split on ',', as the valid names in their order |
| EmulatorsExecutor.OnlyRejectsOthers | packages/nx-firebase/src/executors/emulators/executor.ts:91-110 | a name outside the eight never gets through |
| EmulatorsExecutor.ExportOnExitArgs | packages/nx-firebase/src/executors/emulators/executor.ts:71-78 | a string gives the flag and the path, true the flag alone, false nothing |
| EmulatorsExecutor.ImportArgs | packages/nx-firebase/src/executors/emulators/executor.ts:67-70 | `import` gives `--import` and the value |
| EmulatorsExecutor.LogVerbosityArgs | packages/nx-firebase/src/executors/emulators/executor.ts:79-83 | the level is pushed in every case; `--log-verbosity` only for DEBUG, INFO, QUIET or SILENT |
| EmulatorsExecutor.InspectFunctionsArgs | packages/nx-firebase/src/executors/emulators/executor.ts:62-66 | the flag is always pushed; a number port follows it, a string port is dropped by the precedence of the logical or over the logical and |
| EmulatorsExecutor.InspectFunctionsArgsIntended | packages/nx-firebase/src/executors/emulators/executor.ts:62-66 | corrected: the port follows the flag whether written as a string or a number |
| EmulatorsExecutor.LogVerbosityArgsIntended | packages/nx-firebase/src/executors/emulators/executor.ts:79-83 | corrected: flag and level together exactly for a valid level, nothing otherwise |
| EmulatorsExecutor.InspectFunctionsDiscrepancy | packages/nx-firebase/src/executors/emulators/executor.ts:62-66 | the written and corrected arguments differ exactly for a string port |
| EmulatorsExecutor.LogVerbosityDiscrepancy | packages/nx-firebase/src/executors/emulators/executor.ts:79-83 | the written and corrected arguments differ exactly for an invalid level |
| EmulatorsExecutor.RunExecutor | packages/nx-firebase/src/executors/emulators/executor.ts:6-45 | the emulators get the stringified arguments and exactly one `{success: true}` is yielded, whatever they print |
| ServeExecutor.ValidateOptions | packages/firebase/src/executors/serve/executor.ts:22-29 | a missing or empty base serve target throws `A base server target is required.`; a non-empty `only` with `includeHosting` only warns |
| ServeExecutor.NormalizeOptions | packages/firebase/src/executors/serve/executor.ts:31-37 | `only` defaults to [] unless hosting is included, `includeHosting` to false; given values are kept |
| ServeExecutor.NonHosting | packages/firebase/src/executors/serve/executor.ts:43-47 | exactly the emulators other than `hosting` are listed |
| ServeExecutor.GetFirebaseCommand | packages/firebase/src/executors/serve/executor.ts:39-57 | the loop builds the modelled command; with hosting there is no `--only` part; without hosting a missing list throws |
| ServeExecutor.ListedNonHosting | packages/firebase/src/executors/serve/executor.ts:42-47 | the loop lists the non-hosting emulators each followed by ',' |
| ServeExecutor.OnlyPartMeaning | packages/firebase/src/executors/serve/executor.ts:41-50 | the `--only` part is ` --only ` and the non-hosting emulators joined by ','; with none left it is ` --only` |
| ServeExecutor.DanglingOnly | packages/firebase/src/executors/serve/executor.ts:41-50 | with no emulator other than hosting (the default `[]` among them) the command ends in a dangling `--only` |
| ServeExecutor.FirebaseCommandIntended | packages/firebase/src/executors/serve/executor.ts:41-50 | corrected: no `--only` part when no emulator other than hosting remains; otherwise the written command |
| ServeExecutor.IntendedOnlyRoundTrip | packages/firebase/src/executors/serve/executor.ts:41-50 | the names after `--only` in the corrected command read back, split on ',', as the non-hosting emulators |
| ServeExecutor.RunExecutor | packages/firebase/src/executors/serve/executor.ts:5-15 | a missing base target throws; otherwise the command is built from the normalised options, and `startEmulators`, called without a context, rejects with the TypeError reading `cwd` of `undefined`, so the executor never reports success |
| ServeExecutor.RunExecutorIntended | packages/firebase/src/executors/serve/executor.ts:5-15 | corrected (context passed on): a missing base target or a `firebase.json` without emulators throws; otherwise the start outcome of `FirebaseUtils.StartEmulators` for the built command |
| DeployExecutor.CreateCommand | packages/firebase/src/executors/deploy/executor.ts:28-36 | without `only` the command is `npx firebase deploy` exactly; a present list, even an empty one, appends ` --only ` and the names joined by ',' |
| DeployExecutor.DeployOnlyRoundTrip | packages/firebase/src/executors/deploy/executor.ts:31-33 | the deployed targets read back from the command when none holds a comma; an empty list leaves ` --only ` |
| DeployExecutor.RunExecutor | packages/firebase/src/executors/deploy/executor.ts:9-26 | success is true iff the exit code is 0; the command runs in `cwd` |
| FirebaseUtils.FirstPort | packages/firebase/src/utils/firebase.ts:59-67 | the port of the first key in declaration order whose port is truthy and that passes the filter (no filter, or the filter contains the key); `undefined` exactly when none does |
| FirebaseUtils.GetFirstEmulatorPort | packages/firebase/src/utils/firebase.ts:44-68 | a configuration without emulators throws; otherwise the `forEach` keeps the first selected port and skips the rest |
| FirebaseUtils.OnlyPartOf | packages/firebase/src/utils/firebase.ts:27-28 | the chosen '--'-part mentions `only` |
| FirebaseUtils.FirstContaining | packages/firebase/src/utils/firebase.ts:28 | `filter(...)[0]` is the first part holding the word, and nothing exactly when no part does |
| FirebaseUtils.ProbeAndWaitDiffer | packages/firebase/src/utils/firebase.ts:27-29 | without an `only` part, the probe takes the first truthy port while the wait, filtering by the whole command, polls `localhost:undefined` when the command names no key |
| FirebaseUtils.OnlyPartWithinCommand | packages/firebase/src/utils/firebase.ts:27-29 | a key the `only` part selects is also selected by the whole command |
| FirebaseUtils.StartEmulators | packages/firebase/src/utils/firebase.ts:9-42 | the probe comes first; an address `new URL` rejects (an undefined port among them) leaves the call pending for ever; when the probe answers nothing is started and no killer is returned; otherwise the emulators start and the wait polls its own port: the killer is returned once it answers, and a rejected wait address can only time out |
| FirebaseUtils.UndefinedPortRejected | packages/firebase/src/utils/request.ts:11 | `new URL` rejects `http://localhost:undefined` |
| FirebaseUtils.UnnamedKeysNeverPolled | packages/firebase/src/utils/firebase.ts:111-138 | when the command names no key, the wait's address never parses, while the probe's parses for a port number in range |
| FirebaseUtils.NormalizeHeaders | packages/firebase/src/utils/firebase.ts:214-228 | Name and COMM become COMMAND, ParentProcessId PPID, ProcessId PID, Status STAT; anything else is unchanged |
| FirebaseUtils.NormalizeHeadersIdempotent | packages/firebase/src/utils/firebase.ts:214-228 | a normalised header maps to itself |
| FirebaseUtils.Words | packages/firebase/src/utils/firebase.ts:178 | splitting on white-space runs gives at least one piece |
| FirebaseUtils.WordsCons | packages/firebase/src/utils/firebase.ts:178 | a word followed by white space comes first, then the words of the rest |
| FirebaseUtils.ParseRow | packages/firebase/src/utils/firebase.ts:185-191 | the `while (h.length)` loop builds the row the recursive definition describes |
| FirebaseUtils.RowFields | packages/firebase/src/utils/firebase.ts:185-191 | with distinct headers and enough columns, header i holds column i and the last header the remaining columns joined by ' ' |
| FirebaseUtils.RowKeeps | packages/firebase/src/utils/firebase.ts:185-191 | keys that are not headers are untouched |
| FirebaseUtils.CollectChildren | packages/firebase/src/utils/firebase.ts:196-204 | the single pass accepts a row iff its PPID is the root, an already accepted PID, or a property every object inherits (`constructor`, `__proto__`, …) |
| FirebaseUtils.DirectChildrenKept | packages/firebase/src/utils/firebase.ts:200-203 | every row whose PPID is truthy in `parents`, set there or inherited, is reported |
| FirebaseUtils.InheritedParentAccepted | packages/firebase/src/utils/firebase.ts:197-201 | a row whose PPID reads `constructor` is reported whatever the root |
| FirebaseUtils.ChildrenFromRows | packages/firebase/src/utils/firebase.ts:199-204 | only rows of the listing are reported, never more than there are |
| FirebaseUtils.GrandchildOrder | packages/firebase/src/utils/firebase.ts:199-204 | a grandchild listed before its parent is missed and found when listed after, for a child PID that is not an inherited key |
| FirebaseUtils.MapNormalize | packages/firebase/src/utils/firebase.ts:181 | every header is normalised, in order |
| FirebaseUtils.Rows | packages/firebase/src/utils/firebase.ts:177-194 | every later line, trimmed and split, becomes one row over the headers |
| ProjectGraph.GetE2EProjectDependency | packages/firebase-cypress/src/utils/project-graph.ts:9-20 | the project named by the first implicit dependency; nothing when the name is missing or empty, or names no project |
| ProjectGraph.ValidateFirebaseProject | packages/firebase-cypress/src/utils/project-graph.ts:22-25 | true exactly when the listing of the project's directory under the workspace root includes `firebase.json` |
| ProjectGraph.DependencyIgnoresLaterNames | packages/firebase-cypress/src/utils/project-graph.ts:14 | only the first implicit dependency matters |
| CypressFirebase.StrictDependency | packages/firebase-cypress/src/utils/firebase.ts:88-95 | without optional chaining a missing project or dependency list throws a TypeError; an empty list looks up the key `undefined` |
| CypressFirebase.DependencyRoot | packages/firebase-cypress/src/utils/firebase.ts:19-20 | `dependency.root` exists exactly when the lookup succeeds and finds a project |
| CypressFirebase.GetPortForFirebaseEmulator | packages/firebase-cypress/src/utils/firebase.ts:34-53 | the loop's port is reported exactly when some emulator has a truthy port, and it is the first such port in key order |
| CypressFirebase.DetectFirebase | packages/firebase-cypress/src/utils/firebase.ts:16-32 | present iff the dependency root lists `firebase.json` and its emulators carry a truthy port; a failing dependency lookup throws |
| CypressFirebase.FirstFailure | packages/firebase-cypress/src/utils/firebase.ts:60-64 | the index of the first unsuccessful server result |
| CypressFirebase.StartFirebaseEmulators | packages/firebase-cypress/src/utils/firebase.ts:55-73 | the target is parsed first and a parse error is thrown; then the values yielded and how the generator ends (returns, throws the Cypress run's rejection, or waits forever on a run that never settles) are those of `EmulatorRun` |
| CypressFirebase.EmulatorRunResolved | packages/firebase-cypress/src/utils/firebase.ts:60-72 | when every Cypress run resolves, the generator returns after yielding exactly the reference yield sequence |
| CypressFirebase.EmulatorRunStops | packages/firebase-cypress/src/utils/firebase.ts:66-67 | when the Cypress run of the k-th successful server rejects or never settles, the generator yields the k outcomes before it and then throws that rejection or waits forever |
| CypressFirebase.EmulatorYieldsOnce | packages/firebase-cypress/src/utils/firebase.ts:61-71 | without watch one server result is consumed and one value yielded: the Cypress result, or false for a failed server |
| CypressFirebase.EmulatorYieldsWatch | packages/firebase-cypress/src/utils/firebase.ts:60-72 | with watch the Cypress results of the leading successful server results are yielded in order, then false for the first failure, which ends the run |
| CypressFirebase.Dedup | packages/firebase-cypress/src/utils/firebase.ts:106 | the same ports with each repeat removed |
| CypressFirebase.DedupDropsRepeats | packages/firebase-cypress/src/utils/firebase.ts:106 | a port occurring twice is freed once: the list gets shorter |
| CypressFirebase.PortsStep | packages/firebase-cypress/src/utils/firebase.ts:105-109 | one `forEach` step appends the next port unless it is falsy or already kept |
| CypressFirebase.PushPort | packages/firebase-cypress/src/utils/firebase.ts:105-109 | pushing the next entry's port (when truthy and not yet present) yields the deduplicated truthy ports of one more entry |
| CypressFirebase.GetPortsForEmulators | packages/firebase-cypress/src/utils/firebase.ts:97-112 | the truthy ports in key order with repeats removed (first kept); [] without emulators |
| CypressFirebase.PortsToFree | packages/firebase-cypress/src/utils/firebase.ts:97-112 | the ports to free are exactly the truthy ports, each once |
| CypressFirebase.KillAttemptsPrefix | packages/firebase-cypress/src/utils/firebase.ts:79-85 | kills are attempted in list order; every attempt but the last succeeded; all are attempted when none fails |
| CypressFirebase.TerminateEmulatorsIfStarted | packages/firebase-cypress/src/utils/firebase.ts:75-86 | the dependency lookup may throw; then the ports are freed in order until the first failure, which is caught |
| CypressFirebaseV2.FirstNumeric | packages/firebase-cypress/src/utils/firebase-v2.ts:42-47 | the first port that is truthy and not NaN; nothing exactly when there is none |
| CypressFirebaseV2.FirstNumericIsFirst | packages/firebase-cypress/src/utils/firebase-v2.ts:42-47 | the port found sits at a position before which every port is falsy or NaN |
| CypressFirebaseV2.GetFirstEmulatorPort | packages/firebase-cypress/src/utils/firebase-v2.ts:31-49 | nothing without a dependency or without its `firebase.json`; otherwise the loop breaks at the first truthy numeric port |
| CypressFirebaseV2.StartFirebaseServer | packages/firebase-cypress/src/utils/firebase-v2.ts:9-29 | nothing happens without a numeric port; a port whose `http://localhost:<port>` address `new URL` rejects makes the probe hang with nothing started; an answering port is reused; otherwise the emulators start in the dependency root, and the result is success if they answer in time or the 120-second rejection |
| CypressFirebaseV2.NumberAddressable | packages/firebase-cypress/src/utils/server.ts:3-13 | a number port gives a reachable probe address exactly when it lies in 0..65535 |
| CypressFirebaseV2.NumbersOutOfRange | packages/firebase-cypress/src/utils/firebase-v2.ts:43-46 | `70000` and `-1` pass the numeric test, yet their probe address is rejected |
| CypressFirebaseV2.SpacedDigitsUnaddressable | packages/firebase-cypress/src/utils/server.ts:3-13 | `" 4000"` passes the numeric test, yet `http://localhost: 4000` is rejected |
| CypressFirebaseV2.SpacedDigitsNumeric | packages/firebase-cypress/src/utils/firebase-v2.ts:43 | digits after a space convert to a number |
| CypressFirebaseV2.KillInOrder | packages/firebase-cypress/src/utils/firebase-v2.ts:72-74 | the ports are freed in order: either every port was freed, or the ports freed so far and the rejected port form a prefix of the list, each freed one accepted and the last refused |
| CypressFirebaseV2.TerminateFirebaseServer | packages/firebase-cypress/src/utils/firebase-v2.ts:70-75 | every yielded port is freed in order, repeats included; the first rejection propagates; a missing dependency throws |
| LegacyFirebase.DetectFirebase | firebase-cypress/src/utils/firebase.ts:7-39 | not present without a listed `firebase.json` or without a truthy emulator port; otherwise present with the first truthy port in key order and the dependency's root; a failing dependency lookup throws |
| LegacyFirebase.ProbeIsNotWait | firebase-cypress/src/utils/firebase.ts:53-79 | the probe's address (with a space after the colon) is never the address the wait polls |
| LegacyFirebase.ProbeNeverParses | firebase-cypress/src/utils/firebase.ts:51-58 | `new URL` rejects the probe's address for every port, because of the space after the colon |
| LegacyFirebase.StartFirebaseEmulators | firebase-cypress/src/utils/firebase.ts:41-58 | the probe's address is handed to `request` and rejected, so the call never settles: nothing is spawned and nothing is polled |
| LegacyFirebase.StartFirebaseEmulatorsIntended | firebase-cypress/src/utils/firebase.ts:41-49 | corrected (the probe uses the wait's address): a port `new URL` rejects never settles; otherwise emulators are spawned in `cwd` only when the probe fails, the wait always happens and a timeout throws, and a killer is returned only for spawned emulators |
| LegacyFirebase.IntendedSettlesForNumbers | firebase-cypress/src/utils/firebase.ts:51-58 | a port number parses in the corrected probe exactly when it lies in 0..65535, and never in the written one |
| LegacyFirebase.EmulatorKiller | firebase-cypress/src/utils/firebase.ts:69-75 | on Windows `taskkill /pid <pid> /f /t`, elsewhere SIGINT to the negated pid (the process group) |
| LegacyRunExecutor.FirstFixed | firebase-cypress/src/executors/run/executor.ts:44-50 | the first truthy port among the fixed emulator names, in the names' order; nothing when none has one |
| LegacyRunExecutor.ScanPort | firebase-cypress/src/executors/run/executor.ts:42-50 | the do-while ends with the first truthy port in the fixed order, whatever the keys' declaration order |
| LegacyRunExecutor.ScanNeverEnds | firebase-cypress/src/executors/run/executor.ts:45-50 | without a truthy port under the nine names or `undefined`, every step of the do-while, however late, finds no port, so the loop never exits |
| LegacyRunExecutor.EmptyEmulatorsSpin | firebase-cypress/src/executors/run/executor.ts:41-50 | an empty emulators object makes the scan spin for ever |
| LegacyRunExecutor.ScanPortBounded | firebase-cypress/src/executors/run/executor.ts:42-50 | the bounded scan always ends, with the first truthy port among the nine names in the fixed order, and with nothing exactly when none of them has one |
| LegacyRunExecutor.BoundedScanAgrees | firebase-cypress/src/executors/run/executor.ts:42-50 | wherever the bounded scan finds a port, the scan as written ends and picks the same port |
| LegacyRunExecutor.ScanEndsWithNamedPort | firebase-cypress/src/executors/run/executor.ts:44-50 | the scan ends when one of the nine names has a truthy port |
| LegacyRunExecutor.FixedOrderBeatsDeclaration | firebase-cypress/src/executors/run/executor.ts:44-50 | `hosting` declared before `auth` still loses to it |
| LegacyRunExecutor.PortUsesHttp | firebase-cypress/src/executors/run/executor.ts:88-93 | an address built from a port is polled with the http client |
| LegacyRunExecutor.EmulatorStepsOrder | firebase-cypress/src/executors/run/executor.ts:53-63 | the probe comes first; emulators start only when it fails; Cypress runs only when the port answered in time; the emulators are killed last, only when started here |
| LegacyRunExecutor.RunCypressWithEmulators | firebase-cypress/src/executors/run/executor.ts:37-69 | the steps are those of the scanned port; a wait timeout throws, otherwise the Cypress result is returned |
| LegacyRunExecutor.RunExecutor | firebase-cypress/src/executors/run/executor.ts:10-35 | a failing dependency lookup throws; without a listed `firebase.json` or without emulators Cypress runs alone with watch defaulting to false; otherwise the emulator steps run |
| FirebaseTargets.NormalizePluginOptions | packages/firebase/src/targets/index.ts:111-116 | the serve target name defaults to `serve-firebase` and `includeHosting` to false; provided values are kept |
| FirebaseTargets.ServeEmulators | packages/firebase/src/targets/index.ts:171-181 | exactly the keys that are settings with a truthy port and are not `hosting` |
| FirebaseTargets.GetEmulatorsFromConfig | packages/firebase/src/targets/index.ts:164-184 | the `forEach` pushes the keys to serve, in key order |
| FirebaseTargets.ServeEmulatorsExample | packages/firebase/src/targets/index.ts:171-181 | auth, database, hosting and a `ui` entry without a port give auth and database |
| FirebaseTargets.FirstServeKey | packages/firebase/src/targets/index.ts:207-211 | the first key whose lower-case form contains `serve`; nothing exactly when no key does |
| FirebaseTargets.BaseServeTargetOf | packages/firebase/src/targets/index.ts:186-215 | a non-empty `baseServeTarget` in `nx-firebase.json` wins; otherwise `project.json` must be readable and have targets (a read error or TypeError otherwise), and the target is `serve` if present, else the first key mentioning serve |
| FirebaseTargets.GetBaseServeTarget | packages/firebase/src/targets/index.ts:186-215 | the `forEach` that keeps its first match computes the same target |
| FirebaseTargets.FirebaseTargetsOf | packages/firebase/src/targets/index.ts:118-162 | nothing without emulators; otherwise exactly one target under the configured name, running the serve executor in the project root without parallelism, for the base serve target; it fails exactly when the base target cannot be found |
| FirebaseTargets.HelpNamesBaseProject | packages/firebase/src/targets/index.ts:133-153 | the help command names the base serve target's project, whatever follows its first ':' |
| FirebaseTargets.TargetsCache.CreateNodesInternal | packages/firebase/src/targets/index.ts:63-109 | without a `package.json` or `project.json` beside the file nothing is returned and the cache is untouched; otherwise the entry for the hash is always rebuilt and overwritten, and the project is keyed by the file's directory |
| NxFirebaseTargets.NormalizeOptions | packages/nx-firebase/src/target-generator/index.ts:145-149 | the target name defaults to `firebase-emulators`; a given name is kept |
| NxFirebaseTargets.BuildFirebaseTargets | packages/nx-firebase/src/target-generator/index.ts:108-143 | nothing exactly without emulators (the `?? true` never applies); otherwise exactly one parallel target running the emulators executor in the project root |
| NxFirebaseTargets.TargetsCache.CreateNodesInternal | packages/nx-firebase/src/target-generator/index.ts:61-106 | without a project file nothing is returned; otherwise `??=` builds the targets only when the hash has no entry, and the project gets the cached targets |
| CypressTargets.NormalizeOptions | packages/firebase-cypress/src/target-generator/index.ts:317-325 | each missing option (or a missing options object) gets its default: `e2e-ci`, `component`, `open-cypress`, `e2e`, `firebase-emulators`; provided names are kept |
| CypressTargets.Spread | packages/firebase-cypress/src/target-generator/index.ts:129-133 | a key the later spread object holds replaces the earlier one; a missing key or a missing object leaves it |
| CypressTargets.MergedPrecedence | packages/firebase-cypress/src/target-generator/index.ts:129-133 | the end-to-end environment overrides the global environment, which overrides the preset's own options |
| CypressTargets.GetProjectFromCommand | packages/firebase-cypress/src/target-generator/index.ts:407-416 | the project named is never holds a `:` |
| CypressTargets.ProjectOfRunCommand | packages/firebase-cypress/src/target-generator/index.ts:407-416 | a command ending in `<project>:<target>` names that project |
| CypressTargets.NoProjectAfterTrailingSpace | packages/firebase-cypress/src/target-generator/index.ts:407-412 | a command ending in a space names no project |
| CypressTargets.DependencyTarget | packages/firebase-cypress/src/target-generator/index.ts:135-136 | a dependency exists exactly when the project name is non-empty, and is `<project>:<emulatorTargetName>` |
| CypressTargets.DefaultWebServerCommand | packages/firebase-cypress/src/target-generator/index.ts:135 | the default command is read exactly when the e2e section, its preset options, their web server commands and a `default` entry all exist; a missing e2e section throws |
| CypressTargets.GetInputs | packages/firebase-cypress/src/target-generator/index.ts:327-338 | three inputs: `default`, `^production` (or `^default` without a production input) and the `cypress` external dependency |
| CypressTargets.OutputInsideProject | packages/firebase-cypress/src/target-generator/index.ts:346-351 | a folder inside the project is an output below `{projectRoot}` |
| CypressTargets.IntendedOutputInsideProject | packages/firebase-cypress/src/target-generator/index.ts:346-351 | the corrected output of a folder inside the project is unchanged |
| CypressTargets.ClimbingPath | packages/firebase-cypress/src/target-generator/index.ts:347 | a folder that climbs out of the project starts with `..` |
| CypressTargets.OutputAboveProject | packages/firebase-cypress/src/target-generator/index.ts:347-348 | as written, a folder above the project maps to the workspace root, the folder's tail shortened by the project depth, and the folder again |
| CypressTargets.IntendedOutputAboveProject | packages/firebase-cypress/src/target-generator/index.ts:347-348 | corrected, a folder above the project maps to that folder below the workspace root |
| CypressTargets.OutputAboveProjectWrong | packages/firebase-cypress/src/target-generator/index.ts:347-348 | a folder that descends deeper than the project lies gets a different output from the intended one |
| CypressTargets.FolderOutputs | packages/firebase-cypress/src/target-generator/index.ts:356-385 | at most one output per folder |
| CypressTargets.FolderOutputsExact | packages/firebase-cypress/src/target-generator/index.ts:356-385 | the outputs are exactly those of the truthy folders |
| CypressTargets.GetOutputs | packages/firebase-cypress/src/target-generator/index.ts:340-386 | the outputs of the global and the section's video and screenshot folders, in that order; a missing testing section throws |
| CypressTargets.BuildCypressOptions | packages/firebase-cypress/src/target-generator/index.ts:388-405 | succeeds exactly when the section and its preset options exist (and, outside CI, its web server commands); the dev server is the CI command in CI and the default command otherwise; base URL, config file and testing type are copied |
| CypressTargets.PutAllDistinct | packages/firebase-cypress/src/target-generator/index.ts:177-187 | with distinct names each configuration carries its own web server command |
| CypressTargets.Configurations | packages/firebase-cypress/src/target-generator/index.ts:177-187 | the loop over the web server commands builds one configuration per entry |
| CypressTargets.CiTargetNameInjective | packages/firebase-cypress/src/target-generator/index.ts:220 | two spec paths give the same CI target name only when they are equal |
| CypressTargets.SpecPaths | packages/firebase-cypress/src/target-generator/index.ts:219 | one relative spec path per spec file, each the file relative to the project root |
| CypressTargets.CiGroupNames | packages/firebase-cypress/src/target-generator/index.ts:215-222 | the CI group names every CI target in spec order |
| CypressTargets.CiDependsOnShape | packages/firebase-cypress/src/target-generator/index.ts:247-252 | the aggregate depends on each CI target (forwarding its parameters), each followed by the emulator target when there is one |
| CypressTargets.CiTargetsKeepOthers | packages/firebase-cypress/src/target-generator/index.ts:218-246 | a name that is no CI target name keeps what it held |
| CypressTargets.CiTargetFound | packages/firebase-cypress/src/target-generator/index.ts:218-246 | each spec's CI target runs that spec with the CI web server command, unless a later spec path is the same |
| CypressTargets.AddCiTargets | packages/firebase-cypress/src/target-generator/index.ts:218-253 | the loop over the spec files builds the CI targets, the group and the aggregate's dependencies given by their specification functions |
| CypressTargets.BuildCypressTargets | packages/firebase-cypress/src/target-generator/index.ts:119-315 | the targets built step by step are those of the specification |
| CypressTargets.ComponentOnlyRejected | packages/firebase-cypress/src/target-generator/index.ts:135 | a configuration without an `e2e` section throws before any target is built |
| CypressTargets.OpenTargetAlways | packages/firebase-cypress/src/target-generator/index.ts:298-312 | the open target is always present, runs in the project root, and depends on the emulator target exactly when the default command names a project |
| CypressTargets.CiGroupOrder | packages/firebase-cypress/src/target-generator/index.ts:190-275 | there is a CI group exactly when the CI web server command is truthy; it lists every spec's CI target in order and ends with the aggregate target |
| CypressTargets.TargetsCache.CreateNodesInternal | packages/firebase-cypress/src/target-generator/index.ts:72-117 | no project file next to the configuration: nothing reported and the cache unchanged; a cached hash is reused; otherwise the targets are built and cached, and a build that throws leaves the cache as it was |
| DevServer.Consumed | packages/firebase-cypress/src/utils/dev-server.ts:11-18 | the generator never consumes more server results than there are |
| DevServer.StartDevServer | packages/firebase-cypress/src/utils/dev-server.ts:6-19 | a command that does not parse throws before any server result is consumed; otherwise the values yielded and how the generator ends (returns, throws a Cypress rejection, or waits forever on a run that never settles) are those of `DevServerRun`, and when every Cypress run resolves the server results consumed are those of the specification |
| DevServer.DevServerRunResolved | packages/firebase-cypress/src/utils/dev-server.ts:11-18 | when every Cypress run resolves, the generator returns after yielding exactly the reference yield sequence |
| DevServer.DevServerRunThrows | packages/firebase-cypress/src/utils/dev-server.ts:12-13 | a successful first server whose Cypress run rejects makes the generator throw that rejection before yielding anything |
| DevServer.DevServerOnce | packages/firebase-cypress/src/utils/dev-server.ts:12-17 | without watch only the first server result is consumed: one Cypress result if it succeeded, none otherwise |
| DevServer.SuccessfulCons | packages/firebase-cypress/src/utils/dev-server.ts:12-14 | the reference sequence of successful runs is built one server result at a time |
| DevServer.DevServerWatch | packages/firebase-cypress/src/utils/dev-server.ts:11-18 | with watch, one Cypress result per successful server result, in order |
| DevServer.SuccessfulCount | packages/firebase-cypress/src/utils/dev-server.ts:12-14 | the number of Cypress results is the number of successful server results |
| E2eCi.ParseCommand | packages/firebase-cypress/src/executors/e2e-ci/executor.ts:17 | an undefined command throws when parsed; a defined one is parsed as a target string |
| E2eCi.Last | packages/firebase-cypress/src/executors/e2e-ci/executor.ts:11-22 | the last value yielded, and `undefined` exactly when nothing was yielded |
| E2eCi.LastYield | packages/firebase-cypress/src/executors/e2e-ci/executor.ts:13-19 | the loops that overwrite `result` on every yield end with the last value yielded |
| E2eCi.DevServerCommand | packages/firebase-cypress/src/executors/e2e-ci/executor.ts:17 | `webServerCommand` when set, `devServerTarget` otherwise |
| E2eCi.RunE2eCi | packages/firebase-cypress/src/executors/e2e-ci/executor.ts:6-23 | an error finding the Firebase project is thrown; otherwise the result is that of the emulator branch when Firebase is present and of the dev-server branch when it is not, and it throws what the generator throws and waits forever when the generator does |
| E2eCi.Finish | packages/firebase-cypress/src/executors/e2e-ci/executor.ts:13-22 | a generator that returns gives its last value, one that throws rejects the executor with the same failure, one that waits forever never settles the executor |
| E2eCi.CypressRunDecides | packages/firebase-cypress/src/executors/e2e-ci/executor.ts:12-15 | under the emulators a first Cypress run that never settles leaves the executor unsettled and one that rejects rejects it with the same failure |
| E2eCi.FirstServerFails | packages/firebase-cypress/src/executors/e2e-ci/executor.ts:12-20 | a first server result that fails without watch ends with `{success: false}` under the emulators and `undefined` under the dev server |
| E2eCi.WatchedDevServerResult | packages/firebase-cypress/src/executors/e2e-ci/executor.ts:17-20 | with watch and every Cypress run resolving, the dev-server branch returns the Cypress outcome of the last successful server result, `undefined` when none succeeded |
| E2eCi.NoDevServerCommand | packages/firebase-cypress/src/executors/e2e-ci/executor.ts:17 | with neither command set the dev-server branch throws |
| CypressVersion.ToNumber | packages/firebase-cypress/src/utils/cypress-version.ts:22 | `+major` of decimal digits is their number, and is NaN exactly when the string is no number |
| CypressVersion.TrimmedDigitsNumeric | packages/firebase-cypress/src/utils/cypress-version.ts:22 | digits with surrounding white space are a number |
| CypressVersion.VersionOf | packages/firebase-cypress/src/utils/cypress-version.ts:13-22 | no package: `null`; a package without a version throws on `split`; an empty major is 0; otherwise the major's number |
| CypressVersion.CallResults | packages/firebase-cypress/src/utils/cypress-version.ts:1-24 | one result per call |
| CypressVersion.CypressVersionCache.constructor | packages/firebase-cypress/src/utils/cypress-version.ts:1-2 | the module starts unloaded with no package |
| CypressVersion.CypressVersionCache.InstalledCypressVersion | packages/firebase-cypress/src/utils/cypress-version.ts:4-24 | once loaded a call returns `undefined` and changes nothing; before that a failed `require` returns `null` and stays unloaded, and a successful one loads the package and returns its version |
| CypressVersion.RetriesUntilLoaded | packages/firebase-cypress/src/utils/cypress-version.ts:5-15 | every call before the first successful `require` returns `null`, and the first successful one returns the version |
| CypressVersion.LoadedAnswersUndefined | packages/firebase-cypress/src/utils/cypress-version.ts:5-24 | once loaded, every call returns `undefined` |
| CypressVersion.LaterCallsUndefined | packages/firebase-cypress/src/utils/cypress-version.ts:5-24 | as written, no call after the first successful load reports the version |
| CypressVersion.FreshUntil | packages/firebase-cypress/src/utils/cypress-version.ts:5-11 | the calls before the first successful load leave the module unloaded; that load switches it to loaded |
| CypressVersion.SecondCallLosesVersion | packages/firebase-cypress/src/utils/cypress-version.ts:4-24 | a Cypress 13 package asked for twice: 13, then `undefined`, which is not at least 10 |
| CypressVersion.CallResultsIntended | packages/firebase-cypress/src/utils/cypress-version.ts:1-24 | corrected: one result per call |
| CypressVersion.IntendedCallsKeepVersion | packages/firebase-cypress/src/utils/cypress-version.ts:1-24 | corrected: every call from the first successful load on returns that package's version |
| CypressVersion.LoadedKeepsVersion | packages/firebase-cypress/src/utils/cypress-version.ts:1-24 | corrected: a loaded module returns the loaded version on every call |
| CypressRunner.TestingTypeKey | packages/firebase-cypress/src/utils/run-cypress.ts:74 | the key `options.config[testingType]` writes: `e2e`, `component`, or `undefined` when no testing type is given |
| CypressRunner.LaunchOf | packages/firebase-cypress/src/utils/run-cypress.ts:99 | Cypress is opened exactly when `watch` is true, and run otherwise |
| CypressRunner.Success | packages/firebase-cypress/src/utils/run-cypress.ts:114 | success exactly when neither `totalFailed` nor `failures` is truthy; a result of nothing throws |
| CypressRunner.BuildIdString | packages/firebase-cypress/src/utils/run-cypress.ts:69 | a build id string exactly when a build id is given |
| CypressRunner.IfTruthy | packages/firebase-cypress/src/utils/run-cypress.ts:42-83 | a string option is copied exactly when it is non-empty |
| RunCypress.BuildCypressOptions | packages/firebase-cypress/src/utils/run-cypress.ts:30-97 | project and config file from the configuration path; browser, spec, reporter, reporter options, headless and quiet only when truthy; the remaining fields copied; the base URL under `config`; from Cypress 10 on the ignored files under `config[testingType]`, before it as `ignoreTestFiles` |
| RunCypress.DigitOf | packages/firebase-cypress/src/utils/run-cypress.ts:121 | digit values never exceed the largest radix |
| RunCypress.RadixRun | packages/firebase-cypress/src/utils/run-cypress.ts:121 | the longest leading run of digits of the radix |
| RunCypress.DecimalRadixValue | packages/firebase-cypress/src/utils/run-cypress.ts:121 | decimal digits parse to the number they spell |
| RunCypress.ParseIntDigits | packages/firebase-cypress/src/utils/run-cypress.ts:121 | `parseInt` of digits followed by a non-digit is the number of the digits |
| RunCypress.ParseIntDecimal | packages/firebase-cypress/src/utils/run-cypress.ts:121 | `parseInt` of a string starting with a decimal digit, without a `0x` prefix, reads its leading decimal digits |
| RunCypress.RunOfDigits | packages/firebase-cypress/src/utils/run-cypress.ts:121 | the run of digits ends where the digits end |
| RunCypress.PortOfUrlDigits | packages/firebase-cypress/src/utils/run-cypress.ts:120-121 | `http://host:4200` and `http://host:4200/path` name port 4200 |
| RunCypress.CloseWebServer | packages/firebase-cypress/src/utils/run-cypress.ts:117-128 | never settles for an undefined URL or one `request` cannot reach; settles with nothing killed exactly when a reachable URL refuses the request; a port is killed only when the server answered, the kill succeeded and the port is the URL's non-zero port |
| RunCypress.RunCypressInternal | packages/firebase-cypress/src/utils/run-cypress.ts:12-115 | Cypress opens or runs as `watch` says; without a base URL, before Cypress 10 the read of `config.baseUrl` throws and from 10 on the promise never settles; with one, the outcome is Cypress's success once the server is closed |
| LegacyRunCypress.BuildCypressOptions | firebase-cypress/src/utils/run-cypress.ts:25-90 | the same fields as the newer runner, except that `testingType` is assigned even when `undefined` |
| LegacyRunCypress.RunCypressInternal | firebase-cypress/src/utils/run-cypress.ts:13-109 | Cypress opens or runs as `watch` says, and its result alone decides success |
| LegacyRunCypress.CompareRunners | firebase-cypress/src/utils/run-cypress.ts:25-90 | the older and newer option objects agree except on `testingType`, which differs exactly when it is `undefined` |
| CypressPreset.ConfigDirectory | packages/firebase-cypress/src/cypress-preset/index.ts:31-33 | the configuration path itself when it is a directory, its directory otherwise |
| CypressPreset.NxBaseCypressPreset | packages/firebase-cypress/src/cypress-preset/index.ts:24-50 | web security is off; the component flag is `true` exactly for component testing; videos and screenshots go to the output folder of the configuration's directory |
| CypressPreset.RelativeAbove | packages/firebase-cypress/src/cypress-preset/index.ts:35 | a project directory below the workspace root sees the root one `..` per level |
| CypressPreset.NormalizeUps | packages/firebase-cypress/src/cypress-preset/index.ts:36 | `..` segments survive the normalisation of a relative path |
| CypressPreset.JoinFragments | packages/firebase-cypress/src/cypress-preset/index.ts:36 | joining the five fragments spells the joined segments |
| CypressPreset.OutputFolderBelowRoot | packages/firebase-cypress/src/cypress-preset/index.ts:34-43 | the output folder climbs one `..` per project level and descends into `dist/cypress/<project path>/<leaf>` |
| CypressPreset.PathJoinClimb | packages/firebase-cypress/src/cypress-preset/index.ts:36 | `path.join` keeps every segment of a climbing relative path |
| CypressPreset.VideosOfConfigFile | packages/firebase-cypress/src/cypress-preset/index.ts:24-50 | a configuration file in the project puts the videos under `dist/cypress/<project path>/videos` of the workspace |
| CypressPreset.BasePath | packages/firebase-cypress/src/cypress-preset/index.ts:56 | `cypressDir` when non-empty, `src` otherwise; never empty |
| CypressPreset.PluginOptionsOf | packages/firebase-cypress/src/cypress-preset/index.ts:65-69 | the commands and the CI command are copied; the single command is the `default` command, present exactly when there is one |
| CypressPreset.NxE2EPreset | packages/firebase-cypress/src/cypress-preset/index.ts:52-79 | the base preset for end-to-end testing, the file server at `.`, the support file, spec pattern and fixtures under the base path, and the plugin options |
| CypressPreset.PresetFeedsTargetGenerator | packages/firebase-cypress/src/cypress-preset/index.ts:65-69 | the `default` command the preset records is the one the target generator reads back |
| LegacyCypressPreset.ResolvedCommands | firebase-cypress/src/cypress-preset/index.ts:81 | the `env` commands when given, else the preset's; with neither `env` commands nor options the read throws |
| LegacyCypressPreset.ResolvedCommand | firebase-cypress/src/cypress-preset/index.ts:82 | the `env` command when given, else the `default` of the resolved commands |
| LegacyCypressPreset.ReuseExisting | firebase-cypress/src/cypress-preset/index.ts:98-102 | a running server is reused unless `reuseExistingServer` is explicitly false |
| LegacyCypressPreset.TimeoutDuration | firebase-cypress/src/cypress-preset/index.ts:128 | the configured timeout, else 120000 milliseconds |
| LegacyCypressPreset.WebServerKiller | firebase-cypress/src/cypress-preset/index.ts:52-58 | `taskkill /pid <pid> /f /t` on Windows, SIGKILL to the process group elsewhere |
| LegacyCypressPreset.KillersDiffer | firebase-cypress/src/cypress-preset/index.ts:52-58 | the web-server killer matches the emulator killer on Windows and differs from it only in the signal elsewhere |
| LegacyCypressPreset.SetupNodeEvents | firebase-cypress/src/cypress-preset/index.ts:80-115 | a read that throws is reported; without preset commands, a command or a base URL nothing happens; a base URL that `request` cannot reach (not an http or https address `new URL` accepts) makes the probe hang with nothing started; a running server is reused or refused; otherwise the command is started, its killer registered after the run, and the wait decides the outcome |
| LegacyCypressPreset.EnvCommandsAloneSkip | firebase-cypress/src/cypress-preset/index.ts:81-90 | commands only in `env`, with no preset options, never start a server |
| LegacyCypressPreset.EnvCommandsWin | firebase-cypress/src/cypress-preset/index.ts:81-82 | commands in `env` take precedence over the preset's: their `default` is started |
| NxTree.Generate | packages/firebase-cypress/src/generators/config/generator.ts:156-161 | `generateFiles` adds the template's files below the destination and records the call; projects and configuration writes are untouched |
| NxTree.AddProject | packages/firebase-cypress/src/generators/config/generator.ts:130 | `addProjectConfiguration` adds `<root>/project.json` and the configuration under its name; every other name keeps its configuration |
| NxTree.WriteConfig | packages/firebase-cypress/src/generators/config/generator.ts:278 | writing the Cypress configuration adds its path and records the write, nothing else |
| NxTree.Tree.constructor | packages/firebase-cypress/src/generators/config/generator.ts:32-35 | a tree holding the given files and projects, with nothing generated or rewritten yet |
| NxTree.Tree.GenerateFiles | packages/firebase-cypress/src/generators/config/generator.ts:156-161 | the tree's new state is that of `Generate` |
| NxTree.Tree.AddProjectConfiguration | packages/firebase-cypress/src/generators/config/generator.ts:130 | the tree's new state is that of `AddProject` |
| NxTree.Tree.WriteE2eConfig | packages/firebase-cypress/src/generators/config/generator.ts:278 | the tree's new state is that of `WriteConfig` |
| ConfigGenerator.CommaToSpace | packages/firebase-cypress/src/generators/config/generator.ts:41 | same length; each comma becomes a space and every other character stays |
| ConfigGenerator.SplitProjects | packages/firebase-cypress/src/generators/config/generator.ts:41 | at least one piece, none holding a space or a comma |
| ConfigGenerator.SplitProjectsJoin | packages/firebase-cypress/src/generators/config/generator.ts:41 | the pieces joined by spaces give back the text with its commas read as spaces |
| ConfigGenerator.SplitProjectsCommaList | packages/firebase-cypress/src/generators/config/generator.ts:41 | names listed with commas come back as listed |
| ConfigGenerator.TargetProjects | packages/firebase-cypress/src/generators/config/generator.ts:36-41 | a missing or empty `projects` throws `Projects must be provided`; an array is taken as is; a string is split on spaces and commas |
| ConfigGenerator.ResolveProjects | packages/firebase-cypress/src/generators/config/generator.ts:46-54 | every name's configuration in order, or the error naming the first name the graph does not know |
| ConfigGenerator.SeparatorCount | packages/firebase-cypress/src/generators/config/generator.ts:79 | never more separators than characters |
| ConfigGenerator.SeparatorCountJoin | packages/firebase-cypress/src/generators/config/generator.ts:79 | a directory of n plain segments holds n-1 separators |
| ConfigGenerator.ClimbOutOfDirectory | packages/firebase-cypress/src/generators/config/generator.ts:79-83 | the offset is one `..` per directory segment and leads back to the project root |
| ConfigGenerator.NormalizeOptions | packages/firebase-cypress/src/generators/config/generator.ts:68-92 | directory `src`, JavaScript off, bundler `webpack` and base URL `http://localhost:4200` by default; `jsx` follows `js`; the offset climbs out of the directory; `hasTsConfig` is whether the project has `tsconfig.json` |
| ConfigGenerator.NewProject | packages/firebase-cypress/src/generators/config/generator.ts:117-129 | the `<name>-e2e` application below the apps directory, with source root `src`, depending on the project |
| ConfigGenerator.NewProjectRoot | packages/firebase-cypress/src/generators/config/generator.ts:117 | with a plain apps directory the new project sits right below it |
| ConfigGenerator.ConfigTemplate | packages/firebase-cypress/src/generators/config/generator.ts:163-186 | `config-ts` for TypeScript, `config-js-esm` or `config-js-cjs` for JavaScript as the project is ESM or not |
| ConfigGenerator.IsEsmProject | packages/firebase-cypress/src/generators/config/generator.ts:189-201 | the project's `package.json`, else the workspace's, decides whether `type` is `module`; reading a missing workspace `package.json` throws |
| ConfigGenerator.FilesToUse | packages/firebase-cypress/src/generators/config/generator.ts:217 | the `v9` files exactly for a truthy version below 10 |
| ConfigGenerator.WebServerCommands | packages/firebase-cypress/src/generators/config/generator.ts:253-262 | `default` serves the project; `production` serves its production configuration exactly when it has one; no other key |
| ConfigGenerator.CiWebServerCommand | packages/firebase-cypress/src/generators/config/generator.ts:264-266 | `nx run <name>:serve-static` exactly when the project has that target |
| ConfigGenerator.CreateInitialCypressConfig | packages/firebase-cypress/src/generators/config/generator.ts:140-187 | the tree and the error are those of the specification function: the common files, then the configuration template |
| ConfigGenerator.InjectConfiguration | packages/firebase-cypress/src/generators/config/generator.ts:203-280 | the tree, the error and the version cache are those of the specification function |
| ConfigGenerator.GenerateFilesForSelectedProject | packages/firebase-cypress/src/generators/config/generator.ts:95-134 | the tree, the outcome and the version cache are those of the specification function |
| ConfigGenerator.Run | packages/firebase-cypress/src/generators/config/generator.ts:32-61 | the tree, the error and the version cache after the generator are those of the specification function |
| ConfigGenerator.GenerateFilesForSelectedProjects | packages/firebase-cypress/src/generators/config/generator.ts:56-60 | every selected project is generated in turn on the shared tree and version cache, and the first error is the one reported |
| ConfigGenerator.UnknownProjectChangesNothing | packages/firebase-cypress/src/generators/config/generator.ts:46-54 | an unknown project name throws before anything is changed |
| ConfigGenerator.SkippedProjects | packages/firebase-cypress/src/generators/config/generator.ts:100-116 | a project without `firebase.json` or without a name is skipped with nothing changed |
| ConfigGenerator.ExistingRootFails | packages/firebase-cypress/src/generators/config/generator.ts:117-122 | for any project with `firebase.json` and a name, an existing `<appsDir>/<name>-e2e` directory is reported as already existing, with the tree, the load flag and the package file unchanged |
| ConfigGenerator.ExistingDirectoryFails | packages/firebase-cypress/src/generators/config/generator.ts:117-122 | an existing `apps/test-e2e` is reported as already existing, with nothing changed |
| ConfigGenerator.FreshDirectoryHasNoFile | packages/firebase-cypress/src/generators/config/generator.ts:130-131 | a fresh directory holds no file but the one just added to it |
| ConfigGenerator.NewProjectHasNoTsConfig | packages/firebase-cypress/src/generators/config/generator.ts:85-150 | the new project never has `tsconfig.json` when options are normalised, so the initial templates always get an empty offset |
| ConfigGenerator.NoTsConfigAfterAdd | packages/firebase-cypress/src/generators/config/generator.ts:85-131 | adding the new project's configuration adds no `tsconfig.json` |
| ConfigGenerator.NoServeTargetNoCypressFiles | packages/firebase-cypress/src/generators/config/generator.ts:209-215 | without a `serve` target nothing is written and the version is not looked up |
| ConfigGenerator.DefaultCommandNamesProject | packages/firebase-cypress/src/generators/config/generator.ts:255-259 | the default command written is the one the preset records, and the target generator reads the source project back from it |
| ConfigGenerator.SecondProjectGetsV10 | packages/firebase-cypress/src/generators/config/generator.ts:216-217 | with Cypress 9, the first project gets the `v9` files and the second the `v10` files |
| ConfigGenerator.IntendedCacheKeepsV9 | packages/firebase-cypress/src/generators/config/generator.ts:216-217 | with the corrected version cache every project gets the `v9` files |
| AddNxFirebaseJson.AllProjectsMigrated | packages/firebase/src/migrations/add-nx-firebase-json/add-nx-firebase-json.ts:25-48 | true exactly when every application with `firebase.json` has `nx-firebase.json`; when false, some project is not migrated |
| AddNxFirebaseJson.ServeTargetOf | packages/firebase/src/migrations/add-nx-firebase-json/add-nx-firebase-json.ts:67-74 | `serve` exactly when the project has it; otherwise the first target whose lower-case name contains `serve`, none when no target does, and a `TypeError` when the project has no targets |
| AddNxFirebaseJson.ConfigureOne | packages/firebase/src/migrations/add-nx-firebase-json/add-nx-firebase-json.ts:53-81 | a migrated project is left alone, and an entry that throws changes nothing |
| AddNxFirebaseJson.ConfigureProjects | packages/firebase/src/migrations/add-nx-firebase-json/add-nx-firebase-json.ts:50-83 | the error and the tree after the `forEach` are those of the specification function |
| AddNxFirebaseJson.Update | packages/firebase/src/migrations/add-nx-firebase-json/add-nx-firebase-json.ts:12-21 | the error and the tree after the migration are those of the specification function |
| AddNxFirebaseJson.MigratedConfigureNothing | packages/firebase/src/migrations/add-nx-firebase-json/add-nx-firebase-json.ts:15-19 | when every project is migrated, configuring would change nothing either |
| AddNxFirebaseJson.UpdateIsConfigure | packages/firebase/src/migrations/add-nx-firebase-json/add-nx-firebase-json.ts:12-21 | the early return does not change the outcome: the migration is the configuration pass |
| AddNxFirebaseJson.ExistsGrows | packages/firebase/src/migrations/add-nx-firebase-json/add-nx-firebase-json.ts:63 | a path that exists stays when files are only added |
| AddNxFirebaseJson.ConfigureOnlyAdds | packages/firebase/src/migrations/add-nx-firebase-json/add-nx-firebase-json.ts:50-83 | the migration only adds files and template calls; configurations and earlier template calls are kept |
| AddNxFirebaseJson.GenerationsTargetServe | packages/firebase/src/migrations/add-nx-firebase-json/add-nx-firebase-json.ts:76-81 | every template call made is the `files` template into an application's root with its name and a target mentioning `serve` |
| AddNxFirebaseJson.FirstGeneration | packages/firebase/src/migrations/add-nx-firebase-json/add-nx-firebase-json.ts:53-81 | one entry adds at most the one template call of its application |
| AddNxFirebaseJson.ConfigureWritesNxFirebase | packages/firebase/src/migrations/add-nx-firebase-json/add-nx-firebase-json.ts:50-83 | when the template writes `nx-firebase.json`, a migration that does not throw leaves every application with `firebase.json` and a serve-like target migrated |
| DistPaths.Segments | scripts/process-executors-and-generators.js:13 | at least one segment, none holding `/` |
| DistPaths.InsertedSegments | scripts/process-executors-and-generators.js:14-18 | one more segment: the first, then `dist`, then the rest in order |
| DistPaths.WithoutDist | scripts/revert-executors-and-generators.js:9 | every segment other than `dist`, in order; unchanged exactly when there is no `dist` |
| DistPaths.WithoutDistAppend | scripts/revert-executors-and-generators.js:9 | filtering distributes over concatenation |
| DistPaths.InsertDistSegments | scripts/process-executors-and-generators.js:13-19 | the processed path's segments are the original's with `dist` in second place |
| DistPaths.InsertDistThreeSegments | scripts/process-executors-and-generators.js:13-19 | `a/b/c` becomes `a/dist/b/c` |
| DistPaths.InsertDistOneSegment | scripts/process-executors-and-generators.js:13-19 | `x` becomes `x/dist` |
| DistPaths.RemoveDistSegments | scripts/revert-executors-and-generators.js:9 | the reverted path keeps every segment but `dist`, in order |
| DistPaths.RemoveDistIdempotent | scripts/revert-executors-and-generators.js:9 | reverting twice is reverting once |
| DistPaths.RemoveAfterInsert | scripts/process-executors-and-generators.js:13-19 | reverting a processed path is reverting the path itself |
| DistPaths.RemoveDistFixes | scripts/revert-executors-and-generators.js:9 | reverting leaves a path unchanged exactly when it has no `dist` segment |
| DistPaths.RevertProcessRoundTrip | scripts/process-executors-and-generators.js:13-19 | reverting a processed path gives it back exactly when it had no `dist` segment |
| DistPaths.MapExecutors | scripts/process-executors-and-generators.js:11-29 | every executor keeps its key and place, and its entry is rewritten |
| DistPaths.MapGenerators | scripts/process-executors-and-generators.js:35-54 | every generator keeps its key and place, and its entry is rewritten |
| DistPaths.Rewrite | scripts/process-executors-and-generators.js:7-57 | a missing map throws before its file is written, and a throw on `executors.json` leaves `generators.json` alone; missing files stay missing |
| DistPaths.PluginManifests.constructor | scripts/process-executors-and-generators.js:9-34 | the manifests as read from disk |
| DistPaths.PluginManifests.ProcessExecutorsAndGenerators | scripts/process-executors-and-generators.js:7-57 | the error and the manifests after processing are those of the specification function |
| DistPaths.PluginManifests.RevertExecutorsAndGenerators | scripts/revert-executors-and-generators.js:5-23 | the error and the manifests after reverting are those of the specification function |
| DistPaths.RewriteKeepsKeys | scripts/process-executors-and-generators.js:11-35 | both scripts keep the keys of both maps, in order |
| DistPaths.RevertAfterProcess | scripts/process-executors-and-generators.js:7-57 | reverting processed manifests gives them back when no path had a `dist` segment |
| DistPaths.RevertIdempotent | scripts/revert-executors-and-generators.js:5-23 | reverting twice is reverting once |
| GitLog.GitRange | scripts/get-new-version-number.ts:8-13 | `to` alone when `from` is missing, empty or equal to `to`; `from..to` otherwise |
| GitLog.GitLogArgs | scripts/get-new-version-number.ts:15-21 | five arguments, the range third |
| GitLog.ParseRecord | scripts/get-new-version-number.ts:27-34 | the subject read from a record holds neither a line break nor a vertical bar |
| GitLog.GetGitDiff | scripts/get-new-version-number.ts:23-25 | one commit per chunk after the first separator |
| GitLog.RecordRoundTrip | scripts/get-new-version-number.ts:27-34 | a well-formed commit's record is read back as that commit |
| GitLog.ChunksOfLog | scripts/get-new-version-number.ts:24 | the log splits into an empty chunk, then one record per commit |
| GitLog.LogRoundTrip | scripts/get-new-version-number.ts:23-36 | the log of well-formed commits whose records hold no separator is read back as those commits, in order |
| GitLog.DescriptionAt | scripts/get-new-version-number.ts:70 | `: ` followed by the rest of the line, at least one character |
| GitLog.TailAt | scripts/get-new-version-number.ts:70 | the optional `!` is tried first, then the description |
| GitLog.ScopeSearch | scripts/get-new-version-number.ts:70 | the greedy scope ends at a `)` followed by a tail, within the lengths tried |
| GitLog.ParseConventional | scripts/get-new-version-number.ts:63-81 | a subject without a colon never matches |
| GitLog.MatchAtSound | scripts/get-new-version-number.ts:70 | a match at a position has the pattern's shape there |
| GitLog.ParseSound | scripts/get-new-version-number.ts:63-81 | a match is found only where the text has the pattern's shape |
| GitLog.DescriptionAtEnd | scripts/get-new-version-number.ts:70 | `: d` at the end of the text gives the description `d` |
| GitLog.PlainHeader | scripts/get-new-version-number.ts:63-81 | `type: d` and `type!: d` give that type and description, no scope, breaking exactly with `!` |
| GitLog.ScopedHeader | scripts/get-new-version-number.ts:63-81 | `type(scope): d` gives that scope when the description holds no `)` |
| GitLog.ScopeSearchSkips | scripts/get-new-version-number.ts:70 | the greedy scope passes over lengths that do not end at a `)` |
| GitLog.GreedyScope | scripts/get-new-version-number.ts:70 | `fix(a): b): c` has the scope `a): b` |
| GitLog.IssueAt | scripts/get-new-version-number.ts:55 | `#` and every digit after it, at least one |
| GitLog.PullRequestAt | scripts/get-new-version-number.ts:51 | `(`, spaces and lower-case letters, an issue reference, spaces, then `)`; its value is the issue reference |
| GitLog.IssueRefsComplete | scripts/get-new-version-number.ts:55 | the issue scan finds every `#` followed by a digit |
| GitLog.PullRequestRefsAreIssues | scripts/get-new-version-number.ts:51 | every pull-request reference is the issue reference at some `#` |
| GitLog.PullRequestsAreIssues | scripts/get-new-version-number.ts:51-59 | every pull-request reference is found again by the issue scan |
| GitLog.AddIssues | scripts/get-new-version-number.ts:55-59 | the earlier references stay first; each issue value is present afterwards; only issues are added, and never a value already present |
| GitLog.ParseResultOf | scripts/get-new-version-number.ts:39-61 | `null` exactly when the subject is no Conventional Commits header |
| GitLog.ParseGitCommit | scripts/get-new-version-number.ts:39-61 | the result is `null` or `undefined` as `ParseResultOf` says; the references it builds are the pull requests, the new issues and the hash |
| GitLog.NoCommitSurvives | scripts/get-new-version-number.ts:39-86 | as written, the filter keeps no commit |
| GitLog.ParseGitCommitIntended | scripts/get-new-version-number.ts:39-61 | corrected: a commit exactly when the subject is a header, carrying the raw commit and its description |
| GitLog.ConventionalCommitsKept | scripts/get-new-version-number.ts:83-86 | corrected: exactly the commits with a header are kept, in order |
| GitLog.Conventionals | scripts/get-new-version-number.ts:83-86 | the commits whose subject is a header |
| Urls.NumberPortParses | packages/firebase/src/utils/request.ts:11 | a rendered port number is accepted by `new URL` exactly when it lies in 0..65535 |
| Urls.SpacedPortRejected | firebase-cypress/src/utils/request.ts:6 | a port text starting with a space is rejected by `new URL` |
| Urls.UndefinedRejected | packages/firebase/src/utils/request.ts:11 | `undefined` is not a port `new URL` accepts |
| Urls.LocalhostAddress | packages/firebase-cypress/src/utils/request.ts:10 | `http://localhost:<t>` reaches the network exactly when its port text parses |
| Urls.SchemelessRejected | firebase-cypress/src/utils/request.ts:6-10 | `localhost:4200` never reaches the network: its scheme is not http or https |

## Left out

- Process spawning, process-tree killing, signals, `killPort`'s shell commands, pseudo terminals and the module-level child-process set: each appears only as the step recorded or as a boolean outcome.
- HTTP probing, polling and timers (`request`, `isServerUp`, `waitForServer`): for an address that `request` can send to, a probe is a boolean and a wait is whether the server answered in time. Whether it can send is decided from the address text (`Urls.Requestable`, `Urls.PortTextParses`). Where it cannot, the promise never settles and nothing after the probe happens.
- Urls.Requestable: only lower-case `http://` and `https://` addresses whose host is made of ASCII letters, digits, `-` and `.` count as reachable. An upper-case scheme, missing or extra slashes, credentials, bracketed IPv6 hosts and percent-encoded or non-ASCII hosts count as unreachable, though `new URL` accepts them. A dotted host whose last part is an out-of-range IPv4 number (such as `999.1.1.1`) counts as reachable, though `new URL` rejects it.
- The unhandled rejection of `request`'s promise after `new URL` rejects an address: under Node's default mode it ends the process. The model gives the outcome of the promises the plugins await: a probe that never settles, or a wait that only times out.
- Urls.PortTextParses: the URL parser's removal of tabs, newlines and surrounding white space before it reads is not modelled, so a string port holding them counts as rejected.
- LegacyRunExecutor.RunCypressWithEmulators: its addresses are `http://127.0.0.1:<port>` without the space, and the model assumes `new URL` accepts them. A port that is negative, above 65535 or not made of digits is not modelled there.
- `packages/firebase-cypress/src/utils/kill-port.ts`: it scrapes `lsof`/`netstat` output; only whether it succeeds is a parameter.
- yargs-parser, `parseArgs`, dotenv and npm-run-path merging in killable-run: the parsed arguments, the caller's own unknown options and whether `__unparsed__` sets `readyWhenStatus` are inputs; `unknownOptions` is built from them.
- Console output, loggers, colouring and `process.env` writes.
- Nx devkit internals: `calculateHashForCreateNodes` and `hashObject` (the hash is a parameter), `loadConfigFile` (the configuration is a parameter), `globWithWorkspaceContext` (the spec files are a parameter), `getNamedInputs` (only whether a `production` input exists), `createProjectGraphAsync` (the projects are a parameter), and reading and writing the targets cache file (the cache is the class's map).
- Templates: what `generateFiles` writes is a function from template and destination to paths. The template variables other than strings (`offsetFromRoot`, `tsConfigPath`, booleans) are not modelled.
- `addDefaultE2eConfig` (an AST rewrite): only its arguments are recorded. `tree.read`, `formatFiles`, `installPackagesTask` and the checks inside `addProjectConfiguration` are left out too.
- `viteConfigOverrides` and the `bundler` branches that do nothing.
- `firebase-cypress/src/utils/cypress-version.ts` is not part of this model: the older runner takes the installed version as a parameter.
- JavaScript objects keep their key order as written. The reordering of integer-like keys by `Object.keys` is not modelled, and record keys are assumed distinct where a lemma says so.
- Numbers: ports are decimal integers or strings. NaN, floating point and exponent forms of `+s` are not modelled beyond the string cases that are. `parseInt` is modelled for decimal and `0x` prefixes only.
- CypressVersion.ToNumber: a major written with a sign, a fraction, an exponent or a base prefix (`+9`, `-9`, `0x9`, `0b1`, `0o7`, `1e1`, `9.0`, `.5`, `Infinity`) is recognised as numeric, but its value is not computed (`OtherNumeric`). So `ConfigGenerator.FilesToUse` gives the `v10` files for it even where JavaScript's `+major` is truthy and below 10 and the source picks `v9`.
- `toLowerCase` covers ASCII letters only.
- Manifest entries are assumed to have their path fields. A missing map is modelled as the `TypeError` it causes, and a missing `implementation`, `schema` or `factory` is not.
- `git` output is a parameter of the version script; `execCommand` is not modelled.
- `Promise.all` in the config generator: the projects are processed one after another, and the first error is the one reported.
- LegacyRunExecutor.ScanPort: requires that one of the scanned keys has a truthy port, because otherwise the source's do-while never ends (see Findings).
- ConfigGenerator.ResolveProjects: looks a name up among the graph's own keys only; in the source `projects[name]` also finds members every object inherits (a project named `toString` or `constructor`), which the model does not reproduce.
- ProjectGraph.GetE2EProjectDependency: looks the dependency up among the graph's own keys only, so a dependency named after an inherited object member (`toString`) finds nothing here while the source finds that member.
- CypressPreset.ConfigDirectory: the file system is an input that always answers; `lstatSync` throwing for a path that does not exist is not modelled, and neither is `readdirSync` throwing for a missing project directory behind ProjectGraph.ValidateFirebaseProject and the target generators.
- LegacyRunExecutor.RunExecutor: carries the same precondition whenever the emulators object is present.
- The unfinished init generators, the open executor and `open-cypress.ts` (constant success) and the `run` executor of the newer Cypress package (it calls helpers with arguments they do not take) are not modelled.
- `packages/firebase-cypress/src/utils/config.ts` is not modelled, and neither are the `publish` script, test doubles and configuration files.

## Findings

None of these were executed; each is read off the source and exhibited by a lemma.

| source | as written | input that shows it | evidently intended | confidence | as-written member | corrected member |
|---|---|---|---|---|---|---|
| packages/nx-firebase/src/executors/emulators/executor.ts:62-66 | `inspectFunctions` pushes the port only when it is a number, because the logical and binds tighter than the logical or | `inspectFunctions: "9229"` (a string port) | the port follows the flag whenever it is a string or a number | not executed | EmulatorsExecutor.InspectFunctionsArgs | EmulatorsExecutor.InspectFunctionsArgsIntended |
| packages/nx-firebase/src/executors/emulators/executor.ts:79-83 | the validation gates only the `--log-verbosity` flag, so the level is pushed even when it is invalid | `logVerbosity: "LOUD"` | an invalid level is rejected | not executed | EmulatorsExecutor.LogVerbosityArgs | EmulatorsExecutor.LogVerbosityArgsIntended |
| packages/firebase/src/executors/serve/executor.ts:41-50 | ` --only` is appended (its trailing space cut by `substring`) even when no emulator survives the hosting filter | emulators `["hosting"]` or `[]` without `includeHosting` | no `--only` without emulators to list | not executed | ServeExecutor.DanglingOnly | ServeExecutor.IntendedOnlyRoundTrip |
| firebase-cypress/src/executors/run/executor.ts:42-50 | the do-while scanning for a port has no bound: past the nine names it looks up the key `undefined` for ever | a `firebase.json` whose `emulators` is `{}` or lists only emulators outside the nine (say `ui`) | stop after the nine names and report that no port was found | not executed | LegacyRunExecutor.ScanNeverEnds | LegacyRunExecutor.ScanPortBounded |
| packages/firebase-cypress/src/target-generator/index.ts:346-352 | a folder starting with `..` is joined twice below the project root | project `apps/web`, folder `../../dist/cypress/apps/web/videos` | the folder resolved once against the project root | not executed | CypressTargets.OutputAboveProjectWrong | CypressTargets.IntendedOutputAboveProject |
| packages/firebase-cypress/src/utils/cypress-version.ts:4-24 | every call after the first successful load falls off the end and returns `undefined` | two calls with Cypress 13 installed | every call returns the major version | not executed | CypressVersion.SecondCallLosesVersion | CypressVersion.IntendedCallsKeepVersion |
| packages/firebase/src/executors/serve/executor.ts:10 | `startEmulators(firebaseCommand)` passes no context, so the probe's port lookup reads `cwd` of `undefined` and the executor rejects | any valid options, such as `{ baseServeTarget: "app:serve", only: ["auth"] }` | the executor's context is passed on and the emulators are started | not executed | ServeExecutor.RunExecutor | ServeExecutor.RunExecutorIntended |
| firebase-cypress/src/utils/firebase.ts:53 | the probe address `http://127.0.0.1: <port>` has a space after the colon, which `new URL` rejects, so `isServerUp` never resolves and the start never settles | any port, such as `4000` | the probe uses the address the wait polls | not executed | LegacyFirebase.StartFirebaseEmulators | LegacyFirebase.StartFirebaseEmulatorsIntended |
| scripts/get-new-version-number.ts:39-61 | `parseGitCommit` builds the references but returns nothing, so the filter drops every commit | a log holding `feat: x` | the parsed commit is returned | not executed | GitLog.NoCommitSurvives | GitLog.ConventionalCommitsKept |

The cached version also reaches the config generator: with Cypress 9 installed, the second project of a run gets the `v10` files (`ConfigGenerator.SecondProjectGetsV10`; corrected: `ConfigGenerator.IntendedCacheKeepsV9`).
