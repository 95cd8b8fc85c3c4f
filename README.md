# npm-lifecycle (pnpm fork): a verified model of the script runner's core

`lifecycle(pkg, stage, wd, opts)` runs one lifecycle stage of a package, such as
`install` or `postinstall`. It:

- unwraps the package data;
- decides from the package's scripts and the `.hooks/<stage>` file whether anything runs;
- finds a working directory;
- builds the child-process environment (`makeEnv`, then the stage's own variables);
- extends `PATH` with the `node_modules/.bin` directories of every nesting level;
- runs the package script and then the hook, one after the other, through a module-wide run queue;
- classifies each exit;
- decorates a failure;
- lets `force` / `failOk` swallow it.

This project models that core in Dafny and proves what the code promises about it.

| module (file) | models |
|---|---|
| `EnvKeys` (envkeys.dfy) | the key sanitiser `replace(/[^a-zA-Z0-9_]/g, '_')` |
| `JsonString` (jsonstring.dfy) | `JSON.stringify` of a string, with a decoder for the string literals of section 7 of RFC 8259 as its partner |
| `PackageEnv` (packageenv.dfy) | the inherited-environment copy and the flattening of the package object in `makeEnv`; package data is a heap of objects with ids, so cycles can be expressed |
| `ConfigEnv` (configenv.dfy) | the export of the config table into `npm_config_*` and `npm_package_config_*` |
| `ScriptEnv` (scriptenv.dfy) | the whole top-level `makeEnv` call |
| `ExtendPath` (extendpath.dfy) | lib/extendPath.js: the split on `[\/]node_modules[\/]`, the `.bin` directories, the entry order, the separator, and the prepend-node-directory decision with its one-shot `hasWarned` flag |
| `Scheduler` (scheduler.dfy) | the `running` flag and the FIFO `queue` of `runCmd` / `dequeue` |
| `Hooks` (hooks.dfy) | the `hookStatCache` memo of `hookStat` |
| `Lifecycle` (lifecycle.dfy) | `logid`, the unwrapping of `_data`, the early-skip guard, `validWd` with Node's POSIX `path.dirname`, the env assembly order, the shell choice, close/exit classification, `procError` decoration, `done`, the two-step chain, and the whole stage |

The shared `env` object that `makeEnv` fills in place is modelled in two parts:

- a sequence of writes (`Write(key, value)`), folded over a map by `Apply`, so the last write wins;
- methods with the source's loops whose `ensures` tie the resulting map to that fold.

`pkgConfig` and `pkgVerConfig` are ordered dictionaries (`Put` keeps the first position of a key). The version-scoped table is written after the name-scoped one, so it wins collisions.

These objects, and `env`, are plain JavaScript objects. Assigning a string to the key `__proto__` of such an object calls the setter `Object.prototype` defines, which ignores a value that is not an object, so nothing is stored. The model drops such assignments where the key can be `__proto__`: a config sub-key (`Put`), an `extraEnv` key (`AssignEntries`, `StageEnvAt`) and an inherited variable (`Inherited`). Every other key the code writes starts with `npm_` or is a fixed name.

Things outside the core are parameters of the model:

- the file system (`fs.stat`, `isDirectory`);
- `which` / `realpath`, as the `Lookup` outcome;
- `path.resolve`;
- `umask.toString`;
- `process.platform`, the process's `execPath`, `cwd`, `require.main`, `process.pkg` and `DEFAULT_NODE_GYP_PATH`;
- the PATH variable name found at module load;
- the child process itself, as a function from command to failure.

Where the code and its documentation differ, the model follows the code. An own script that is the empty string still runs when the hook exists. Index.js:73 tests truthiness, but index.js:114 tests `hasOwnProperty`.

## Model

| member | source | states |
|---|---|---|
| `EnvKeys.Sanitize` | index.js:371 | the key has the same length, only `[A-Za-z0-9_]`, and a character is kept exactly when it is already allowed; every other one becomes `_` |
| `EnvKeys.SanitizeIdempotent` | index.js:371 | sanitising a sanitised key changes nothing |
| `EnvKeys.SanitizeFixesNames` | index.js:371 | a key made only of allowed characters is left as it is |
| `EnvKeys.SanitizeAppend` | index.js:371 | sanitising a concatenation sanitises each part |
| `EnvKeys.SanitizeUnderPrefix` | index.js:371 | sanitising `prefix + key` keeps an already clean prefix in front |
| `JsonString.Quote` | index.js:393-395 | `JSON.stringify` of a string is quoted and holds no control character, in particular no raw newline |
| `JsonString.QuoteRoundTrip` | index.js:393-395 | decoding the quoted literal (section 7 of RFC 8259) gives the original string back |
| `PackageEnv.SingleLine` | index.js:392-395 | a stored value never holds `\n`; a value without one is stored unchanged, one with one is stored as a JSON literal that decodes to it |
| `PackageEnv.SerialisableChildren` | index.js:378-379 | every object nested in an object that serialises serialises too, so the recursive call never reaches the `catch` |
| `PackageEnv.SelfReferenceNotSerialisable` | index.js:378 | an object that refers to itself does not serialise |
| `PackageEnv.InheritEnv` | index.js:348-354 | a variable is copied exactly when it does not start with `npm_` and is not a case variant of PATH other than the platform's spelling, except `__proto__`, which assigning to the fresh object does not store; copied values are unchanged |
| `PackageEnv.LevelInto` | index.js:369-398 | the for-in loop leaves exactly the environment given by folding the writes of `LevelWrites` into the starting one |
| `PackageEnv.LevelFieldInto` | index.js:370-396 | one field: skipped, stored as a single-line string, flattened as a serialisable object, or reduced to its stand-in |
| `PackageEnv.TreeInto` | index.js:375-379 | the recursive call for a serialisable object leaves the fold of `TreeWrites` |
| `PackageEnv.TreeFieldInto` | index.js:370-396 | one field of a serialisable object, written as the fold of `TreeField` |
| `PackageEnv.LevelWritesShape` | index.js:369-398 | every flattened key is a clean name under the prefix and no value holds `\n` |
| `PackageEnv.TreeWritesShape` | index.js:375-379 | the same for the fields of a serialisable object under `<key>_` |
| `PackageEnv.LevelFieldShape` | index.js:370-396 | a field writes only keys under its own sanitised key |
| `PackageEnv.SkippedFieldsWriteNothing` | index.js:370-374 | fields starting with `_` and `readme` contribute nothing: dropping them leaves the same writes |
| `PackageEnv.NotSerialisableExportsNameVersionPath` | index.js:380-390 | an object that does not serialise exports only keys under `<key>_name`, `<key>_version` and `<key>_path` |
| `PackageEnv.ApplyFrame` | index.js:392-394 | a write sequence adds exactly its own keys and leaves every other variable unchanged |
| `PackageEnv.StandInLoopsForever` | index.js:383-389 | as written, flattening the stand-in of `a` with `a.name = a` never finishes, for any depth bound |
| `PackageEnv.MakeEnvAsWrittenDiverges` | index.js:375-390 | as written, `makeEnv` on `{dep: a}` with `a.name = a` does not terminate within any depth bound |
| `PackageEnv.MakeEnvCorrectedOnLoop` | index.js:375-390 | the corrected flattening finishes on that input, with `npm_package_dep_version` and `npm_package_dep_path` both `undefined` |
| `PackageEnv.AsWrittenPrefixFree` | index.js:375-390 | whether the flattening as written finishes does not depend on the key prefix |
| `PackageEnv.AsWrittenMoreFuel` | index.js:375-390 | a flattening as written that finishes within a depth bound gives the same writes with a larger bound |
| `PackageEnv.LeastFuel` | index.js:375-390 | a reduction that finishes has a least depth bound at which it finishes |
| `PackageEnv.AsWrittenAgrees` | index.js:369-398 | wherever the flattening as written finishes, it gives the writes of the corrected flattening, provided no object being reduced could finish a further reduction |
| `PackageEnv.AsWrittenFinishesAsCorrected` | index.js:369-398 | wherever `makeEnv` as written finishes, it writes exactly what the corrected flattening writes, so every property of the corrected flattening holds for the code wherever the code returns |
| `ConfigEnv.Put` | index.js:428 | assigning a string into a plain object keeps keys distinct, maps the key to the new value and leaves every other entry; the key `__proto__` is not stored |
| `ConfigEnv.StripUnderscores` | index.js:424 | exactly the leading underscores are removed |
| `ConfigEnv.ValueText` | index.js:414-423 | streams and arrays are dropped; a `umask` key gets `umask.toString`; otherwise a falsy value becomes `''`, a string is kept, a number is written in decimal, `true` becomes `"true"` and an object its JSON text; a text holding `\n` is then JSON-quoted, so no value holds `\n` |
| `ConfigEnv.ScopeOf` | index.js:425-432 | a key is name-scoped when it starts with `<name>:`, else version-scoped when it starts with `<name>@<version>:`, else unscoped; the sanitised rest is the sub-key |
| `ConfigEnv.ExportEntry` | index.js:408-435 | one config entry updates the environment and the two scoped tables as `Step` says |
| `ConfigEnv.ExportConfig` | index.js:402-443 | the config pass followed by both scoped tables leaves `Export` |
| `ConfigEnv.ScopedInto` | index.js:438-443 | writing one scoped table leaves the fold of its `npm_package_config_` writes |
| `ConfigEnv.ConfigNameUnder` | index.js:424-433 | every exported config key is a clean name under `npm_config_` |
| `ConfigEnv.StepShape` | index.js:408-435 | one entry keeps the tables well formed and only adds or changes clean `npm_config_` keys whose values hold no `\n` |
| `ConfigEnv.StepEnvFrame` | index.js:408-435 | an entry that does not render under a given `npm_config_` name leaves that name as it was |
| `ConfigEnv.StepTableFrame` | index.js:424-432 | an entry that does not land on a given sub-key of a scoped table leaves that sub-key's entries as they were |
| `ConfigEnv.PassAppend` | index.js:408 | the pass over two runs of entries is the pass over the second, started from the state the first leaves |
| `ConfigEnv.PassEnvFrame` | index.js:408-435 | a run of entries none of which renders under a name leaves that name as it was |
| `ConfigEnv.PassTableFrame` | index.js:424-432 | a run of entries none of which lands on a sub-key leaves that sub-key as it was |
| `ConfigEnv.PassShape` | index.js:408-435 | the same for the whole pass |
| `ConfigEnv.ExportShape` | index.js:402-443 | after the export every variable is unchanged, or is a clean `npm_config_` / `npm_package_config_` name with a single-line value |
| `ConfigEnv.VersionScopedWins` | index.js:437-443 | a version-scoped sub-key ends with its version-scoped value, even when a name-scoped entry set the same sub-key |
| `ConfigEnv.NameScopedKept` | index.js:437-443 | a name-scoped sub-key that no version-scoped entry sets ends with its name-scoped value |
| `ConfigEnv.RecordDecides` | index.js:424-434 | recording a rendered entry sets its `npm_config_` name to the text and puts the text under its sub-key in the table its scope names, replacing any earlier value there; an unscoped entry, or the sub-key `__proto__`, leaves both tables as they were |
| `ConfigEnv.LastEntryDecides` | index.js:408-435 | when the pass ends with a kept, rendering entry, that entry decides its `npm_config_` value, and its sub-key, unless it is `__proto__`, is in the scoped table with exactly that text |
| `ConfigEnv.ConfigEntryExported` | index.js:408-443 | the last config entry that renders under an `npm_config_` name decides that variable in the final environment, whatever follows it |
| `ConfigEnv.ScopedEntryExported` | index.js:424-443 | a `<name>:key` or `<name>@<version>:key` entry that is the last to land on `key` sets `npm_package_config_<key>` to its text; a name-scoped one does so when no version-scoped entry sets `key`; for the sub-key `__proto__` the variable keeps what the environment had |
| `ConfigEnv.ProtoSubKeyNotExported` | index.js:424-443 | the scoped tables never hold `__proto__`, so the export leaves `npm_package_config___proto__` present exactly when it was, with its old value |
| `ConfigEnv.SkippedEntriesIgnored` | index.js:409-413 | private keys (leading `_` not followed by `<name>:`) and keys holding `:_` have no effect on the result |
| `ScriptEnv.InheritedEnv` | index.js:348-354 | the inherited copy holds exactly the variables that pass the filter |
| `ScriptEnv.MakeEnv` | index.js:346-446 | a top-level call returns `Environment`: the inherited copy, `NODE_ENV`, `NODE_OPTIONS`, the flattened package, then the config export |
| `ScriptEnv.WrittenUnderNpm` | index.js:369-443 | flattening and config export only add or change clean `npm_*` names with single-line values |
| `ScriptEnv.EnvironmentShape` | index.js:346-446 | inherited variables other than `NODE_ENV`/`NODE_OPTIONS` are kept; `production` sets `NODE_ENV=production`, and without it `NODE_ENV` is present exactly when inherited, with the inherited value; a non-empty `nodeOptions` sets `NODE_OPTIONS`, and an empty one leaves it as inherited; every other key is a clean `npm_*` name |
| `ExtendPath.Split` | lib/extendPath.js:7 | the split has at least one piece and the first is a prefix of the path |
| `ExtendPath.SplitJoin` | lib/extendPath.js:7 | joining the pieces with `/node_modules/` gives the path back |
| `ExtendPath.SplitPiecesNoMatch` | lib/extendPath.js:7 | no piece contains a separator match |
| `ExtendPath.SplitLeftmost` | lib/extendPath.js:7 | the split cuts at the leftmost match: no match starts inside the first piece, a single piece is the whole path, and otherwise a match follows the first piece and the other pieces are the split of what comes after it |
| `ExtendPath.BinDirs` | lib/extendPath.js:14-18 | N nested names give N+1 `.bin` entries, the innermost first |
| `ExtendPath.BinDirsLevels` | lib/extendPath.js:8-18 | the entry for level j is the root, then `node_modules/<name>` for each of the first j names, then `/node_modules/.bin` |
| `ExtendPath.EntriesAfterBins` | lib/extendPath.js:6-25 | after the `.bin` entries come `nodeGyp`, then `extraBinPaths` in order, then the node directory when chosen, then a non-empty `originalPath` last |
| `ExtendPath.BinBeforeNodeGyp` | test/extendPath.test.js:4-7 | the joined PATH starts with the `.bin` entries, ending in `.bin`, followed by the separator and `nodeGyp` |
| `ExtendPath.DecideTable` | lib/extendPath.js:29-60 | `true` prepends; `false`/missing never does; `warn-only` never prepends and warns only when the node differs and nothing was warned yet; any other value prepends exactly when the node differs or the lookup failed |
| `ExtendPath.AtMostOneWarning` | lib/extendPath.js:47-58 | over any sequence of calls, each with its own setting and lookup, at most one warning is given, and none once `hasWarned` is set |
| `ExtendPath.PathComposer.constructor` | lib/extendPath.js:48 | a fresh process has not warned yet |
| `ExtendPath.PathComposer.ShouldPrepend` | lib/extendPath.js:29-60 | the answer, the warning and the new `hasWarned` are those of `Decide` |
| `ExtendPath.PathComposer.Extend` | lib/extendPath.js:5-27 | the result is the entries joined with `;` on win32 and `:` elsewhere, with the node directory included as `Decide` says |
| `ExtendPath.UnshiftBinDirs` | lib/extendPath.js:14-18 | the `unshift` loop puts the `.bin` directories in front of what was there |
| `ExtendPath.AskAll` | lib/extendPath.js:47-58 | repeated calls on one composer, each with its own setting, give the warnings of `Warnings`, so at most one in all |
| `Scheduler.SubmitKeeps` | index.js:179-187 | a serial run submitted while running is queued at the back and nothing else changes; one submitted while idle sets `running`, starts and becomes active; a concurrent run just starts and becomes active |
| `Scheduler.DequeueKeeps` | index.js:171-177 | completion clears `running` and starts exactly the front of the queue, keeping the order of serial runs |
| `Scheduler.SerialJobsStartInOrder` | index.js:169-187 | from the initial state, only serial runs wait, and the serial runs started followed by those waiting are the serial runs submitted, in order |
| `Scheduler.OneSerialAtATime` | index.js:169-218 | when every run is serial, at most one is active at any time, and `running` is set exactly when one is |
| `Scheduler.ConcurrentCompletionReleasesQueue` | index.js:169-218 | serial J0 runs, concurrent J1 starts beside it, serial J2 waits behind J0; J1's completion then starts J2 while J0 is still active |
| `Scheduler.RunQueue.constructor` | index.js:169-170 | the queue starts idle and empty |
| `Scheduler.RunQueue.RunCmd` | index.js:179-187 | `runCmd` changes `running` and `queue` as `SubmitStep` says |
| `Scheduler.RunQueue.Dequeue` | index.js:171-177 | `dequeue` changes them as `DequeueStep` says |
| `Scheduler.RunQueue.Finish` | index.js:213-218 | a completion removes the job from the active runs and then runs `dequeue`, as `FinishStep` says |
| `Hooks.LookupKeeps` | index.js:43-55 | a lookup returns what the file system reports, asks it only for a path not yet cached, and keeps each path stated once |
| `Hooks.RepeatedLookupIsCached` | index.js:45-54 | a second lookup of the same hook returns the cached outcome without touching the file system, whatever it now says |
| `Hooks.EachHookStatedOnce` | index.js:43-55 | over any sequence of lookups every result is the file system's and no path is stated twice |
| `Hooks.HookCache.constructor` | index.js:25 | the cache starts empty |
| `Hooks.HookCache.HookStat` | index.js:43-55 | `hookStat` returns and records as `Lookup` says, for `dir/.hooks/stage` |
| `Text.IntToDecimal` | index.js:285 | the text of an integer carries a minus sign exactly for negatives, reads back as the integer, and has no leading zero (only 0 itself starts with `0`) |
| `Text.CanonicalIsRendering` | index.js:285 | any digit string without a leading zero that reads back as `n` is the rendering of `n`, so the text of a number is unique |
| `Text.DecimalRoundTrip` | index.js:285 | a non-negative decimal rendering reads back as the number |
| `Lifecycle.LogIdInjective` | index.js:39-41 | for ids without `~`, different (id, stage) pairs give different log ids |
| `Lifecycle.Unwrap` | index.js:59-60 | following `_data` reaches the innermost package; a falsy value is rejected with "Invalid package data" |
| `Lifecycle.EffectiveScripts` | index.js:63-68 | `prepublish` is removed exactly when the stage is `prepublish` and `ignorePrepublish` is set; other scripts stay |
| `Lifecycle.EffectivePackage` | index.js:65-79 | the package `makeEnv` receives keeps its id and name and has exactly the effective scripts, so under `ignorePrepublish` no `prepublish` script reaches it |
| `Lifecycle.PlanStage` | index.js:73-124 | the stage is skipped exactly when there is no truthy script and the hook stat failed; otherwise the own script is planned iff it exists and scripts are not ignored, and the hook iff it was found |
| `Lifecycle.Commands` | index.js:139-145 | the chain runs the own script first and the hook last |
| `Lifecycle.EmptyScriptRunsWithHook` | index.js:73-119 | an empty own script is skipped without a hook but runs, with the hook, when the hook exists |
| `Lifecycle.DirnameExamples` | index.js:151 | `path.dirname` as Node computes it on POSIX paths: `/a/b`→`/a`, `/a`→`/`, `a`→`.`, `/a/b/`→`/a`, `/`→`/` |
| `Lifecycle.DirnameClimbs` | index.js:151-155 | each step of the walk moves towards the root, so the recursion ends |
| `Lifecycle.ValidWd` | index.js:148-159 | a found directory is a directory; failure is "Could not find suitable wd" |
| `Lifecycle.ValidWdFails` | index.js:148-159 | the walk fails exactly when no ancestor (the path included) is a directory |
| `Lifecycle.ValidWdIsNearest` | index.js:148-159 | the directory found is the nearest ancestor that is a directory |
| `Lifecycle.SelectShell` | index.js:231-242 | a custom shell goes with `-c` on every platform; otherwise `sh -c`, or on win32 `comspec` (or `cmd`) with `/d /s /c` and verbatim arguments |
| `Lifecycle.ClassifyClose` | index.js:278-289 | a signal gives a signal failure; otherwise a non-zero code gives "Exit status <code>" with `errno = code`; code 0 gives no failure |
| `Lifecycle.ClassifyEmulator` | index.js:263-269 | the shell emulator fails exactly on a non-zero code, with the same message and `errno` |
| `Lifecycle.ExitStatusNamesCode` | index.js:284-287 | the exit-status message ends in the decimal code, and both runners give the same message |
| `Lifecycle.Decorate` | index.js:300-316 | the message gets the prefix `<id> <stage>: \`<cmd>\`` and a newline; the code becomes `ELIFECYCLE` unless it was `EPERM`; `errno` is kept; the package id, stage, script and name are attached |
| `Lifecycle.ProcError` | index.js:300-321 | `procError` passes on a failure exactly when it got one |
| `Lifecycle.DecorateKeepsMessage` | index.js:303-306 | the original message survives after the prefix, and the code is `EPERM` exactly when it was |
| `Lifecycle.DecorateCodeIdempotent` | index.js:304-306 | decorating twice gives the same code as once |
| `Lifecycle.Done` | index.js:126-137 | `done` drops a failure exactly when `force` or `failOk` is set, and otherwise passes it on unchanged |
| `Lifecycle.Chain` | index.js:139-145 | the chain runs a prefix of the commands, stops at the first failure and reports it, or runs them all; the commands run are exactly `RanUntil` |
| `Lifecycle.AssignEntries` | index.js:92-96 | after the `extraEnv` loop a key other than `__proto__` holds its last `extraEnv` value, otherwise its old value |
| `Lifecycle.SetStageValues` | index.js:80-91 | the stage's own variables: `npm_lifecycle_event`, `NODE` and `npm_node_execpath`, `npm_execpath`, `INIT_CWD`, `npm_config_node_gyp` |
| `Lifecycle.StageEnv` | index.js:79-100 | a name is in the stage environment exactly where `StageEnvAt` gives it a value, and holds that value |
| `Lifecycle.AssembleEnv` | index.js:79-100 | the assembled environment at each key is that of `StageEnvAt`: `TMPDIR` over `extraEnv` over the stage's values over `makeEnv`; it is `StageEnv` |
| `Lifecycle.ExtraEnvPrecedence` | index.js:92-100 | an `extraEnv` entry wins over everything before it and loses only `TMPDIR` to the working directory when `unsafePerm` is off; an entry for `__proto__` changes nothing |
| `Lifecycle.ExtraLastIsLastEntry` | index.js:93-95 | of several `extraEnv` entries for a key, the last one is kept |
| `Lifecycle.CommandEnv` | index.js:78-121 | over `makeEnv` of the package after the `prepublish` deletion, the commands' environment holds at the PATH name what `extendPath` makes of the stage environment's value there, at `npm_lifecycle_script` the own script when it runs, and elsewhere the stage environment |
| `Lifecycle.CommandEnvInto` | index.js:78-121 | the assignments build `CommandEnv` |
| `Lifecycle.OutcomeOf` | index.js:102-105 | the promise resolves exactly when `lifecycle_` calls back without an error, and otherwise rejects with it |
| `Lifecycle.RunLifecycle` | index.js:111-145 | the hook is stated through the cache, the commands run until the first failure in `CommandEnv`, and the error passed on is `done` of that failure: a failure of the last command run unless `force` or `failOk` |
| `Lifecycle.SkippedStageSettles` | index.js:73 | a stage with no truthy script and no hook resolves with nothing run |
| `Lifecycle.MissingWdSettles` | index.js:75-76 | a stage past the guard without a working directory rejects with "Could not find suitable wd" and runs nothing, whatever `force` says |
| `Lifecycle.RanStageSettles` | index.js:100-145 | once a stage runs, the first failing command's decorated error rejects it unless `force` or `failOk` is set, and with either it resolves |
| `Lifecycle.RunPackageStage` | index.js:61-109 | the stage of an unwrapped package settles as `StageSettles` says: cache use, skipping, the working directory, and the commands run until the first failure, which rejects the stage unless `force` or `failOk` |
| `Lifecycle.RunStage` | index.js:57-109 | a falsy package is rejected with "Invalid package data" and nothing run; otherwise the innermost package's stage settles as `StageSettles` says |

## Left out

- Spawning the child process (`spawn`), the `@yarnpkg/shell` `execute` call, and the stdio, `byline` and `PassThrough` wiring. These are foreign calls and streams; the child process is the `run` function of `World`, and only its result is modelled.
- Signal handlers, `process.kill`, `process.exit`, and adding and removing listeners. This is process-wide signal plumbing.
- Logging, the console banner, progress pause and resume, and the "node_modules missing" advisory. These are output only.
- `uid-number` resolution and the `uid ^ 0` coercion. These are foreign calls.
- `resolveFrom` for `DEFAULT_NODE_GYP_PATH` and the win32 PATH-name probe at module load. They are the `defaultNodeGyp` field of `Process` and the `pathName` parameter.
- lib/isDocker.js. It only reads two files.
- `Object.defineProperty(data, '_lifecycleEnv', …)`. It adds a non-enumerable property that nothing in the core reads.
- `path.join` normalisation (`..`, repeated slashes): joining is concatenation with `/`. `path.resolve` is a parameter.
- `JSON.stringify` of non-string config values, `umask.toString`, and `String(v)` of numbers other than integers. They are parameters or pre-rendered texts; only the string-escaping facts are used.
- EnvKeys.Sanitize: works per Unicode scalar value, because a Dafny `char` is one, while JavaScript works per UTF-16 code unit. A character outside the Basic Multilingual Plane becomes one `_` here and two in the code. Lone surrogates, which `JSON.stringify` escapes as `\uDXXX`, cannot occur in a Dafny string.
- Arrays as package data, the integer-like key order of `for…in`, and a truthy non-object `_data`. Objects are sequences of fields in the order the loop visits them.
- `Lifecycle.Unwrap` assumes an acyclic `_data` chain. It is a datatype, so a cyclic chain, which loops forever in the code, cannot be expressed.
- The `process.nextTick` delay of `dequeue` and the interleaving of asynchronous callbacks. Traces are sequences of submissions and completions in one order.
- Hooks.HookCache.HookStat: two lookups of the same hook that start before either stat finishes both ask the file system; the model treats each lookup as finishing before the next begins.
- Lifecycle.RunStage: `makeEnv`, `extendPath` and the child process are fields of `World`. `ScriptEnv.MakeEnv` and `ExtendPath.PathComposer.Extend` state what the real ones compute.
- Lifecycle.EffectiveScripts: `if (!pkg.scripts) pkg.scripts = {}` and `delete pkg.scripts.prepublish` (index.js:63, 67) change the caller's package object in place, so a later stage of the same object no longer sees `prepublish`. The model computes the scripts as a value (`EffectivePackage`), which the same call's `makeEnv` and script lookup receive, and does not carry the change over to later calls.
- Lifecycle.AssignEntries: `Object.entries(opts.extraEnv)` lists integer-like keys first, in ascending order, and then the others in insertion order. `extraEnv` is modelled as the sequence of entries in the order the loop visits them.
- ConfigEnv.ValueText: JavaScript writes a number whose magnitude is at least 1e21 in exponent form (`1e+21`); the model writes the decimal digits of an integer.
- ExtendPath.SplitJoin: stated for paths without `\`. With a `\` separator the pieces are joined back with `/`.
- ScriptEnv.EnvironmentShape: `NODE_OPTIONS` is also rewritten by the nested calls of the code. They write the same value again, so the final map is the same.
- Scheduler: a `Job` stands for the arguments of `runCmd`; what a started job does is not part of the queue.

## Findings

| source | as written | input that shows it | evidently intended | confidence | as-written member | corrected member |
|---|---|---|---|---|---|---|
| index.js:375-390 | an object that does not serialise is replaced by `{name, version, path}` and flattened again at the same level; if one of those fields is itself an object that does not serialise, it is replaced again, without end | `a = {}; a.name = a; makeEnv({dep: a}, opts)`: `dep` does not serialise, its stand-in's `name` is `a` again, and the recursion never stops (a stack overflow) | flattening terminates on cyclic data and exports the stand-in's remaining fields; an object already being reduced on the current path writes nothing | not executed | `PackageEnv.MakeEnvAsWrittenDiverges` | `PackageEnv.MakeEnvCorrectedOnLoop` |

The corrected flattening (`PackageEnv.LevelWrites`) is the one the rest of the model uses.

`Scheduler.ConcurrentCompletionReleasesQueue` records behaviour, not a finding. `dequeue` runs after every completion, including that of a concurrent run, so a waiting serial run can start while another serial run is still active.
