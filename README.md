# Skypager features and the git feature, in Dafny

This project models two parts of the Skypager runtime and proves properties of them.

**The Feature helper** (`src/runtime/src/helpers/feature.js`):
- how a feature computes the methods it grafts onto the host runtime (`hostMixin`/`projectMixin`) and onto itself (`featureMixin`);
- the options those grafts use (`hostMixinOptions`, `featureMixinOptions`, `defaultMixinOptions`);
- how the class attaches to a runtime (`attach`) and seeds its registry (`createRegistry`);
- the `enable(cfg)` lifecycle. It short-circuits a re-enable under the same cache key, deep-merges an object configuration into the options, grafts the host mixin, runs the `featureWasEnabled` hook, and records `enabled` or `failed` in the runtime's `featureStatus` map.

**The git feature** (`src/runtimes/node/src/features/git.js`):
- `meta`: the branch, sha, abbreviated sha and tag read from the `.git` directory. This covers symbolic and detached HEAD, `packed-refs`, and lightweight and annotated tags.
- the `git ls-files` command line `lsFiles` builds, and the options `walk` passes to it;
- the parsing of `git status --porcelain` output by `filesStatus`;
- the argument vector of `clone`;
- the `files`, `directories` and `statusMap` tables. `walk` fills them (inserting only absent keys) and `updateStatus` writes to them. `clearState` empties them selectively, `run` chains these steps, and `exists` queries the tables.

The modules are:
- `Wrappers`: `Option` and `Result`.
- `JsStrings`: JavaScript's `split`, `join`, `trim`, `indexOf` and `slice` on strings, with their round trips.
- `Values`: lodash `defaults` and `defaultsDeep` over JSON-like values.
- `Features`: feature.js.
- `GitMeta`, `GitCommands` and `GitState`: git.js.

Stateful code is modelled as classes:
- `Features.Runtime` and `Features.Feature` hold the fields that `attach`, `initialize` and `enable` update.
- `GitState.GitWorkspace` holds the three tables of the git feature.

Each method other than `GitWorkspace.ClearState`, whose contract states the emptied tables directly, is proved against a pure specification function (`EnableSpec`, `StatTables`/`WalkTables`, `FromPairs`, `FindTagSpec`). The contracts of those functions, and the lemmas beside them, state what the source does: for `FindTagSpec`, the packed tag first and then the scan of `refs/tags`, whose own contract (`ScanTags`) says which tag is found or which error is thrown.

**Behaviour of the code the model keeps:**
- **Mixin direction.**
  - The host mixin is built from the names in `hostMethods`/`projectMethods`, resolved on the feature. It is grafted onto the host with `scope` forced to the host.
  - The feature mixin is grafted onto the feature itself by `initialize`.
  - Names listed in `hostMethods` are excluded from the feature mixin.
- **The re-enable guard.** The guard reads `runtime.isFeatureEnabled(name)` and `enabledFeatures.<name>.cacheKey`; the runtime that defines these is not part of this model. The model takes both to read the `featureStatus` map: the entry exists, its status is `enabled` and its cache key is the instance's.
- **A missing `featureStatus`.** When the runtime has no `featureStatus` (it was attached without `makeObservable`), the status write inside the promise chain throws. `enable` then rejects with that error, whatever the hook did.

## Model

| member | source | states |
|---|---|---|
| Features.HostMethods | src/runtime/src/helpers/feature.js:251-253 | the host method names are `projectMethods` when declared, else `hostMethods`, else none |
| Features.FeatureMethods | src/runtime/src/helpers/feature.js:243-245 | the feature method names are `featureMethods`, else none |
| Features.KeyCallables | src/runtime/src/helpers/feature.js:221-229 | the filter/keyBy/mapValues/pickBy chain keeps exactly the listed names that resolve to functions, each mapped to its own function |
| Features.Without | src/runtime/src/helpers/feature.js:236 | keeps exactly the names the excluded list does not contain |
| Features.ProjectMixin | src/runtime/src/helpers/feature.js:217-229 | the host mixin holds exactly the `hostMethods` names (from `projectMethods` when given) that are functions on the feature, bound to those functions; it is empty when neither list is declared |
| Features.FeatureMixin | src/runtime/src/helpers/feature.js:231-241 | the feature mixin holds exactly the `featureMethods` names that are not host methods and are functions on the feature |
| Features.MixinsDisjoint | src/runtime/src/helpers/feature.js:231-241 | no name is in both the host mixin and the feature mixin |
| Features.DefaultMixinOptions | src/runtime/src/helpers/feature.js:133-143 | the seven default keys; `scope` is the receiver, `partial` passes the context, `right` is on and `hidden` is off |
| Features.FeatureMixinOptions | src/runtime/src/helpers/feature.js:121-125 | the feature's own options (`featureMixinOptions`, else `mixinOptions`) win key by key; `defaultMixinOptions` fill in every other key |
| Features.HostMixinOptions | src/runtime/src/helpers/feature.js:127-131 | `scope` is always the host; apart from it, the override (`hostMixinOptions`, else `mixinOptions`) wins over the defaults key by key |
| Features.MixinOptionsAreDefaults | src/runtime/src/helpers/feature.js:121-143 | both option getters equal lodash `defaults` over their sources, in the order the code lists them |
| Features.Graft | src/runtime/src/helpers/feature.js:175 | applying a mixin adds exactly its names; with `right` the new functions replace existing ones, otherwise existing ones are kept; new functions are bound to the `scope` option or to the receiver |
| Features.HostMixinBindsToHost | src/runtime/src/helpers/feature.js:127-131 | every host-mixin method grafted onto the host is bound to the host, whatever the feature's own mixin options say |
| Features.CreateRegistry | src/runtime/src/helpers/feature.js:51-62 | the new registry holds exactly the built-in `profiler` and `vm` providers and has an empty `enabled` map |
| Features.AttachSettings | src/runtime/src/helpers/feature.js:76-83 | the caller's options override the attach defaults key by key; `registryProp`, `lookupProp` and `registry` default to `features`, `feature` and the Feature registry, `cacheHelper` and `isCacheable` to true |
| Features.Runtime.Attach | src/runtime/src/helpers/feature.js:73-90 | sets `runtime.Feature`, hands the merged settings to `Helper.attach`, and creates an empty `featureStatus` only for an observable runtime that lacks one, so an existing status map survives re-attaching |
| Features.Runtime.ApplyInterface | src/runtime/src/helpers/feature.js:175 | the runtime's methods become the graft of the mixin onto them, bound to the host |
| Features.Feature.Initialize | src/runtime/src/helpers/feature.js:95-97 | grafts the feature mixin onto the feature with the feature mixin options |
| Features.MergeConfig | src/runtime/src/helpers/feature.js:162-168 | an object configuration is deep-merged over the stored options: its leaves win, every stored path survives, every stored leaf the configuration does not set keeps its value, and no path appears that neither side holds, at every depth; any other configuration leaves the options unchanged |
| Features.GuardReadsLatestEntry | src/runtime/src/helpers/feature.js:154-160 | the re-enable guard holds iff the latest entry written for the name is `enabled` with this cache key; writing one name's entry does not change the guard for another name |
| Features.HookStyleOf | src/runtime/src/helpers/feature.js:180-185 | the class-style hook is called iff the feature defines one; otherwise the module-style one |
| Features.EntryAfterHook | src/runtime/src/helpers/feature.js:188-205 | the entry written after the hook has the instance's cache key, the configuration and the merged options; it is `enabled` iff the hook resolved, and its error is the rejection's reason, none for an `undefined` or `null` reason |
| Features.SettledResult | src/runtime/src/helpers/feature.js:188-209 | `enable` resolves iff the hook resolved; a rejection rethrows its reason, and a missing reason makes `error.message` throw a `TypeError` instead |
| Features.EnableSpec | src/runtime/src/helpers/feature.js:151-210 | already enabled under this cache key: nothing changes. Otherwise the options are merged and the hook runs even when the host mixin throws. When it does not throw, the host methods become the graft of the host mixin with the host mixin options. One status entry per name is overwritten and the others are kept. Success records `enabled`; failure records `failed` with the reason and rethrows it, or throws a `TypeError` for a missing reason. A missing status map rejects. Whenever enable resolves, the feature is recorded as enabled under its cache key |
| Features.Feature.Enable | src/runtime/src/helpers/feature.js:151-210 | the feature's options, the runtime's status map and methods, the result and the hook call are exactly those of `EnableSpec` on the old state |
| Features.ReEnableShortCircuits | src/runtime/src/helpers/feature.js:154-160 | after a resolved enable, enabling the same instance again with any configuration changes nothing and calls no hook |
| Features.RetryAfterFailureRunsHook | src/runtime/src/helpers/feature.js:198-209 | after a rejected enable, the next enable runs the hook again |
| Features.NewCacheKeyReEnables | src/runtime/src/helpers/feature.js:154-157 | an instance of the same feature under another cache key is not short-circuited: its hook runs, its options are merged and its cache key replaces the recorded one |
| Features.SameConfigSameOptions | src/runtime/src/helpers/feature.js:162-165 | retrying with the same object configuration after a failed hook leaves the options as the first attempt left them |
| Values.DefaultsFirstWins | src/runtime/src/helpers/feature.js:121-131 | lodash `defaults`: a key is present iff some source defines it, and its value comes from the first source that does |
| Values.DefaultsOfTwo | src/runtime/src/helpers/feature.js:124 | `defaults` over two sources is the second overridden by the first |
| Values.DefaultsOfThree | src/runtime/src/helpers/feature.js:130 | `defaults` over three sources is the third, overridden by the second, overridden by the first |
| Values.DefaultsDeep | src/runtime/src/helpers/feature.js:165 | `defaultsDeep`: keys of both sides; values on one side only are kept; where both sides hold objects the value is the recursive merge of the two; otherwise the configuration's value wins |
| Values.DefaultsDeepKeepsHi | src/runtime/src/helpers/feature.js:165 | every leaf of the configuration is in the merged options |
| Values.DefaultsDeepKeepsLoPaths | src/runtime/src/helpers/feature.js:165 | every path of the stored options is still in the merged options |
| Values.DefaultsDeepKeepsLoLeaves | src/runtime/src/helpers/feature.js:165 | every leaf of the stored options that the configuration does not set keeps its value in the merged options, at every depth |
| Values.DefaultsDeepNoNewPaths | src/runtime/src/helpers/feature.js:165 | the merge adds no key, at any depth, that neither the configuration nor the stored options hold |
| Values.DefaultsDeepSelf | src/runtime/src/helpers/feature.js:165 | merging options into themselves changes nothing |
| Values.DefaultsDeepIdempotent | src/runtime/src/helpers/feature.js:162-165 | merging the same configuration a second time changes nothing |
| GitMeta.ReadTrimmed | src/runtimes/node/src/features/git.js:167 | a file read succeeds iff the file exists; a missing file throws a read error naming its path |
| GitMeta.BranchFrom | src/runtimes/node/src/features/git.js:149-159 | the branch name has no white space at either end |
| GitMeta.BranchName | src/runtimes/node/src/features/git.js:149-159 | the branch name read from HEAD has no white space at either end |
| GitMeta.BranchNameAfterSlashes | src/runtimes/node/src/features/git.js:149-159 | the branch name is the text after the second `/`, trimmed, or when that is empty, the text after the last `/`, trimmed |
| GitMeta.HeadRefPath | src/runtimes/node/src/features/git.js:160-163 | HEAD names a ref iff its second blank-separated piece exists and is non-empty, and then that piece is the ref |
| GitMeta.SymbolicHeadRef | src/runtimes/node/src/features/git.js:160-167 | a HEAD of `ref: refs/heads/<branch>` followed by blank-free white space, such as git's line break, points to that ref with the white space |
| GitMeta.SymbolicRefTrimmed | src/runtimes/node/src/features/git.js:167 | the trim before the read drops that trailing white space, so the file read is `refs/heads/<branch>` |
| GitMeta.SymbolicHeadBranch | src/runtimes/node/src/features/git.js:149-159 | a HEAD of `ref: refs/heads/<branch>` followed by any white space, such as git's line break, names the branch `<branch>`, including a branch whose name holds `/` |
| GitMeta.AfterHeadsPrefix | src/runtimes/node/src/features/git.js:149-153 | the text after the second `/` of `ref: refs/heads/<rest>` is `<rest>`, whatever `/` it holds |
| GitMeta.FirstTagLine | src/runtimes/node/src/features/git.js:79-81 | finds the first `packed-refs` line mentioning both `refs/tags` and the sha; no earlier line does; none means no line does |
| GitMeta.FindPackedTag | src/runtimes/node/src/features/git.js:73-87 | no `packed-refs` file, or no such line, gives no tag; otherwise the tag is the piece after the first `tags/` of the first such line |
| GitMeta.PackedRefLineNamesTag | src/runtimes/node/src/features/git.js:83-85 | on a `<sha> refs/tags/<name>` line the packed tag is `<name>` |
| GitMeta.ObjectPath | src/runtimes/node/src/features/git.js:92-97 | the object path splits into `objects`, the first two characters of the sha and the rest |
| GitMeta.AnnotatedTarget | src/runtimes/node/src/features/git.js:108-112 | an annotated tag object without a second `\0`/newline section throws; otherwise the commit is that section without its first seven characters (`object `) |
| GitMeta.AnnotatedTagObject | src/runtimes/node/src/features/git.js:105-112 | an object `tag <size>\0object <sha>\n...` points to `<sha>` |
| GitMeta.CommitForTag | src/runtimes/node/src/features/git.js:89-117 | a missing tag file throws. Without `inflateSync` or the object file, the tag's trimmed content is the commit. An object starting with `tag` is followed. Any other object leaves the content as the commit |
| GitMeta.ScanTags | src/runtimes/node/src/features/git.js:130-139 | no tag is found iff every tag resolves and none points to the sha; a found tag is the first one pointing to the sha; an error comes from the first tag that fails before any match |
| GitMeta.ScanTagsFrom | src/runtimes/node/src/features/git.js:132-139 | one iteration of the tag loop: throw, return the tag, or go on |
| GitMeta.TagCommits | src/runtimes/node/src/features/git.js:134 | the commit of each tag, position by position |
| GitMeta.FindTagSpec | src/runtimes/node/src/features/git.js:119-140 | a non-empty packed tag is returned first; otherwise, when `refs/tags` exists, the result is the scan of its entries (`ScanTags`), and without it the result is no tag; a tag other than the packed one is an entry of `refs/tags` whose commit is the sha |
| GitMeta.ScanTagDir | src/runtimes/node/src/features/git.js:130-140 | the loop over `refs/tags` returns what the scan specification gives |
| GitMeta.FindTag | src/runtimes/node/src/features/git.js:119-140 | `findTag` returns what `FindTagSpec` gives |
| GitMeta.Caught | src/runtimes/node/src/features/git.js:180-186 | the `catch` of `meta` resolves with what was set so far iff errors are suppressed, and otherwise rethrows the error |
| GitMeta.Meta | src/runtimes/node/src/features/git.js:59-189 | no HEAD gives all-null metadata with the root. With error suppression it never throws. The abbreviated sha is the first ten characters of the sha. The branch is set iff HEAD names a ref. A detached HEAD's sha is its content. A symbolic HEAD's sha is the ref file's trimmed content; a missing ref file throws, or with suppression leaves only the branch. Without suppression a result always has a sha whose tag lookup did not throw, and a HEAD whose sha was read throws iff its tag lookup throws, with that error. The tag is set iff the lookup finds a non-empty one |
| GitCommands.LsFilesOptionsOf | src/runtimes/node/src/features/git.js:455-457 | a string argument is the options object `{ pattern }` and nothing else; an object is taken as it is |
| GitCommands.ExcludePatterns | src/runtimes/node/src/features/git.js:463-475 | a missing `exclude` gives no pattern, a single pattern gives itself, a list gives its patterns in order |
| GitCommands.ExcludeArgs | src/runtimes/node/src/features/git.js:475 | one `--exclude <pattern>` per pattern, in order |
| GitCommands.SwitchParts | src/runtimes/node/src/features/git.js:477-487 | ten fixed positions: `git ls-files`, then the pattern when it is non-empty, the switches, and the `flags` (empty by default) last |
| GitCommands.LsFilesParts | src/runtimes/node/src/features/git.js:477-489 | the fixed positions followed by exactly the exclude arguments |
| GitCommands.LsFilesArgv | src/runtimes/node/src/features/git.js:474-490 | the filtered arguments start with `git ls-files` and none is empty |
| GitCommands.LsFilesPatternFirst | src/runtimes/node/src/features/git.js:455-491 | a non-empty pattern, such as a string argument, is the first argument after `git ls-files` |
| GitCommands.LsFilesFlags | src/runtimes/node/src/features/git.js:487-490 | non-empty `flags` are among the command's arguments |
| GitCommands.NonEmpty | src/runtimes/node/src/features/git.js:490 | the filter leaves only non-empty parts |
| GitCommands.NonEmptyMember | src/runtimes/node/src/features/git.js:490 | a string survives the filter iff it is non-empty and among the parts |
| GitCommands.NonEmptyAppend | src/runtimes/node/src/features/git.js:488-490 | filtering the concatenation is concatenating the filtered halves |
| GitCommands.LsFilesCommand | src/runtimes/node/src/features/git.js:454-491 | the command is the non-empty arguments joined with blanks: `git ls-files` alone or followed by a blank and the rest |
| GitCommands.ExcludeArgIsNoSwitch | src/runtimes/node/src/features/git.js:475 | an `--exclude` argument never equals one of the switches |
| GitCommands.SwitchInArgv | src/runtimes/node/src/features/git.js:477-490 | a switch is in the command iff it is among the fixed positions |
| GitCommands.UntrackedInHead | src/runtimes/node/src/features/git.js:485-486 | `--others` holds a fixed position iff `others` and not `debug`; `--cached` iff `others` and `cached` |
| GitCommands.IgnoreFilesInHead | src/runtimes/node/src/features/git.js:483-484 | the `.gitignore` switch holds a position iff `gitignore`; the `.skypagerignore` switch iff `skypagerignore` |
| GitCommands.ReportSwitchesInHead | src/runtimes/node/src/features/git.js:480-482 | `--full-name`, `--debug` and `-t` hold positions iff `fullName`, `debug` and `status` |
| GitCommands.LsFilesListsUntracked | src/runtimes/node/src/features/git.js:466-486 | the command lists untracked files iff `others` (default true) and not `debug` (default false); it adds the index iff `others` and `cached` (both default true) |
| GitCommands.LsFilesIgnoreFiles | src/runtimes/node/src/features/git.js:466-484 | `.gitignore` is honoured unless `gitignore` is false; `.skypagerignore` only when `skypagerignore` is true |
| GitCommands.LsFilesReportSwitches | src/runtimes/node/src/features/git.js:462-482 | `--full-name`, `--debug` and `-t` appear iff `fullName`, `debug` and `status` are true, all off by default |
| GitCommands.LsFilesExcludesLast | src/runtimes/node/src/features/git.js:474-490 | the arguments are the non-empty fixed positions, then one `--exclude <pattern>` per pattern, in the given order |
| GitCommands.NonEmptyOfExcludes | src/runtimes/node/src/features/git.js:475-490 | no `--exclude` argument is dropped by the filter |
| GitCommands.WalkListingOptions | src/runtimes/node/src/features/git.js:405-420 | `walk` passes `others` defaulting to false and `gitignore` defaulting to true, and never `debug` or `status`; every other picked key is passed unchanged |
| GitCommands.WalkListsTrackedFiles | src/runtimes/node/src/features/git.js:405-420 | unless the walk's options set `others`, the listing has neither `--others` nor `--cached` |
| GitCommands.StatusPair | src/runtimes/node/src/features/git.js:443-448 | a porcelain line becomes a non-empty list of blank-free pieces whose reverse, joined with blanks, is the trimmed line: the split of the trimmed line on every blank, reversed |
| GitCommands.SplitCodePath | src/runtimes/node/src/features/git.js:446 | `code path` splits into the code and the path |
| GitCommands.PorcelainLine | src/runtimes/node/src/features/git.js:443-448 | a status line `XY path`, the code possibly led by a blank, gives `[path, code]` |
| GitCommands.StagedOnlyLine | src/runtimes/node/src/features/git.js:442-451 | a line `M  path` gives `[path, "", "M"]`, so the path's status in the table is the empty string |
| GitCommands.FromPairs | src/runtimes/node/src/features/git.js:451 | no pairs give an empty table; the key of the last pair maps to that pair's value |
| GitCommands.FromPairsKeys | src/runtimes/node/src/features/git.js:451 | a key is in `fromPairs` iff some pair starts with it |
| GitCommands.FromPairsLastWins | src/runtimes/node/src/features/git.js:451 | a key's value comes from the last pair that starts with it |
| GitCommands.StatusPairsOf | src/runtimes/node/src/features/git.js:442-450 | one pair per output line, in order; a failed command gives no pairs |
| GitCommands.FilesStatus | src/runtimes/node/src/features/git.js:432-452 | gives a table iff `object` is set, otherwise the pairs; a failed command gives an empty result |
| GitCommands.FilesStatusTable | src/runtimes/node/src/features/git.js:442-451 | with `object: true` the result is the table of the pairs; a path is in it iff some line's pair starts with it, and its status comes from the last such line |
| GitCommands.CloneOptionsOf | src/runtimes/node/src/features/git.js:199-208 | the repository is the string argument or the `repo` option; the folder is a string destination when one is given, else the `folder` option |
| GitCommands.CloneArgs | src/runtimes/node/src/features/git.js:199-212 | git is spawned with `clone`, the repository (a string argument is the URL), and a string destination when one is given, else the `folder` option |
| GitState.Normalize | src/runtimes/node/src/features/git.js:348 | no backslash remains; a path without backslashes is unchanged |
| GitState.NormalizeIdempotent | src/runtimes/node/src/features/git.js:348 | normalising twice is normalising once |
| GitState.DirectoryId | src/runtimes/node/src/features/git.js:364-386 | the directory id has no backslash: for a directory it is its own normalised relative path, otherwise that of its parent |
| GitState.StatTables | src/runtimes/node/src/features/git.js:349-403 | a missing path changes nothing. Otherwise the file id (for a file) and the directory id (when its stat succeeds) join the tables. Only absent keys get new entries and existing entries are never replaced |
| GitState.StatEvents | src/runtimes/node/src/features/git.js:364-400 | an event is emitted exactly for each id that was absent and has just been inserted, and a directory's event comes before a file's |
| GitState.Uniq | src/runtimes/node/src/features/git.js:424 | `uniq` keeps the same elements, each once, in the order of their first occurrences |
| GitState.UniqDistinct | src/runtimes/node/src/features/git.js:424 | a list without repeats is its own `uniq` |
| GitState.NonEmptyPaths | src/runtimes/node/src/features/git.js:425 | keeps exactly the non-empty paths |
| GitState.WalkCandidates | src/runtimes/node/src/features/git.js:422-427 | the visited paths are exactly the non-empty listed ones |
| GitState.WalkTables | src/runtimes/node/src/features/git.js:422-427 | a walk only adds keys, and adds at most one file per visited path |
| GitState.WalkEvents | src/runtimes/node/src/features/git.js:422-427 | each visited path emits at most two events |
| GitState.WalkStep | src/runtimes/node/src/features/git.js:422-427 | visiting one more path is one more `statFile` on the tables and events so far |
| GitState.WalkExtends | src/runtimes/node/src/features/git.js:364-400 | a walk never removes or replaces an existing entry |
| GitState.WalkRecords | src/runtimes/node/src/features/git.js:341-430 | after a walk every existing listed file is in `files`, and every directory whose stat succeeded is in `directories` |
| GitState.GitWorkspace.Exists | src/runtimes/node/src/features/git.js:285-288 | a path exists iff it is a key of `files` or of `directories` |
| GitState.GitWorkspace.ClearState | src/runtimes/node/src/features/git.js:253-259 | each table is emptied unless its option is exactly `false`; with files and directories cleared, `exists` is false for every path |
| GitState.GitWorkspace.StatFile | src/runtimes/node/src/features/git.js:349-403 | the tables and events become those of `StatTables`/`StatEvents`, the status map is unchanged, and an existing file then `exists` |
| GitState.GitWorkspace.StatAll | src/runtimes/node/src/features/git.js:422-427 | statting each path in turn gives the tables and events of `WalkTables`/`WalkEvents` |
| GitState.GitWorkspace.Walk | src/runtimes/node/src/features/git.js:341-430 | runs the listing command for the walk's options; the tables and events follow `statFile` over each non-empty listed path once; every existing listed file then `exists` (`exists`, lines 285-288) |
| GitState.GitWorkspace.UpdateStatus | src/runtimes/node/src/features/git.js:331-339 | the status map becomes the old one overridden by the porcelain table; the walk tables are unchanged |
| GitState.GitWorkspace.SetStatuses | src/runtimes/node/src/features/git.js:334-336 | setting each entry of the table overrides the status map with the table |
| GitState.GitWorkspace.Run | src/runtimes/node/src/features/git.js:265-274 | optionally clears as `clearState`, then walks, then updates the statuses, and the final tables and status map compose those steps |

## Left out

- File system, zlib, process spawning and the runtime's `select('process/output')` are inputs. The `.git` files (object files already inflated), the listed paths and what `stat` says about them, and the porcelain output lines or the failure of the command are parameters.
- `findRepo` is left out: the `.git` directory is given, and its root is a parameter.
- `path.join`, `path.resolve`, `dirname`, `parse` and `runtime.relative` are left out: paths relative to `.git`, and paths already made relative to the project root, are inputs.
- `exists` takes the path already made relative to the project root.
- The first `stat` of a listed path is taken to succeed. A missing path is a path the filesystem map does not hold.
- Only `path` and `relative` of the entries `walk` stores are modelled. The parsed path fields, the stats, the extension and the mime type are not.
- `walk` runs its `statFile` calls concurrently under `Promise.all`. The model runs them in order. Interleaved checks of a missing key may insert and emit twice in the source.
- Promises and asynchrony are not modelled. Each async method is its settled outcome.
- `enable` takes the hook's outcome and whether `applyInterface` throws as inputs. It does not model the following:
  - a hook that throws synchronously or returns a non-promise (a rejection's reason is a string, or missing for `undefined`/`null`);
  - the `debugThisShit` logging;
  - the console and `runtime.error` messages.
- `Helper` base class internals are not part of this model:
  - `tryGet`/`tryResult` are a `Provider` record;
  - `applyInterface` is modelled as `Graft`, without `transformKeys`, `partial`, `insertOptions`, `hidden` or `configurable`;
  - `Helper.attach` is the settings it receives;
  - `createContextRegistry`, `register` and the instance cache are left out.
- `runtime.isFeatureEnabled` and `enabledFeatures` are taken to read `featureStatus`.
- Features.EnableSpec: when `applyInterface` throws part-way through the mixin, the methods already grafted stay on the host in the source; the model keeps the host methods unchanged.
- `Values.DefaultsDeep`: arrays are atoms. lodash merges arrays index by index, and the model does not.
- Strings are sequences of characters, not of UTF-16 code units. `slice`, `indexOf` and the ten-character abbreviated sha agree with JavaScript only on text without characters outside the Basic Multilingual Plane, such as the ASCII text git writes.
- A key present with the value `undefined` is treated as absent throughout. The `undefined` values lodash's `pick` and `defaults` carry are not distinguished.
- GitMeta.CommitForTag: `path.join` drops empty segments, so a tag whose trimmed content has at most two characters makes the object path name a directory (`objects` or `objects/<xx>`). When that directory exists the source then throws `EISDIR` on reading it; the model keeps the tag's content as the commit, since its `.git` map holds files only.
- `GitCommands.CloneArgs`: does not model that `clone` writes the destination into the caller's options object.
- `lsFiles`'s `env`, `cwd` and `maxBuffer` only configure the process and are left out. So is its empty-string result on failure, since `walk` treats it as an empty listing.
- The following are left out as process handling, I/O or runtime glue outside this model: `init`, `poll`, `stopPolling`, `walker`, `toJSON`, `toFileId`, `setInitialState`, `runMethod`, the `runtimeMethods` getter, the `getGitInfo` host method, and the `isDirty`/`modifiedFiles`/`fileIds`/`directoryIds` getters.
