# front-build: the Page lifecycle and the concat plugin, in Dafny

This project models two parts of the front-build tool.

- **The `Page`** (`lib/page.js`). It covers:
  - parsing `name@version` strings;
  - checking a version string and scaffolding a version directory (`addVersion`);
  - activating a version (`setVersion`, `_loadPlugins`, `use`);
  - the build: its preconditions, creating the staging directories, the fail-fast plugin runner `_build`, and the clean-up in `_endBuild` that also writes the manifest.
- **The concat plugin** (`lib/plugins/concat.js`). It derives concatenation jobs from `config.concat` and `config.fileFormat`. For each job it writes every input file's content followed by the line end.

## How it is modelled

- **The file system** is a map from paths to nodes (directories and files), stored in the `FileSystem.Disk` class.
  - A path is a sequence of component names.
  - `FileSystem.Join` stands for `path.resolve(dir, name)`.
  - Each file-system primitive is a step function (`MkdirStep`, `WriteStep`, `AppendStep`, `RemovedTree`, `CopiedTree`) plus a `Disk` method that applies it.
- **The callback sequences** of the source (`async.series`, `async.forEach`, `async.forEachSeries`) become pure specification functions, in `PageLifecycle` and `Concat`. Each maps the nodes before to an outcome and the nodes after. Examples: `AddVersionSpec`, `StartBuildSpec`, `EndBuildSpec`, `BuildStagesSpec`, `ConcatJobStep`, `RunJobs`.
  - The imperative methods of `PageLifecycle.Page` and `Concat` work step by step on the `Disk`. They are proved to produce exactly what these functions say.
  - The lemmas in `PageLemmas` and `Concat` state what the sequences guarantee.
- **The pure logic** lives in `PageVersion`: the version parser, the version check and the launcher templates.
  - Both regular expressions become deterministic matchers.
  - Both matchers are proved to accept exactly the strings described by `DottedNumeric`.

### Behaviours reproduced as the code does them

- **The merge in `addVersion` is the parsed file only.** It names `self.confg`, a field that does not exist, so the result is the parsed file's content and nothing else (`lib/page.js:121`).
- **`setVersion` assigns before it checks.** It sets `version`, `name_version` and `versionDir` before checking that the directory exists.
- **`_loadPlugins` appends on every activation.** It adds six plugins to whatever is already registered.
- **An unrecognised `fileFormat` gives `"\n"`.** The lookup returns `undefined`, and `doConcat` then falls back to `"\n"`.
- **Only a falsy `config.concat` exits the plugin early.** The test `!config.concat.length === 0` compares a boolean with a number, so it never holds.
- **Only a missing version exits the process.** An empty version calls `process.exit(3)`; a malformed one is passed to the callback as an error (`lib/page.js:70-78`).

## Model

| member | source | states |
|---|---|---|
| Json.Extend | lib/page.js:197 | the result has the keys of both maps; the new keys win; the other old keys stay |
| Json.Defaults | lib/page.js:121 | an `undefined` source leaves the object unchanged; otherwise the source fills in only the keys the object lacks |
| FileSystem.RemovedTree | lib/page.js:353-355 | a path remains exactly when it was present and does not lie at or beneath the root; nodes that remain are unchanged |
| FileSystem.CopiedTree | lib/page.js:317-326 | every node strictly beneath `from` is copied to the same relative place beneath `to`; nodes not strictly beneath `to` are kept; no other path appears |
| PageVersion.ParsePageVersion | lib/page.js:45-59 | `parsePageVersion`: split at the first separator, name checked against `\w[\w\-~]*` and version against the version group; its meaning is stated by ParseMatchesPattern and ParseNullIffNoMatch |
| PageVersion.AcceptedVersion | lib/page.js:75-78 | the test `^(\d+\.)+\d+$` as a matcher; AcceptedIsDottedNumeric states the language it accepts |
| PageVersion.ShLauncher | lib/page.js:135-152 | the `fb-build.sh` template with the page's name and version filled in; ShArgument states its build argument |
| PageVersion.BatLauncher | lib/page.js:154-172 | the `fb-build.bat` template with the page's name and version filled in; BatArgument states its build argument |
| PageVersion.VersionGroupIsDottedNumeric | lib/page.js:46 | the version group `\d+(\.\d+)+` accepts exactly two or more dot-separated digit runs |
| PageVersion.AcceptedIsDottedNumeric | lib/page.js:75 | the `addVersion` test `^(\d+\.)+\d+$` accepts exactly two or more dot-separated digit runs |
| PageVersion.AcceptedIsVersionGroup | lib/page.js:75 | the `addVersion` test and the version group of `parsePageVersion` describe the same language |
| PageVersion.SplitFirstGroup | lib/page.js:75 | a digit-group string splits at the end of its first digit run into that run, a dot and another digit-group string, or is all digits |
| PageVersion.FirstSeparatorAfterName | lib/page.js:46 | after a valid name followed by a separator, the first `@`, `/` or `\` is the one after the name |
| PageVersion.ParseMatchesPattern | lib/page.js:45-59 | `parsePageVersion` returns `{name, version}` exactly when the input is a valid name, one separator and a dotted-numeric version |
| PageVersion.ParseNullIffNoMatch | lib/page.js:45-59 | `parsePageVersion` returns null exactly when no name, separator and version split of the input matches |
| PageVersion.ParseJoined | lib/page.js:46 | a valid name, any of the three separators and a dotted-numeric version parse back to that name and version |
| PageVersion.ShArgument | lib/page.js:138 | the build argument in the POSIX launcher is `name/version` |
| PageVersion.BatArgument | lib/page.js:157 | the build argument in the Windows launcher is `name@version` |
| PageVersion.LauncherRoundTrip | lib/page.js:135-172 | for a valid name and an accepted version, the argument of each launcher parses back to the same name and version |
| PageLifecycle.FreshDirStep | lib/page.js:364-371 | `_makeTempDir`: remove the tree at the path when it exists, then `mkdir`; FreshDirEffect states its effect |
| PageLifecycle.AttemptAll | lib/page.js:214-229 | `async.forEach` over directories: every step attempted, the first error in list order reported; EnsureAllEffect and StagingEffect state its effect |
| PageLifecycle.EnsureInSeries | lib/page.js:329-343 | `async.forEachSeries` creating directories that are absent, stopping at the first error; EnsureSeriesEffect and EnsureInSeriesStops state its effect |
| PageLifecycle.WriteConfigStep | lib/page.js:106-127 | the config step of `addVersion` for an absent, a parsed and an unparsable file; ConfigChoice and AddVersionConfig state its cases |
| PageLifecycle.ScaffoldSpec | lib/page.js:89-174 | the `async.series` of `addVersion` after validation: directories, subdirectories, config, rewrite, both launchers, each after the previous succeeded; the ScaffoldKeep, ScaffoldCreates and ScaffoldNoop rows state its effect |
| PageLifecycle.AddVersionSpec | lib/page.js:64-175 | `addVersion`: the exit, the validation, then the scaffold; the AddVersion rows of `PageLemmas` state its effect |
| PageLifecycle.StartBuildSpec | lib/page.js:298-345 | `_startBuild`: both staging directories recreated, the version tree copied into the source one, then the timestamp directories in series; StartBuildStages and StartBuildFresh state its effect |
| PageLifecycle.Manifest | lib/page.js:357-361 | the manifest fields `build_version`, `build_time` and `build_used_time` |
| PageLifecycle.EndBuildSpec | lib/page.js:347-362 | `_endBuild`: publish the destination staging tree, remove both staging trees, write the manifest; EndBuildCleans states its effect |
| PageLifecycle.BuildStagesSpec | lib/page.js:273-296 | the series of `build`: start, plugins until the first failure, then the end only after all succeeded; BuildStagesEffect states its effect |
| PageLifecycle.FirstFailure | lib/page.js:290-296 | the index returned is that of the first failing plugin: every earlier plugin succeeded and the one at the index failed, or none failed |
| PageLifecycle.FirstFailureAt | lib/page.js:290-296 | a failure preceded only by successes is the first failure |
| PageLifecycle.EffectiveCharset | lib/page.js:199-200 | a truthy configured charset is used, otherwise the page charset, so the result is never falsy |
| PageLifecycle.EnsureInSeriesStops | lib/page.js:333-342 | once a directory creation fails, the later directories of the series change nothing |
| PageLifecycle.Page.constructor | lib/page.js:17-35 | the page starts with the default charsets config, no plugins, no version, and staging directories `page_src_temp` and `page_build_temp` under its root |
| PageLifecycle.Page.AddVersion | lib/page.js:64-175 | outcome, nodes, config and `versionDir` are those that `AddVersionSpec` gives for the old state |
| PageLifecycle.Page.WriteConfig | lib/page.js:106-127 | an absent config file is written from the page config; an unparsable one fails with nothing changed; a parsed one becomes the config and is rewritten |
| PageLifecycle.Page.WriteLauncher | lib/page.js:135-172 | a launcher is written only when nothing exists at its path |
| PageLifecycle.Page.ForEachDir | lib/page.js:214-229 | every directory step is attempted in list order, and the outcome is the first error |
| PageLifecycle.Page.DirectoryStep | lib/page.js:214-229 | one step of a directory loop: create when absent, or recreate as `_makeTempDir` does, as `DirStep` gives |
| PageLifecycle.Page.MakeTempDir | lib/page.js:364-371 | an existing tree at the path is removed, then the directory is created |
| PageLifecycle.Page.EnsureDirsInSeries | lib/page.js:329-343 | directories are created if absent, one after another, stopping at the first error |
| PageLifecycle.Page.SetVersion | lib/page.js:182-205 | `version`, `name_version` and `versionDir` are set first. A missing directory or an unreadable config fails with the config, charsets and plugins unchanged. Otherwise the config is extended by the file's keys, each charset is the configured value or `utf8`, and the six plugins are appended |
| PageLifecycle.Page.LoadPlugins | lib/page.js:231-256 | appends module-compiler, css-combo, lesscss, concat, uglifyjs and cssmin, in that order, to the existing plugins |
| PageLifecycle.Page.Use | lib/page.js:377-389 | a non-function is ignored; a function is appended at the end |
| PageLifecycle.Page.RunPlugins | lib/page.js:290-296 | with `k` the first failing plugin, the outcome is that plugin's error and exactly `k + 1` plugins ran; when none fails, the outcome is success and all of them ran |
| PageLifecycle.Page.Build | lib/page.js:258-288 | no version, or no timestamp, fails with no change to the disk or the timestamp fields; otherwise the timestamp fields are set and the run is the one that `BuildStagesSpec` gives |
| PageLifecycle.Page.RunStages | lib/page.js:273-287 | staging, plugins and publishing run as `BuildStagesSpec` gives: each stage runs only after the previous one succeeded |
| PageLifecycle.Page.StartBuild | lib/page.js:298-345 | the nodes and outcome are those that `StartBuildSpec` gives |
| PageLifecycle.Page.EndBuild | lib/page.js:347-362 | the nodes and outcome are those that `EndBuildSpec` gives, with the manifest of this version |
| PageLemmas.EnsureAllEffect | lib/page.js:214-229 | creating directories if absent changes no existing node, adds only the listed paths as directories, fails only with a file-system error, and on success leaves every listed path present |
| PageLemmas.EnsureAllPresent | lib/page.js:219-223 | when every directory exists already, `_initDirs` changes nothing and succeeds |
| PageLemmas.LaunchersOutcomes | lib/page.js:129-172 | the last three steps end with success or a file-system error |
| PageLemmas.ConfigOutcomes | lib/page.js:106-172 | from the config step on, the outcome is success, the JSON format error, or a file-system error |
| PageLemmas.ScaffoldOutcomes | lib/page.js:89-174 | the whole scaffold ends with success, the JSON format error, or a file-system error |
| PageLemmas.AddVersionValidation | lib/page.js:70-80 | an empty version exits with code 3 and an unaccepted one fails with the version error, both before any file-system step and with the page unchanged; an accepted version sets `versionDir` |
| PageLemmas.ScaffoldPathsDistinct | lib/page.js:80-87 | the config file, the two launchers, the version directory and its subdirectories are pairwise distinct paths |
| PageLemmas.LauncherKeeps | lib/page.js:139-143 | a launcher step changes no existing node and can add only its own file |
| PageLemmas.LaunchersKeep | lib/page.js:129-172 | the last three steps change no existing node except the config file, and add only the config file and the launchers |
| PageLemmas.LaunchersWrite | lib/page.js:129-172 | on success the config file holds the config, and each launcher exists, with its template wherever it was absent |
| PageLemmas.ConfigKeep | lib/page.js:106-172 | from the config step on, no existing node changes except the config file, and only files of the version appear |
| PageLemmas.ConfigChoice | lib/page.js:109-123 | an absent file keeps the page config; a parsed file becomes the config; an unparsable file fails with nothing changed |
| PageLemmas.ConfigWrite | lib/page.js:106-132 | on success the config file holds the resulting config and both launchers exist |
| PageLemmas.DirsKeep | lib/page.js:90-104 | the two directory steps change no existing node and add only the version directory and its subdirectories, as directories |
| PageLemmas.ScaffoldKeep | lib/page.js:89-174 | the scaffold changes no existing node except the config file, and adds only paths of the version's scaffold |
| PageLemmas.ScaffoldConfig | lib/page.js:106-127 | the config the scaffold leaves; with an unparsable file it fails, the config is untouched and only directories were added |
| PageLemmas.ScaffoldCreates | lib/page.js:89-174 | a successful scaffold leaves the version directory, the subdirectories, the config file and both launchers in place |
| PageLemmas.AddVersionKeepsExisting | lib/page.js:89-174 | `addVersion` creates only what is missing: no existing node changes except the config file, and every new path is part of the scaffold |
| PageLemmas.AddVersionCreates | lib/page.js:89-174 | after a successful `addVersion`, the version directory and its subdirectories exist, the config file parses to the page config, and both launchers exist |
| PageLemmas.AddVersionConfig | lib/page.js:109-132 | an absent config file is written from the in-memory config; a parsed one makes the config exactly its content and keeps the file; an unparsable one fails, the config is untouched and no file is written |
| PageLemmas.LaunchersNoop | lib/page.js:129-172 | once the config file and the launchers exist, the last three steps change nothing |
| PageLemmas.ConfigNoop | lib/page.js:106-172 | once the config file parses to the config and the launchers exist, the remaining steps change nothing |
| PageLemmas.ScaffoldNoop | lib/page.js:89-174 | a version that is already scaffolded is left exactly as it is |
| PageLemmas.AddVersionIdempotent | lib/page.js:64-175 | running `addVersion` again on the result of a successful run changes nothing |
| PageLemmas.SiblingsDisjoint | lib/page.js:31-32 | two differently named children of one directory are disjoint, so neither staging directory lies within the other |
| PageLemmas.FreshDirEffect | lib/page.js:364-371 | on success the path is a directory, and an empty one whenever nothing lay beneath it without it, so nothing of an earlier tree survives; nothing outside it changes; no other path appears |
| PageLemmas.StagingEffect | lib/page.js:305-312 | on success both staging directories are directories, and both are empty; nothing outside them changes; no other path appears |
| PageLemmas.StartBuildStages | lib/page.js:298-345 | on success both staging directories and the timestamp directories exist, and the source staging directory holds a copy of every node beneath the version directory |
| PageLemmas.CopyIntoEmpty | lib/page.js:317-326 | copying the version tree into the emptied source staging directory puts only copies of version nodes beneath it and leaves the destination staging directory empty |
| PageLemmas.StartBuildFresh | lib/page.js:298-345 | staging directories are never reused: after a successful start the destination staging directory is empty and everything beneath the source staging directory is a copy of a node beneath the version directory |
| PageLemmas.EnsureSeriesEffect | lib/page.js:329-343 | creating directories in series changes no existing node, adds only listed paths, and on success leaves all of them present |
| PageLemmas.EndBuildCleans | lib/page.js:347-362 | nothing remains within either staging directory; nodes outside the staging and timestamp directories are unchanged; on success the manifest is written and the destination staging tree is published beneath the timestamp directory |
| PageLemmas.BuildStagesEffect | lib/page.js:273-296 | a staging failure runs no plugin; a plugin failure stops there and leaves both staging directories; after all plugins succeed the staging trees are gone and, on success, the manifest is in place |
| FileSystem.Disk.Mkdir | lib/page.js:97 | `fs.mkdir` in place: the outcome and nodes that `MkdirStep` gives |
| FileSystem.Disk.WriteFile | lib/page.js:144 | `fs.writeFile` and `writeJSON` in place: the whole file replaced where its parent is a directory, as `WriteStep` gives |
| FileSystem.Disk.Append | lib/plugins/concat.js:44-47 | a write on the open output stream in place, as `AppendStep` gives |
| FileSystem.Disk.RemoveTree | lib/page.js:367 | `rmTreeSync` in place, as `RemovedTree` gives |
| FileSystem.Disk.CopyTree | lib/page.js:317-326 | the converting copy in place, as `CopiedTree` gives |
| Concat.Separator | lib/plugins/concat.js:23 | the job's line end, or `"\n"` when it is undefined or empty; SeparatorSelection states the separator each format selects |
| Concat.KeptFiles | lib/plugins/concat.js:85-93 | the filter and map of one list; KeptFilesMembers, KeptFilesAppend and KeptFilesBeneath state what it keeps |
| Concat.JobFor | lib/plugins/concat.js:79-105 | the `_.each` callback for one entry; JobForWhen states when it yields a job |
| Concat.JobsFrom | lib/plugins/concat.js:79-105 | the jobs of a list of entries in entry order; JobsFromAppend and DerivedJobsWellFormed state its properties |
| Concat.PluginJobs | lib/plugins/concat.js:63-105 | the jobs the plugin derives from a page's config; NoConcatNoJobs and PluginJobsWellFormed state its properties |
| Concat.ConcatOutput | lib/plugins/concat.js:37-50 | the expected output: each content followed by the separator; ConcatOutputSnoc and ConcatExample state its shape |
| Concat.ConcatSteps | lib/plugins/concat.js:37-59 | the per-file series of `doConcat`; ConcatStepsOutcome and ConcatStepsNodes state its effect |
| Concat.ConcatJobStep | lib/plugins/concat.js:20-61 | `doConcat` for one job; ConcatJobOutput and ConcatJobFrame state its effect |
| Concat.RunJobs | lib/plugins/concat.js:107 | the run of all jobs, the first error reported; RunJobsFrame and RunJobsOutputs state its effect |
| Concat.LineEndFor | lib/plugins/concat.js:68-70 | an absent or falsy format selects `"\n"`; the lookup is undefined exactly for a truthy format that the table does not have |
| Concat.SeparatorSelection | lib/plugins/concat.js:13-23 | `dos` gives `"\r\n"` and `mac` gives `"\r"`; `unix`, an absent format or an unrecognised one gives `"\n"` |
| Concat.ShortCircuits | lib/plugins/concat.js:73-76 | the plugin exits early exactly when `config.concat` is falsy |
| Concat.NoConcatNoJobs | lib/plugins/concat.js:73-79 | with a falsy `concat`, or one that is not an object, no job is derived |
| Concat.TrimEmptyIffBlank | lib/plugins/concat.js:88 | `file.trim().length > 0` holds exactly when the string has a character that is not white space |
| Concat.KeptFilesAppend | lib/plugins/concat.js:85-93 | filtering a list made of two parts gives the two filtered parts, joined in order |
| Concat.KeptFilesMembers | lib/plugins/concat.js:85-93 | a path is kept exactly when it is a non-blank string entry of the list, resolved against `srcDir` |
| Concat.KeptFilesBeneath | lib/plugins/concat.js:90-92 | every kept file is one component beneath `srcDir` |
| Concat.JobForWhen | lib/plugins/concat.js:79-105 | an entry yields a job exactly when it has a non-empty name, an array list, and a non-blank string in that list |
| Concat.JobsFromAppend | lib/plugins/concat.js:79-105 | jobs come in entry order: the jobs of two parts of the entries are the jobs of each part, in order |
| Concat.DeriveJobs | lib/plugins/concat.js:72-105 | the `_.each` loop pushes exactly the jobs that `JobsFrom` gives, in entry order |
| Concat.DerivedJobsWellFormed | lib/plugins/concat.js:95-104 | every derived job has a non-empty file list, an output one component beneath `destDir`, inputs beneath `srcDir`, and the shared line end |
| Concat.PluginJobsWellFormed | lib/plugins/concat.js:26-29 | every job of a page's plugin run is well formed, so the `file missing` guard is never reached from the plugin, and no job writes an input of itself or of another job |
| Concat.FirstUnreadable | lib/plugins/concat.js:41-42 | the index returned is that of the first input that is not a readable text file |
| Concat.TextsOf | lib/plugins/concat.js:41-42 | the contents of the readable inputs before the first unreadable one, in order |
| Concat.ConcatStepsOutcome | lib/plugins/concat.js:37-59 | the per-file series fails exactly at the first unreadable input |
| Concat.ConcatStepsNodes | lib/plugins/concat.js:37-50 | the per-file series appends each readable content followed by the separator to the output, and changes nothing else |
| Concat.ConcatMeaning | lib/plugins/concat.js:31-50 | after truncation, the output ends up holding the expected concatenation, and the series fails exactly at the first unreadable input |
| Concat.ConcatJobOutput | lib/plugins/concat.js:20-61 | a job either fails to open its output with nothing changed, or replaces the output with the contents followed by separators and fails exactly at an unreadable input |
| Concat.ConcatOutputSnoc | lib/plugins/concat.js:44-47 | the separator follows every content, the last one included |
| Concat.ConcatExample | lib/plugins/concat.js:37-50 | `"A"` and `"B"` give `"A\nB\n"` with `unix` and `"A\r\nB\r\n"` with `dos` |
| Concat.DoConcat | lib/plugins/concat.js:20-61 | the state and outcome are those that `ConcatJobStep` gives; for a non-empty job whose output is writable and not one of its inputs, the output is replaced by the expected concatenation and nothing else changes |
| Concat.ConcatStepsFrame | lib/plugins/concat.js:37-59 | the per-file series changes no path but its output |
| Concat.ConcatJobFrame | lib/plugins/concat.js:20-61 | a job changes no path but its output |
| Concat.RunJobsFrame | lib/plugins/concat.js:107 | a run of jobs changes no path other than the jobs' outputs |
| Concat.InputsUntouched | lib/plugins/concat.js:107 | a run of jobs leaves the inputs that none of them writes as they were |
| Concat.RunJobsOutputs | lib/plugins/concat.js:107 | jobs do not interfere: after a successful run of jobs with inputs, distinct outputs and no output among any job's inputs, each output holds the concatenation of its inputs as they were before the run |
| Concat.RunPlugin | lib/plugins/concat.js:63-109 | the plugin runs exactly the jobs derived from the page config, one after another, reporting the first error; a falsy `concat` changes nothing and succeeds; when the derived outputs are distinct, success leaves every output holding the concatenation of its inputs as they were before the run |

## Left out

- **Real I/O.** The real `fs`, `path.exists`, streams and `chmod` calls are left out. Only the resulting directory set and file contents are modelled. Launcher scripts are not marked executable.
- **Charset transcoding.** `iconv-lite`, `fu.iconv` and `fu.iconvDir` are modelled as plain tree copies (`CopiedTree`).
- StartBuildSpec / EndBuildSpec: the copies are taken never to fail; the error that `fu.iconv` can hand to its callback (`lib/page.js:317-326`) and any failure of `fu.iconvDir` (`lib/page.js:351`) are not modelled.
- **File utilities.** The bodies of `fu.readJSON`, `fu.writeJSON` and `fu.rmTreeSync` are not part of this model. A JSON file is a node holding a JSON object, and any other file holds text that does not parse.
- **Third-party plugins.** The five other plugins (module-compiler, css-combo, lesscss, uglifyjs, cssmin) are registered with their options. Their transforms are not modelled: `build` takes the result each plugin reports as a parameter.
- **The concat plugin inside `build`.** Inside `build` the concat plugin is also an opaque step. Its behaviour is modelled separately by `Concat.RunPlugin`.
- **Concurrency.** `async.forEach` over the staging directories (`lib/page.js:307`), over the subdirectories (`lib/page.js:215`) and over the concat jobs (`lib/plugins/concat.js:107`) starts every step at once. The model runs the steps in list order and reports the first error in list order. Interleavings are not modelled, nor is the race between two jobs that share an output.
- **Clocks.** `Date` is not modelled: `build_time` and `build_used_time` are parameters of `Build`.
- **Console output.** Console logging is left out.
- **`path.resolve`.** Absolute-path semantics are not modelled. `Join` adds one component for a non-empty name and none for an empty one. A name that contains `/` or `..` stays a single component.
- **The `rootDir` guard of `addVersion`.** The guard at `lib/page.js:66-69` can never trigger, because the constructor always resolves `rootDir` to a path, so it is not modelled.
- **`updateVersion`** is an empty TODO (`lib/page.js:210-212`). It is not modelled.
- **Missing concat inputs.** A concat input that is missing ends its job with an `Unreadable` error. In the source, `readFile`'s error is ignored and the read stream's unhandled error ends the process.
- FirstUnreadable: a file holding a JSON document (such as the copied `fb.page.json`) counts as unreadable, although the source reads any existing file byte for byte; the model does not fix the bytes `writeJSON` produces for a document.
- TextsOf: gives no contents for a file holding a JSON document, for the same reason, so a job naming one fails with `Unreadable` where the source concatenates it.
- ConcatJobStep: an output that cannot be opened ends the job with `IOFailure` and the other jobs still run; in the source the write stream's `error` event has no listener (`lib/plugins/concat.js:31-33`) and the process ends.
- RunPlugin: for the same reason a run whose output cannot be opened reports an error instead of ending the process; the output contents are stated only for derived jobs with distinct outputs.
- LineEndFor: a `fileFormat` naming an inherited property such as `constructor` or `toString` gives `"\n"`; in the source the lookup yields a function and `new Buffer` throws (`lib/plugins/concat.js:24`).
- **Backpressure.** The `drain` wait after each separator write and the backpressure are not modelled. Each write is taken to complete before the next file.
- **The `file missing` guard.** `doConcat`'s guard at `lib/plugins/concat.js:26-29` calls `console.warning`, which does not exist. It is modelled as success with no change. `Concat.PluginJobsWellFormed` proves that the plugin entry never reaches it.
- **Concat.DoConcat / Concat.ConcatJobOutput:** these state the output contents only for a job whose output is not one of its own inputs. The contents for a job that reads its own output are given only through `ConcatJobStep`.
- **Array-valued `concat`.** An array yields no job in the model. In the source, `_.each` passes each index as the key: index 0 is falsy and skipped, and any other index is a number that `path.resolve` ignores, so the output resolves to `destDir` itself, a directory whose write stream fails with no error listener, ending the process.
- **Odd `concat` values.** A `concat` value that is truthy but not an object yields no job. In the source, `_.each` over a string visits its characters, and a number visits nothing. An object with a numeric `length` key is treated by `_.each` as array-like; the model visits its entries as an object.
- **Odd file-list values.** A list value that is not an array yields no job. In the source, a plain object list throws at `.filter`, and a string list is used as a sequence of characters.
- **Key order.** Objects keep their entries in the order given. JavaScript's ordering of integer-like keys first is not modelled, nor are duplicate keys or keys inherited from `Object.prototype`.
- **A non-string `fileFormat`.** It is treated as one the table lacks, so the separator is `"\n"`.
- **Disjoint-path hypotheses.** `setVersion` and `build` do not validate the version or timestamp against the staging directory names. So the build lemmas (`StartBuildStages`, `StartBuildFresh`, `EndBuildCleans`, `BuildStagesEffect`) assume that the version and timestamp directories are disjoint from the staging directories.
- **Orphan nodes.** The emptiness of recreated staging directories (`FreshDirEffect`, `StagingEffect`, `StartBuildFresh`) is stated for file systems where nothing lies beneath a path that does not exist (`Rooted`), as on every real file system.
- Defaults: only its `undefined` case is used by the page (`lib/page.js:121`); the case of a defined source fills keys that are absent, and underscore releases that also fill keys holding `null` are not modelled.
- **White space.** `IsJsWhitespace` is the set that `trim` strips in the JavaScript engines of this code's era, U+180E included.
- **Numbers.** JSON numbers are integers only; floating point is not modelled.
