# Project materialisation engine, modelled in Dafny

The repository turns a JSON "project structure" into files on disk. The
payload holds a language, a runtime, an optional session id, a folder tree
and a list of code files with escaped source text. The engine then:

1. validates the payload;
2. picks the session directory `<outputDir>/<sessionId>`, with a random
   `sess_…` id when none is given;
3. scaffolds the folder tree, creating empty placeholder files;
4. writes every code file after unescaping its source.

A file that already exists is digest-gated:
- an unchanged digest means it is skipped;
- a changed digest means it is first copied under `<sessionDir>/.backup/`.

The engine keeps four lists: tagged info logs, tagged error logs, created
directories and created files. It returns them in a result record.

This model covers all of the following:
- the two engine classes, `src/core/engine2.ts` and its compiled sibling
  `dist/core/engine.js`;
- the stand-alone script `src/create-code-output.ts`, whose compiled twin is
  `dist/create-code-output.js`;
- the change-set manager `src/core/engine.ts`, which applies added, modified
  and deleted file lists after the code files;
- the command-line front ends: `src/cli.ts`, `src/cli-new.ts` and
  `dist/src/cli.js`. They parse `--file` and `--session-id`, override the
  payload's id, run the engine and keep a digest-gated copy of the input
  `data.json` in the session directory.

How the model is built:
- **File system.** A map from paths (`seq<string>` of segments) to
  directories and files. Every mutation returns either a new map or an
  error.
- **Injected failures.** A mutation (mkdir, write, copy destination,
  unlink) whose target is in a set of faulty paths fails; this stands for
  permissions, a full disk and the like. Reads are not affected by the set:
  reading fails only on a missing path or a directory.
- **Digest.** SHA-256 is an uninterpreted function `hash: string -> string`.
- **Randomness.** `Math.random` is a function `draw: nat -> string`. Draw
  `k` is the `k`-th call in one engine call.
- **Variants.** The three engine variants (engine2, the compiled engine and
  the script) share one definition (`Engine.Materialize`), parameterised by
  a `Config`:
  - where the root node goes: the session directory itself (engine2) or a
    child named after the root (compiled engine, script);
  - whether a session id is required (script);
  - digest-gated backups;
  - the `overwrite` flag;
  - the source decoder.

  The change-set manager (`Manager.RunChangeSet`) does not go through
  `Engine.Materialize`. It has its own fail-fast validation and phases, and
  it has no scaffolding step. For its code files it reuses `Engine.WriteAll`
  and `Engine.Backup` with `ManagerConfig`, which backs up every existing
  target unconditionally; the root placement in that configuration is
  never consulted.

Modules:
- `Common`: options and small string helpers.
- `Paths`: splitting, the `ROOT/` prefix and backups.
- `Codec`: the unescaper and its corrected one-pass sibling.
- `Project`: the payload and its validation.
- `FileSystem`
- `Engine`
- `EngineProps`: whole-run properties.
- `ScaffoldProps`: the order and completeness of what scaffolding records.
- `Variants`: the engine classes and the script.
- `Manager`
- `Cli`

## Model

| member | source | states |
|---|---|---|
| Codec.Unescape | src/core/engine2.ts:169-175 | The five global replacements never lengthen the text, and text without a backslash is returned as is |
| Codec.UnescapeLeavesNoEscapes | src/core/engine2.ts:169-175 | After unescaping, no backslash is directly followed by `n`, `t` or `r`, whatever the input |
| Codec.UnescapeCanLeaveEscapedQuote | src/core/engine2.ts:172-173 | The same does not hold for the quote: an escaped backslash before a quote leaves backslash-quote in the output |
| Codec.UnescapeSample | src/core/engine2.ts:170 | An escaped newline in the payload becomes a real newline |
| Codec.UnescapeEscapedBackslashR | src/core/engine2.ts:173-174 | An escaped backslash followed by `r` is decoded twice and ends up as a carriage return |
| Codec.UnescapeBreaksRoundTrip | src/core/engine2.ts:169-175 | Escaping the two characters backslash-n and then unescaping gives backslash-newline, not the original text |
| Codec.DecodeOnePassRoundTrip | src/core/engine2.ts:169-175 | The corrected single-pass decoder inverts escaping for every string |
| Codec.Decode | dist/core/engine.js:152-158 | Either decoder never lengthens its input and leaves backslash-free text unchanged |
| Paths.StripRootMarker | src/core/engine2.ts:139 | A leading `ROOT/` or `ROOT\` is removed exactly, and any other path is kept unchanged |
| Paths.StripRootMarkerExact | src/core/engine2.ts:139 | Only one leading marker with a separator is removed; bare `ROOT` and `ROOTS/…` are kept |
| Paths.RootMarkerResolvesSame | src/core/engine2.ts:139-140 | A declared path with the `ROOT/` or `ROOT\` prefix resolves to the same target as the path without it |
| Paths.Resolve | src/core/engine2.ts:140 | In the model, where `..` and `.` are ordinary segments, a code file's target begins with the session directory's segments |
| Project.Validate | src/core/engine2.ts:52-77 | The problems reported are exactly the failing checks, in source order |
| Project.ValidateFieldByField | src/create-code-output.ts:39-68 | Validation passes iff every check passes; each field's message is present iff that field is falsy (session id only when required) |
| Project.ValidationReportsEachMissingField | dist/core/engine.js:44-67 | A field is never reported both missing and of the wrong type, and the count of problems equals the count of falsy fields when types are right |
| Project.Failing | src/core/engine2.ts:53-73 | Filtering the ordered check list keeps exactly the failing checks, still in order |
| FileSystem.FileDigest | src/core/engine2.ts:80-88 | A missing path digests to the empty string, a file to the hash of its content; reading a directory fails |
| FileSystem.MkdirP | src/core/engine2.ts:95-98 | Recursive mkdir fails only through a file on the way or a fault; otherwise every prefix is a directory and nothing else changes |
| FileSystem.WriteFile | src/core/engine2.ts:163 | A write succeeds iff the parent is a directory and the target is not one; only the target changes |
| FileSystem.CopyFile | src/core/engine2.ts:132 | A copy adds or replaces only the destination, with the source's content |
| FileSystem.Unlink | src/core/engine.ts:233-234 | Unlinking removes exactly one existing file |
| Engine.RandomSessionId | src/core/engine2.ts:177-179 | Every generated id starts with `sess_` |
| Engine.OutputDir | src/core/engine2.ts:196 | The root path wins, then `OUTPUT_DIR`, then `generatedOutput`, each only when truthy |
| Engine.EnsureDir | src/core/engine2.ts:142-147 | An existing directory changes nothing; an absent one is created and recorded, with exactly one log line naming it when announced and none otherwise (the mirrored backup directory), and only its prefixes are added |
| Engine.BackupDirs | src/core/engine2.ts:118-131 | After a success, `.backup` and the mirrored parent directory exist; only directories are added, and no file is recorded |
| Engine.Backup | src/core/engine2.ts:118-135 | The backup under `.backup/` holds the old content and is recorded; nothing outside the backup area changes |
| Engine.Scaffold | src/core/engine2.ts:90-116 | After scaffolding, every directory and file node of the tree exists under its path; existing entries are never touched, and every recorded path was absent before |
| Engine.Placeholder | src/core/engine2.ts:110-114 | An existing entry is left alone and nothing is logged; an absent path becomes an empty file and is recorded |
| ScaffoldProps.ScaffoldRecordsInOrder | src/core/engine2.ts:90-116 | The recorded directories and files are subsequences of the depth-first traversal, children in declared order: a directory node's path, a file node's parent and the file itself |
| ScaffoldProps.ScaffoldRecordsCreated | src/core/engine2.ts:94-114 | Every entry the scaffold creates is a recorded file, a recorded directory, or an ancestor `mkdir -p` made for a recorded directory |
| ScaffoldProps.ScaffoldAccountsForTree | src/core/engine2.ts:90-116 | After a successful scaffold, every node path of the traversal that was absent before is recorded, or was made on the way to a recorded directory |
| ScaffoldProps.IntermediateDirectoryNotRecorded | src/core/engine2.ts:94-101 | A directory that `mkdir -p` made for an earlier sibling (`x` for `x/y`) already exists when its own node comes, so it is never recorded |
| Engine.ScaffoldChildren | src/core/engine2.ts:100-102 | Each child's subtree exists under the child's own name; existing entries are kept |
| Engine.WriteTarget | src/core/engine2.ts:163-165 | A write leaves the decoded source at the target and records the target |
| Engine.BackupThenWrite | src/core/engine2.ts:152-154 | A modified file is backed up with its old content, then overwritten; both paths are recorded, backup first |
| Engine.WriteIfChanged | src/core/engine2.ts:149-158 | After the digest gate the target's digest equals the decoded source's digest |
| Engine.PlaceCodeFile | src/core/engine2.ts:149-165 | Once placed, the target is a file with the decoded source's digest, and only the target and the backup area change |
| EngineProps.PlaceCodeFileClassifies | src/core/engine2.ts:149-165 | An absent target is written with no backup; an examined existing file is kept when the digest matches, otherwise backed up with its old content and rewritten; a directory in its place stops the run |
| Engine.WriteCodeFile | src/core/engine2.ts:138-165 | Processing one code file leaves its parent directory and the target in place with the decoded source's digest, and touches only that target and the backup area |
| Engine.WriteAll | src/core/engine2.ts:137-167 | After all code files, every target is a file; only targets and the backup area changed |
| Engine.RootPath | dist/core/engine.js:78 | The root node sits at the session directory in engine2 (line 92 of `src/core/engine2.ts`), and in the compiled engine under the session directory at exactly the root name's segments |
| Engine.Targets | src/core/engine2.ts:138-140 | The set of targets is exactly the targets of the listed code files |
| Engine.SessionIdOf | src/core/engine2.ts:197 | A truthy payload id is used as is; otherwise the first random draw |
| Engine.SessionDir | src/core/engine2.ts:196-198 | In the model, where `..` and `.` are ordinary segments, the session directory begins with the output directory's segments |
| Engine.Build | src/core/engine2.ts:201-204 | A successful build covers the tree at the root's place, holds every code file and ends with the success log; no error is logged |
| Engine.Materialize | src/core/engine2.ts:181-226 | A call is rejected iff validation fails, with exactly the validation problems; it reports the resolved id and works in `<outputDir>/<sessionId>` |
| EngineProps.UnchangedFileIsSkipped | src/core/engine2.ts:149-157 | A target whose digest matches is left alone and only "File unchanged" is logged |
| EngineProps.ModifiedFileIsBackedUp | src/core/engine2.ts:149-154 | A target whose digest differs is backed up with its old content and then rewritten |
| EngineProps.RewrittenIffContentDiffers | src/core/engine2.ts:149-165 | With a collision-free digest, an existing file is rewritten iff its content differs from the decoded source |
| EngineProps.NewFileIsCreated | src/core/engine2.ts:142-165 | An absent target outside the backup area is created with the decoded source and recorded once; the only other new entries are directories on the way to it, none in the backup area, and nothing existing changes |
| EngineProps.ScaffoldCoveredIsIdle | src/core/engine2.ts:94-115 | Scaffolding a tree that already exists changes nothing and records nothing |
| EngineProps.WriteAllInPlaceIsIdle | src/core/engine2.ts:149-157 | Re-writing code files that are all in place changes nothing and records nothing |
| EngineProps.WriteAllPlacesFiles | src/core/engine2.ts:137-167 | With distinct targets, a successful pass leaves every code file in place |
| EngineProps.BuildTwiceIsIdle | src/core/engine2.ts:201-204 | For the digest-gated variants, when no two code files share a target and none is written into `.backup`: a second build on the result of a successful one leaves the file system alone and records no directory or file |
| EngineProps.MaterializeIsIdempotent | src/core/engine2.ts:181-226 | A valid payload with a session id is always run. For the digest-gated variants, when no two code files share a target and none is written into `.backup`, repeating a successful call succeeds in the same directory, leaves the file system unchanged and reports empty created lists |
| Variants.ReportOf | src/core/engine2.ts:205-224 | The result's success, message, id and lists follow the run: a rejection reports the validation message with empty lists; a failure reports the error once, after the partial lists |
| Variants.CreateProjectStructure | src/core/engine2.ts:181-194 | A payload that fails validation leaves the file system untouched and reports the validation message; no existing entry ever disappears |
| Variants.ReportIsTagged | src/core/engine2.ts:44-50 | Every log starts with `[INFO] ` and every error with `[ERROR] ` |
| Variants.FailureKeepsPartialWork | src/core/engine2.ts:214-224 | A file-system failure is reported once, keeps the lists gathered so far and rolls nothing back |
| Variants.SuccessEndsWithSuccessLog | src/core/engine2.ts:204-213 | A successful call reports the success message, no errors, and its last log names the session directory |
| Variants.RootPlacement | dist/core/engine.js:77-102 | The tree is placed at the session directory in engine2, and under the root's own name in the compiled engine |
| Variants.CompiledEngineRootNamedRoot | src/core/engine2.ts:90-92 | A root named `ROOT` becomes a `ROOT` directory in the compiled engine but is the session directory in engine2 |
| Variants.WithSessionOverride | src/create-code-output.ts:211-213 | A truthy command-line id replaces the payload's id; nothing else changes |
| Variants.RunScript | src/create-code-output.ts:204-217 | A payload that fails validation prints one read-failure error and touches no file; info output is tagged; no entry disappears |
| Variants.ScriptUsesGivenSession | src/create-code-output.ts:161-166 | The script works in `<outputDir>/<sessionId>` with the payload's (possibly overridden) id and never invents one |
| Manager.FirstFailure | src/core/engine.ts:65-79 | Validation stops at the first failing check in source order: none fails iff none is returned |
| Manager.AddAll | src/core/engine.ts:202-213 | Added files exist afterwards; an existing one is never truncated |
| Manager.FindCode | src/core/engine.ts:217 | The first code file with the same name and path is found, and none iff no file matches |
| Manager.Rewrite | src/core/engine.ts:221-224 | A rewrite backs up the old content, leaves the decoded source at the target and records only the backup |
| Manager.ModifyOne | src/core/engine.ts:215-228 | A listed file with no matching code or no existing target is skipped; otherwise it is backed up and rewritten, touching only that target and the backup area |
| Manager.DeleteAll | src/core/engine.ts:230-238 | Every listed target is gone afterwards and nothing else is removed |
| Manager.Phases | src/core/engine.ts:171-178 | The phases log no error; after a successful run no deleted target exists and the last log is the success line naming the session directory |
| Manager.RunChangeSet | src/core/engine.ts:160-200 | A validation failure reports the first failing check and touches nothing; logs and errors are tagged; a failure reports exactly one error |
| Manager.EveryExistingFileIsBackedUp | src/core/engine.ts:113-133 | Every existing target of a code file is backed up, whatever its content, and then rewritten |
| Manager.DeletionRunsLast | src/core/engine.ts:171-174 | After a successful call no deleted file exists, even one also listed as added or modified |
| Manager.AsWrittenFailureReportsOtherSession | src/core/engine.ts:188-198 | As written, a failure after validation reports a fresh random id, not the id of the directory that holds the partial work |
| Manager.CorrectedReportNamesSessionDir | src/core/engine.ts:164-166 | Corrected, every validated call reports the id whose directory it worked in |
| Cli.ParseArgs | src/cli.ts:12-35 | The loop's result equals the reference definition: the last valid value of each flag, the default file otherwise, and one warning per flag without a value |
| Cli.LastValueIsLastValidOccurrence | src/cli.ts:16-31 | No value iff no flag occurrence is followed by a non-flag; otherwise the value after the last such occurrence |
| Cli.FlagFollowedByFlag | src/cli-new.ts:18-33 | `--file --session-id s` keeps the default file, takes `s` as the id and warns once |
| Cli.NoFlagsGiveDefaults | dist/src/cli.js:37-60 | Without flags the file is `data.json`, there is no id and no warning, whatever the working directory |
| Cli.Snapshot | src/cli.ts:70-81 | The snapshot only happens with a command-line id, and only the session copy of `data.json` can change |
| Cli.SessionCopyPath | src/cli.ts:73 | The copy is called `data.json` and lies under `OUTPUT_DIR || generatedOutput`, the output directory the engine uses without a root path |
| Cli.SnapshotRewritesOnDigestChange | src/cli.ts:72-80 | When the digests match the copy is kept; when they differ the call succeeds exactly when writing the raw input succeeds, and the copy then holds the raw input |
| Cli.MissingCopyIsWritten | src/cli-new.ts:74-80 | A missing session copy is written when the input's digest is non-empty |
| Cli.SnapshotIsIdempotent | dist/src/cli.js:89-101 | A second snapshot of the same input changes nothing and reports the input unchanged |
| Cli.RunCompiledCli | dist/src/cli.js:70-101 | A command-line id is the one reported; without one, the result is the compiled engine's own |
| Cli.SnapshotLandsInSessionDir | dist/src/cli.js:75-92 | The session copy lies in the same session directory that the engine used |

## Left out

- Git: `initializeGitRepo` and `commitChanges` in `src/core/engine.ts` are not modelled. They are asynchronous calls into `simple-git`, whose behaviour is outside this model.
- SHA-256 is not computed. The digest is an arbitrary function, so a collision-free digest is a stated precondition where needed.
- `path.join` normalisation is not modelled. `..`, `.` and repeated separators are not collapsed; paths are split on `/` and empty segments are dropped.
- Paths.Resolve: containment in the session directory is a property of the model only. In the source, `path.join` resolves a declared path such as `../x` to a target outside the session directory.
- Engine.SessionDir: containment in the output directory is a property of the model only. In the source, a session id of `..` makes `path.join(outputDir, sessionId)` escape the output directory.
- EngineProps.BuildTwiceIsIdle: idempotence is promised only for the digest-gated variants, with no two code files sharing a target and none written into `.backup`. Outside that, the source is not idempotent either. Two code files with one target and different content are backed up and rewritten again on every call. A code file under `.backup/<t>` is overwritten by a later backup of `<t>`. The manager backs up every existing target on every call.
- EngineProps.MaterializeIsIdempotent: the same conditions as `BuildTwiceIsIdle`, for the same reasons.
- Read failures: reads (`readFileSync` in the digest helpers, the source of `copyFileSync`) fail only on a missing path or a directory. A read denied by permissions is not modelled, so the digest gate and the backup copy never fail on their read side.
- Error messages are approximations of Node's. A `mkdir -p` that meets a file at the target itself is reported as ENOTDIR where Node raises EEXIST. The texts leave out Node's trailing system-call part (such as `, mkdir '<path>'`).
- Reading the input (`readFileSync`, `JSON.parse`, dotenv loading) is not modelled. The parsed payload, the raw text and `OUTPUT_DIR` are parameters.
- Console output of the result record and of the version and start lines is not modelled. The script's printed lines are modelled as two sequences.
- Variants.RunScript: its output omits the lines printed before the engine runs: the start line, the argument-parsing warnings (lines 187 and 194 of `src/create-code-output.ts`) and "Reading project structure from file" (line 207). Argument parsing is modelled separately as `Cli.ParseArgs`, and reading the input is outside the model.
- Promises and `async` are not modelled: the manager and `cli-new.ts` are treated as sequential.
- Reusing one engine instance for a second call is not modelled. The instance's lists are never reset, so every call is on a fresh instance.
- Cli.RunCompiledCli: composing the compiled front end with the compiled engine is an assumption. `dist/src/cli.js` loads `./core/engine` relative to `dist/src`, and `dist/src/core/engine.js` is not part of this model; the engine used is `dist/core/engine.js`, with its root-joined placement.
- `src/cli.ts` imports `./core/engine3`, which is not part of this model. `src/cli-new.ts` imports a named export that `./core/engine` does not have. Only the compiled `dist/src/cli.js` is composed with an engine (the compiled one); the other two front ends contribute their argument parsing and snapshot, which are identical.
- Variants.RunScript: does not state the exact text of the success lines, because those strings are plain log lines.
- Engine.Materialize: payload entries are assumed to match the declared interfaces, as `Project.CodeFile` and `Project.TreeNode` make them. An entry that does not match is not modelled. Examples are a code entry without a string `path` or `sourceCode` (`file.path.replace` and `unescapeSource` in `src/core/engine2.ts`), a tree node without a `name` in the compiled engine (`path.join(basePath, structure.name)`), and a truthy `children` that is not an array. The source would throw a type error there, and the engine's handler would report it as a failure. The same holds for `Variants.CreateProjectStructure` and `Variants.RunScript`, which run through it.
- Manager.RunChangeSet: a truthy `code.files` that is not an array is not modelled. The source's `forEach` would throw a type error, which the handler reports as a failure.
- Manager.RunChangeSet: assumes that the `addedFiles`, `modifiedFiles` and `deletedFiles` arrays are present once `changes` is. The source would throw a type error otherwise.
- Cli.Snapshot: its error message is not modelled. Each front end reports it through a different handler (top level in `src/cli.ts`, inside `runEngine` in `src/cli-new.ts`).
- A path declared as bare `ROOT`, without a separator, is not stripped. The code's pattern needs the separator, so such a file lands in a `ROOT` directory; the model follows the code.
- The `overwrite` parameter of `createFiles` is false at every call site. It is modelled (writing without a backup when set) but no property depends on it.

## Findings

| source | as written | input that shows it | evidently intended | confidence | as-written member | corrected member |
|---|---|---|---|---|---|---|
| src/core/engine2.ts:169-175 | Five global replacements run one after another, so an escaped backslash produced by the fourth is decoded again by the fifth, and text already decoded by earlier ones can be re-decoded | payload text backslash, backslash, `r` decodes to a carriage return; the escape of backslash-`n` decodes to backslash-newline | each escape sequence is decoded once, so that decoding inverts JSON-style escaping | not executed | Codec.UnescapeBreaksRoundTrip | Codec.DecodeOnePassRoundTrip |
| src/core/engine.ts:188-198 | The failure handler reports `sessionId || generateRandomSessionId()`, which draws a second random id when the payload has none | a payload without `sessionId` whose code file fails to write: the partial work is under the first id, the result names a second one | report the session id whose directory was used | not executed | Manager.AsWrittenFailureReportsOtherSession | Manager.CorrectedReportNamesSessionDir |
