/**
  The three digest-gated front ends of the shared engine: the two engine
  classes that return a result record, and the stand-alone script that only
  prints to the console.
 */
module Variants {
  import opened Common
  import opened Paths
  import opened FileSystem
  import opened Codec
  import opened Project
  import opened Engine

  /** `Engine` in src/core/engine2.ts: the root node is the session directory itself. */
  const Engine2: Config := Config(RootIsBase, false, HashGated, false, SequentialReplace)

  /** `Engine` in dist/core/engine.js: the root node is joined by its own name. */
  const CompiledEngine: Config := Config(RootJoined, false, HashGated, false, SequentialReplace)

  /** The stand-alone script: like the compiled engine, and `sessionId` is required. */
  const Script: Config := Config(RootJoined, true, HashGated, false, SequentialReplace)

  const SuccessMessage: string := "Project structure created successfully."
  const FailurePrefix: string := "Error creating project structure: "

  /** `ResultModel`. */
  datatype Report = Report(
    success: bool,
    message: string,
    sessionId: string,
    logs: seq<string>,
    errors: seq<string>,
    createdDirectories: seq<Path>,
    createdFiles: seq<Path>)

  /** The result record of one call on a fresh engine. */
  function ReportOf(run: Run): (r: Report)
    ensures r.sessionId == run.sessionId
    ensures r.success <==> run.Ran? && run.step.Done?
    ensures run.Rejected? ==> r.message == InvalidMessage(run.problems)
    ensures run.Rejected? ==> r.logs == [] && r.errors == [] && r.createdDirectories == [] && r.createdFiles == []
    ensures run.Ran? ==> r.createdDirectories == run.step.st.acc.dirs && r.createdFiles == run.step.st.acc.files
    ensures run.Ran? && run.step.Aborted? ==>
              && r.message == FailurePrefix + ErrorMessage(run.step.error)
              && r.errors == run.step.st.acc.errors + [ErrorTag + r.message]
  {
    match run
    case Rejected(problems, sid) =>
      Report(false, InvalidMessage(problems), sid, [], [], [], [])
    case Ran(sid, _, Done(st)) =>
      Report(true, SuccessMessage, sid, st.acc.logs, st.acc.errors, st.acc.dirs, st.acc.files)
    case Ran(sid, _, Aborted(st, e)) =>
      var message := FailurePrefix + ErrorMessage(e);
      var acc := st.acc.Error(message);
      Report(false, message, sid, acc.logs, acc.errors, acc.dirs, acc.files)
  }

  /** The file system after the call. */
  function FsAfter(fs: Fs, run: Run): Fs {
    match run
    case Rejected(_, _) => fs
    case Ran(_, _, step) => step.st.fs
  }

  /** `createProjectStructure(projectStructure, rootPath)` of an engine class. */
  function CreateProjectStructure(cfg: Config, env: Env, fs: Fs, ps: ProjectStructure, rootPath: Option<string>): (r: (Report, Fs))
    requires cfg == Engine2 || cfg == CompiledEngine
    ensures !Acceptable(false, ps) ==> !r.0.success && r.0.message == InvalidMessage(Validate(false, ps)) && r.1 == fs
    ensures r.0.sessionId == SessionIdOf(env, ps)
    ensures forall q :: q in fs ==> q in r.1
  {
    var run := Materialize(cfg, env, fs, ps, rootPath);
    (ReportOf(run), FsAfter(fs, run))
  }

  /** Every `logs` entry starts with "[INFO] " and every `errors` entry with "[ERROR] ". */
  lemma ReportIsTagged(cfg: Config, env: Env, fs: Fs, ps: ProjectStructure, rootPath: Option<string>)
    ensures var r := ReportOf(Materialize(cfg, env, fs, ps, rootPath));
            && (forall i :: 0 <= i < |r.logs| ==> StartsWith(r.logs[i], InfoTag))
            && (forall i :: 0 <= i < |r.errors| ==> StartsWith(r.errors[i], ErrorTag))
  {
    var run := Materialize(cfg, env, fs, ps, rootPath);
    if run.Ran? && run.step.Aborted? {
      var acc := run.step.st.acc.Error(FailurePrefix + ErrorMessage(run.step.error));
      assert acc.Tagged();
    }
  }

  /**
    A file-system error ends the call without rolling anything back: the
    result carries the resolved session id, the single error, and the lists
    accumulated up to the failure; every entry that existed is still there.
   */
  lemma FailureKeepsPartialWork(cfg: Config, env: Env, fs: Fs, ps: ProjectStructure, rootPath: Option<string>)
    requires Materialize(cfg, env, fs, ps, rootPath).Ran?
    requires Materialize(cfg, env, fs, ps, rootPath).step.Aborted?
    ensures var run := Materialize(cfg, env, fs, ps, rootPath);
            var r := ReportOf(run);
            && !r.success
            && r.sessionId == SessionIdOf(env, ps)
            && StartsWith(r.message, FailurePrefix)
            && r.errors == [ErrorTag + r.message]
            && r.createdDirectories == run.step.st.acc.dirs
            && r.createdFiles == run.step.st.acc.files
            && (forall q :: q in fs ==> q in FsAfter(fs, run))
  {
    var run := Materialize(cfg, env, fs, ps, rootPath);
    var m := FailurePrefix + ErrorMessage(run.step.error);
    assert m[..|FailurePrefix|] == FailurePrefix;
  }

  /** A successful call ends with the success log and reports the success message. */
  lemma SuccessEndsWithSuccessLog(cfg: Config, env: Env, fs: Fs, ps: ProjectStructure, rootPath: Option<string>)
    ensures var run := Materialize(cfg, env, fs, ps, rootPath);
            var r := ReportOf(run);
            r.success ==>
              && r.message == SuccessMessage && r.errors == []
              && |r.logs| > 0 && r.logs[|r.logs| - 1] == InfoTag + SuccessLogPrefix + PathText(run.sessionDir)
  {
  }

  /**
    Where the root node goes: the session directory in engine2, a child of it
    named after the root in the compiled engine. Either way the whole tree
    exists after a successful call.
   */
  lemma RootPlacement(env: Env, fs: Fs, ps: ProjectStructure, rootPath: Option<string>)
    ensures var run := Materialize(Engine2, env, fs, ps, rootPath);
            ReportOf(run).success ==> Covered(FsAfter(fs, run), run.sessionDir, ps.folderStructure.root)
    ensures var run := Materialize(CompiledEngine, env, fs, ps, rootPath);
            ReportOf(run).success ==>
              Covered(FsAfter(fs, run), run.sessionDir + Split(ps.folderStructure.root.name), ps.folderStructure.root)
  {
  }

  /** A root node named "ROOT" is a directory called "ROOT" under the compiled engine. */
  lemma CompiledEngineRootNamedRoot(sessionDir: Path, root: TreeNode)
    requires root.name == RootMarker
    ensures RootPath(CompiledEngine.rootMode, sessionDir, root) == sessionDir + [RootMarker]
    ensures RootPath(Engine2.rootMode, sessionDir, root) == sessionDir
  {
    SplitPlainName(RootMarker);
  }

  // ---------------------------------------------------------------------------
  // The stand-alone script (src/create-code-output.ts and its compiled twin).

  /** What the script prints: standard output and standard error. */
  datatype Console = Console(out: seq<string>, err: seq<string>)

  const ReadFailurePrefix: string := "Error reading project structure file: "

  /** `if (sessionId) projectStructure.sessionId = sessionId`. */
  function WithSessionOverride(ps: ProjectStructure, cliSessionId: Option<string>): (r: ProjectStructure)
    ensures Truthy(cliSessionId) ==> r.sessionId == cliSessionId
    ensures !Truthy(cliSessionId) ==> r == ps
    ensures r.language == ps.language && r.runtime == ps.runtime
    ensures r.folderStructure == ps.folderStructure && r.code == ps.code
  {
    if Truthy(cliSessionId) then ps.(sessionId := cliSessionId) else ps
  }

  /**
    The script's `createProjectStructure` under the top-level `try`: a
    validation error escapes to the outer handler, a file-system error is
    printed by the inner one.
   */
  function RunScript(env: Env, fs: Fs, ps: ProjectStructure, cliSessionId: Option<string>): (r: (Console, Fs))
    ensures var ps' := WithSessionOverride(ps, cliSessionId);
            !Acceptable(true, ps') ==>
              r == (Console([], [ErrorTag + ReadFailurePrefix + InvalidMessage(Validate(true, ps'))]), fs)
    ensures forall q :: q in fs ==> q in r.1
    ensures forall i :: 0 <= i < |r.0.out| ==> StartsWith(r.0.out[i], InfoTag)
  {
    var ps' := WithSessionOverride(ps, cliSessionId);
    var run := Materialize(Script, env, fs, ps', None);
    match run
    case Rejected(problems, _) =>
      var line := ErrorTag + ReadFailurePrefix + InvalidMessage(problems);
      (Console([], [line]), fs)
    case Ran(_, _, Done(st)) =>
      (Console(st.acc.logs, []), st.fs)
    case Ran(_, _, Aborted(st, e)) =>
      var line := ErrorTag + FailurePrefix + ErrorMessage(e);
      (Console(st.acc.logs, [line]), st.fs)
  }

  /**
    The script never invents a session id: when it touches the file system,
    it works in `outputDir/<sessionId>` for the (possibly overridden) payload
    id, and a truthy command-line id is the one used.
   */
  lemma ScriptUsesGivenSession(env: Env, fs: Fs, ps: ProjectStructure, cliSessionId: Option<string>)
    ensures var ps' := WithSessionOverride(ps, cliSessionId);
            var run := Materialize(Script, env, fs, ps', None);
            run.Ran? ==> Truthy(ps'.sessionId) && run.sessionDir == Split(OutputDir(env, None)) + Split(ps'.sessionId.value)
    ensures Truthy(cliSessionId) ==>
              MissingSessionId !in Validate(true, WithSessionOverride(ps, cliSessionId))
  {
    ValidateFieldByField(true, WithSessionOverride(ps, cliSessionId));
  }
}
