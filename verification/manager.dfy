/**
  `ProjectManager` (src/core/engine.ts): the change-set engine. It validates
  fail-fast, writes every code file with an unconditional backup of whatever
  was there, then applies the added, modified and deleted change lists, in
  that order. There is no scaffolding step.
 */
module Manager {
  import opened Common
  import opened Paths
  import opened FileSystem
  import opened Codec
  import opened Project
  import opened Engine
  import opened Variants

  /** An entry of `addedFiles`, `modifiedFiles` or `deletedFiles`. */
  datatype FileRef = FileRef(path: string, name: string)

  datatype Changes = Changes(summary: string, addedFiles: seq<FileRef>, modifiedFiles: seq<FileRef>, deletedFiles: seq<FileRef>)

  /** `code`: missing or falsy, present without a truthy `files`, or the file list. */
  datatype CodeSection = NoCodeSection | NoFileList | FileList(files: seq<CodeFile>)

  datatype ChangeSet = ChangeSet(
    language: Option<string>,
    runtime: Option<string>,
    sessionId: Option<string>,
    code: CodeSection,
    changes: Option<Changes>)

  /** The code-file phase: root unused, every existing target backed up, source decoded as written. */
  const ManagerConfig: Config := Config(RootIsBase, false, Unconditional, false, SequentialReplace)

  // ---------------------------------------------------------------------------
  // Fail-fast validation.

  datatype Check = CheckLanguage | CheckRuntime | CheckCode | CheckChanges

  function CheckRank(c: Check): nat {
    match c
    case CheckLanguage => 0
    case CheckRuntime => 1
    case CheckCode => 2
    case CheckChanges => 3
  }

  predicate CheckFails(cs: ChangeSet, c: Check) {
    match c
    case CheckLanguage => !Truthy(cs.language)
    case CheckRuntime => !Truthy(cs.runtime)
    case CheckCode => !cs.code.FileList?
    case CheckChanges => cs.changes.None?
  }

  /** The message of the error thrown for a failing check. */
  function CheckMessage(c: Check): string {
    match c
    case CheckLanguage => "Invalid project structure: Missing language"
    case CheckRuntime => "Invalid project structure: Missing runtime"
    case CheckCode => "Invalid project structure: Missing code or code files"
    case CheckChanges => "Invalid project structure: Missing changes"
  }

  /** The check that throws: the first failing one in source order, if any. */
  function FirstFailure(cs: ChangeSet): (r: Option<Check>)
    ensures r.None? ==> forall c :: !CheckFails(cs, c)
    ensures r.Some? ==> CheckFails(cs, r.value)
    ensures r.Some? ==> forall c :: CheckRank(c) < CheckRank(r.value) ==> !CheckFails(cs, c)
  {
    if !Truthy(cs.language) then Some(CheckLanguage)
    else if !Truthy(cs.runtime) then Some(CheckRuntime)
    else if !cs.code.FileList? then Some(CheckCode)
    else if cs.changes.None? then Some(CheckChanges)
    else None
  }

  // ---------------------------------------------------------------------------
  // The change lists.

  /** `path.join(basePath, file.path, file.name)`: change entries keep any "ROOT/" marker. */
  function RefTarget(sessionDir: Path, f: FileRef): (r: Path)
    ensures IsPrefix(sessionDir, r)
  {
    sessionDir + RefPath(f)
  }

  /** The target relative to the session directory. */
  function RefPath(f: FileRef): Path {
    Split(f.path) + Split(f.name)
  }

  /** `handleAddedFiles` for one entry: an empty file when absent, otherwise only a log line. */
  function AddOne(env: Env, sessionDir: Path, st: State, f: FileRef): (r: Step)
    ensures Grows(st, r.st) && Keeps(st.fs, r.st.fs) && r.st.acc.dirs == st.acc.dirs
    ensures Exists(st.fs, RefTarget(sessionDir, f)) ==> r.Done? && r.st.fs == st.fs && r.st.acc.files == st.acc.files
    ensures !Exists(st.fs, RefTarget(sessionDir, f)) && r.Done? ==>
              && r.st.fs == st.fs[RefTarget(sessionDir, f) := File("")]
              && r.st.acc.files == st.acc.files + [RefTarget(sessionDir, f)]
  {
    var t := RefTarget(sessionDir, f);
    if Exists(st.fs, t) then Done(st.(acc := st.acc.Info("File already exists: " + PathText(t))))
    else
      match WriteFile(st.fs, t, "", env.faults)
      case Err(e) => Aborted(st, e)
      case Ok(fs') =>
        assert fs' == st.fs[t := File("")];
        Done(State(fs', st.acc.Record(t).Info("Added file: " + PathText(t))))
  }

  function AddAll(env: Env, sessionDir: Path, st: State, refs: seq<FileRef>): (r: Step)
    ensures Grows(st, r.st) && Keeps(st.fs, r.st.fs) && r.st.acc.dirs == st.acc.dirs
    ensures r.Done? ==> forall i :: 0 <= i < |refs| ==> Exists(r.st.fs, RefTarget(sessionDir, refs[i]))
    decreases |refs|
  {
    if |refs| == 0 then Done(st)
    else
      match AddOne(env, sessionDir, st, refs[0])
      case Aborted(st1, e) => Aborted(st1, e)
      case Done(st1) =>
        var r := AddAll(env, sessionDir, st1, refs[1..]);
        assert forall i :: 1 <= i < |refs| ==> refs[i] == refs[1..][i - 1];
        r
  }

  predicate Names(c: CodeFile, f: FileRef) {
    c.name == f.name && c.path == f.path
  }

  /** Index of the first code file `f` names, or `|files|` when there is none. */
  function FirstMatch(files: seq<CodeFile>, f: FileRef): (i: nat)
    ensures i <= |files|
    ensures i < |files| ==> Names(files[i], f)
    ensures forall j :: 0 <= j < i ==> !Names(files[j], f)
  {
    if |files| == 0 then 0
    else if Names(files[0], f) then 0
    else 1 + FirstMatch(files[1..], f)
  }

  /** `codeFiles.find(f => f.name === ref.name && f.path === ref.path)`. */
  function FindCode(files: seq<CodeFile>, f: FileRef): (r: Option<CodeFile>)
    ensures r.None? <==> forall j :: 0 <= j < |files| ==> !Names(files[j], f)
    ensures r.Some? ==> r.value == files[FirstMatch(files, f)]
  {
    var i := FirstMatch(files, f);
    if i < |files| then Some(files[i]) else None
  }

  /** `fs.writeFileSync(t, content)` and a log line; the path is not recorded. */
  function WriteLogged(env: Env, st: State, t: Path, content: string, line: string): (r: Step)
    ensures Grows(st, r.st) && r.st.acc.files == st.acc.files
    ensures forall q :: q in st.fs && q != t ==> r.st.fs[q] == st.fs[q]
    ensures r.Done? ==> IsFile(r.st.fs, t) && r.st.fs[t] == File(content)
  {
    match WriteFile(st.fs, t, content, env.faults)
    case Err(e) => Aborted(st, e)
    case Ok(fs') => Done(State(fs', st.acc.Info(line)))
  }

  /** Back up the existing `sessionDir + rel`, then write the decoded source over it. */
  function Rewrite(env: Env, sessionDir: Path, st: State, rel: Path, code: CodeFile): (r: Step)
    ensures Grows(st, r.st)
    ensures FramedBy(sessionDir, {sessionDir + rel}, st.fs, r.st.fs)
    ensures r.Done? ==>
              && IsFile(st.fs, sessionDir + rel)
              && r.st.fs[sessionDir + rel] == File(Unescape(code.sourceCode))
              && BackupPath(sessionDir, rel) in r.st.fs && r.st.fs[BackupPath(sessionDir, rel)] == st.fs[sessionDir + rel]
              && r.st.acc.files == st.acc.files + [BackupPath(sessionDir, rel)]
  {
    var t := sessionDir + rel;
    assert |BackupPath(sessionDir, rel)| == |t| + 1;
    match Backup(ManagerConfig, env, st, sessionDir, rel)
    case Aborted(st1, e) => Aborted(st1, e)
    case Done(st1) =>
      var r := WriteLogged(env, st1, t, Unescape(code.sourceCode), "Modified file: " + PathText(t));
      GrowsTrans(st, st1, r.st);
      FramedByTrans(sessionDir, {}, {t}, st.fs, st1.fs, r.st.fs);
      assert {} + {t} == {t};
      r
  }

  /**
    `handleModifiedFiles` for one entry: only an entry that names a code file
    and whose target exists is backed up and rewritten; the rewritten target
    is logged but not recorded.
   */
  function ModifyOne(env: Env, sessionDir: Path, st: State, f: FileRef, files: seq<CodeFile>): (r: Step)
    ensures Grows(st, r.st)
    ensures FindCode(files, f).None? || !Exists(st.fs, RefTarget(sessionDir, f)) ==> r == Done(st)
    ensures FramedBy(sessionDir, {RefTarget(sessionDir, f)}, st.fs, r.st.fs)
    ensures FindCode(files, f).Some? && Exists(st.fs, RefTarget(sessionDir, f)) ==>
              r == Rewrite(env, sessionDir, st, RefPath(f), FindCode(files, f).value)
  {
    var t := RefTarget(sessionDir, f);
    match FindCode(files, f)
    case None => Done(st)
    case Some(code) => if Exists(st.fs, t) then Rewrite(env, sessionDir, st, RefPath(f), code) else Done(st)
  }

  function ModifyAll(env: Env, sessionDir: Path, st: State, refs: seq<FileRef>, files: seq<CodeFile>): (r: Step)
    ensures Grows(st, r.st)
    decreases |refs|
  {
    if |refs| == 0 then Done(st)
    else
      match ModifyOne(env, sessionDir, st, refs[0], files)
      case Aborted(st1, e) => Aborted(st1, e)
      case Done(st1) =>
        var r := ModifyAll(env, sessionDir, st1, refs[1..], files);
        GrowsTrans(st, st1, r.st);
        r
  }

  /** `handleDeletedFiles` for one entry: unlink when something is there. */
  function DeleteOne(env: Env, sessionDir: Path, st: State, f: FileRef): (r: Step)
    ensures r.st.acc.Tagged() <== st.acc.Tagged()
    ensures st.acc.Prefixes(r.st.acc) && r.st.acc.errors == st.acc.errors
    ensures r.st.acc.dirs == st.acc.dirs && r.st.acc.files == st.acc.files
    ensures !Exists(st.fs, RefTarget(sessionDir, f)) ==> r == Done(st)
    ensures r.Done? ==> r.st.fs == st.fs - {RefTarget(sessionDir, f)}
    ensures r.Aborted? ==> r.st == st
  {
    var t := RefTarget(sessionDir, f);
    if !Exists(st.fs, t) then Done(st)
    else
      match Unlink(st.fs, t, env.faults)
      case Err(e) => Aborted(st, e)
      case Ok(fs') => Done(State(fs', st.acc.Info("Deleted file: " + PathText(t))))
  }

  function DeleteAll(env: Env, sessionDir: Path, st: State, refs: seq<FileRef>): (r: Step)
    ensures r.st.acc.Tagged() <== st.acc.Tagged()
    ensures st.acc.Prefixes(r.st.acc) && r.st.acc.errors == st.acc.errors
    ensures forall q :: q in r.st.fs ==> q in st.fs
    ensures r.Done? ==> forall i :: 0 <= i < |refs| ==> RefTarget(sessionDir, refs[i]) !in r.st.fs
    ensures r.Done? ==> forall q :: q in st.fs && (forall i :: 0 <= i < |refs| ==> q != RefTarget(sessionDir, refs[i])) ==>
              q in r.st.fs && r.st.fs[q] == st.fs[q]
    decreases |refs|
  {
    if |refs| == 0 then Done(st)
    else
      match DeleteOne(env, sessionDir, st, refs[0])
      case Aborted(st1, e) => Aborted(st1, e)
      case Done(st1) =>
        var r := DeleteAll(env, sessionDir, st1, refs[1..]);
        DeleteAllStep(sessionDir, refs, st, st1, r);
        r
  }

  /** The first deletion followed by the rest is the deletion of all. */
  lemma DeleteAllStep(sessionDir: Path, refs: seq<FileRef>, st: State, st1: State, r: Step)
    requires |refs| > 0
    requires st1.acc.Tagged() <== st.acc.Tagged()
    requires st.acc.Prefixes(st1.acc) && st1.acc.errors == st.acc.errors
    requires st1.fs == st.fs - {RefTarget(sessionDir, refs[0])}
    requires r.st.acc.Tagged() <== st1.acc.Tagged()
    requires st1.acc.Prefixes(r.st.acc) && r.st.acc.errors == st1.acc.errors
    requires forall q :: q in r.st.fs ==> q in st1.fs
    requires r.Done? ==> forall i :: 0 <= i < |refs[1..]| ==> RefTarget(sessionDir, refs[1..][i]) !in r.st.fs
    requires r.Done? ==> forall q :: q in st1.fs && (forall i :: 0 <= i < |refs[1..]| ==> q != RefTarget(sessionDir, refs[1..][i])) ==>
               q in r.st.fs && r.st.fs[q] == st1.fs[q]
    ensures r.st.acc.Tagged() <== st.acc.Tagged()
    ensures st.acc.Prefixes(r.st.acc) && r.st.acc.errors == st.acc.errors
    ensures forall q :: q in r.st.fs ==> q in st.fs
    ensures r.Done? ==> forall i :: 0 <= i < |refs| ==> RefTarget(sessionDir, refs[i]) !in r.st.fs
    ensures r.Done? ==> forall q :: q in st.fs && (forall i :: 0 <= i < |refs| ==> q != RefTarget(sessionDir, refs[i])) ==>
              q in r.st.fs && r.st.fs[q] == st.fs[q]
  {
    assert forall i :: 1 <= i < |refs| ==> refs[i] == refs[1..][i - 1];
  }

  // ---------------------------------------------------------------------------
  // One call (`createProjectStructure`).

  /** The code files, then the change lists in source order, then the success log. */
  function Phases(env: Env, sessionDir: Path, files: seq<CodeFile>, changes: Changes, fs: Fs): (r: Step)
    ensures r.st.acc.Tagged() && r.st.acc.errors == []
    ensures r.Done? ==> forall i :: 0 <= i < |changes.deletedFiles| ==> RefTarget(sessionDir, changes.deletedFiles[i]) !in r.st.fs
    ensures r.Done? ==> |r.st.acc.logs| > 0 && r.st.acc.logs[|r.st.acc.logs| - 1] == InfoTag + (SuccessLogPrefix + PathText(sessionDir))
  {
    match CodePhase(env, sessionDir, files, fs)
    case Aborted(st1, e) => Aborted(st1, e)
    case Done(st1) =>
      match ApplyChanges(env, sessionDir, st1, files, changes)
      case Aborted(st4, e) => Aborted(st4, e)
      case Done(st4) => Done(st4.(acc := st4.acc.Info(SuccessLogPrefix + PathText(sessionDir))))
  }

  /** `createFiles` on a fresh manager: only tagged logs, no error. */
  function CodePhase(env: Env, sessionDir: Path, files: seq<CodeFile>, fs: Fs): (r: Step)
    ensures r.st.acc.Tagged() && r.st.acc.errors == []
  {
    assert EmptyAcc.Tagged();
    WriteAll(ManagerConfig, env, sessionDir, State(fs, EmptyAcc), files)
  }

  /** The added, modified and deleted lists, in that order; deletion runs last. */
  function ApplyChanges(env: Env, sessionDir: Path, st: State, files: seq<CodeFile>, changes: Changes): (r: Step)
    ensures st.acc.Tagged() ==> r.st.acc.Tagged()
    ensures r.st.acc.errors == st.acc.errors
    ensures r.Done? ==> forall i :: 0 <= i < |changes.deletedFiles| ==> RefTarget(sessionDir, changes.deletedFiles[i]) !in r.st.fs
  {
    match AddAll(env, sessionDir, st, changes.addedFiles)
    case Aborted(st2, e) => Aborted(st2, e)
    case Done(st2) =>
      match ModifyAll(env, sessionDir, st2, changes.modifiedFiles, files)
      case Aborted(st3, e) => Aborted(st3, e)
      case Done(st3) => DeleteAll(env, sessionDir, st3, changes.deletedFiles)
  }

  /**
    The result and the file system after one call on a fresh manager.
    `corrected` selects which session id a failed run reports: as written,
    the handler draws a fresh random id; corrected, it reports the id whose
    directory holds the partial work.
   */
  function RunChangeSet(env: Env, fs: Fs, cs: ChangeSet, rootPath: Option<string>, corrected: bool): (r: (Report, Fs))
    ensures FirstFailure(cs).Some? ==>
              var message := FailurePrefix + CheckMessage(FirstFailure(cs).value);
              r == (Report(false, message, OrElse(cs.sessionId, RandomSessionId(env, 0)), [], [ErrorTag + message], [], []), fs)
    ensures forall i :: 0 <= i < |r.0.logs| ==> StartsWith(r.0.logs[i], InfoTag)
    ensures forall i :: 0 <= i < |r.0.errors| ==> StartsWith(r.0.errors[i], ErrorTag)
    ensures r.0.success ==> r.0.errors == [] && r.0.message == SuccessMessage
    ensures !r.0.success ==> |r.0.errors| == 1 && r.0.errors[0] == ErrorTag + r.0.message
  {
    match FirstFailure(cs)
    case Some(c) =>
      var message := FailurePrefix + CheckMessage(c);
      assert (ErrorTag + message)[..|ErrorTag|] == ErrorTag;
      (Report(false, message, OrElse(cs.sessionId, RandomSessionId(env, 0)), [], [ErrorTag + message], [], []), fs)
    case None =>
      var sessionId := OrElse(cs.sessionId, RandomSessionId(env, 0));
      var sessionDir := Split(OutputDir(env, rootPath)) + Split(sessionId);
      match Phases(env, sessionDir, cs.code.files, cs.changes.value, fs)
      case Done(st) =>
        (Report(true, SuccessMessage, sessionId, st.acc.logs, st.acc.errors, st.acc.dirs, st.acc.files), st.fs)
      case Aborted(st, e) =>
        var message := FailurePrefix + ErrorMessage(e);
        var acc := st.acc.Error(message);
        var reported := if corrected then sessionId else OrElse(cs.sessionId, RandomSessionId(env, 1));
        (Report(false, message, reported, acc.logs, acc.errors, acc.dirs, acc.files), st.fs)
  }

  /** The session directory of a call that passes validation. */
  function ManagerSessionDir(env: Env, cs: ChangeSet, rootPath: Option<string>): Path {
    Split(OutputDir(env, rootPath)) + Split(OrElse(cs.sessionId, RandomSessionId(env, 0)))
  }

  // ---------------------------------------------------------------------------
  // Properties.

  /**
    The code-file phase backs up every existing target, whatever its
    content: the backup holds the old bytes, the target the decoded source,
    and both are recorded, the backup first.
   */
  lemma EveryExistingFileIsBackedUp(env: Env, sessionDir: Path, st: State, file: CodeFile)
    requires IsFile(st.fs, Target(sessionDir, file))
    ensures var t := Target(sessionDir, file);
            var w := WriteCodeFile(ManagerConfig, env, sessionDir, st, file);
            var backup := BackupPath(sessionDir, t[|sessionDir|..]);
            w.Done? ==>
              && w.st.fs[t] == File(Unescape(file.sourceCode))
              && backup in w.st.fs && w.st.fs[backup] == st.fs[t]
              && w.st.acc.files == st.acc.files + [backup, t]
  {
    var t := Target(sessionDir, file);
    var d := EnsureDir(env, st, Parent(t), Some(DirectoryCreated));
    if d.Done? {
      var st1 := d.st;
      assert st1.fs[t] == st.fs[t] && st1.acc.files == st.acc.files;
      var st2 := st1.(acc := st1.acc.Info("File exists, modifying: " + PathText(t)));
      assert WriteCodeFile(ManagerConfig, env, sessionDir, st, file) == BackupThenWrite(ManagerConfig, env, sessionDir, st2, file);
    }
  }

  /**
    Deletion runs last, so after a successful call no target of
    `deletedFiles` exists, even one also listed under `modifiedFiles` or
    `addedFiles`.
   */
  lemma DeletionRunsLast(env: Env, fs: Fs, cs: ChangeSet, rootPath: Option<string>, corrected: bool, f: FileRef)
    ensures var r := RunChangeSet(env, fs, cs, rootPath, corrected);
            r.0.success ==>
              && FirstFailure(cs).None?
              && (f in cs.changes.value.deletedFiles ==> ManagerSessionDir(env, cs, rootPath) + RefPath(f) !in r.1)
  {
    if RunChangeSet(env, fs, cs, rootPath, corrected).0.success && f in cs.changes.value.deletedFiles {
      var i :| 0 <= i < |cs.changes.value.deletedFiles| && cs.changes.value.deletedFiles[i] == f;
    }
  }

  /**
    As written, a run that fails after the session directory is chosen
    reports a second random id, not the one whose directory holds the
    partial work, whenever the payload has no id and the two draws differ.
   */
  lemma AsWrittenFailureReportsOtherSession(env: Env, fs: Fs, cs: ChangeSet, rootPath: Option<string>)
    requires FirstFailure(cs).None? && !Truthy(cs.sessionId)
    requires env.draw(0) != env.draw(1)
    ensures Phases(env, ManagerSessionDir(env, cs, rootPath), cs.code.files, cs.changes.value, fs).Aborted? ==>
              RunChangeSet(env, fs, cs, rootPath, false).0.sessionId != OrElse(cs.sessionId, RandomSessionId(env, 0))
  {
    assert RandomSessionId(env, 1)[|SessionPrefix|..] == env.draw(1);
    assert RandomSessionId(env, 0)[|SessionPrefix|..] == env.draw(0);
  }

  /** Corrected, every validated run reports the id whose directory it worked in. */
  lemma CorrectedReportNamesSessionDir(env: Env, fs: Fs, cs: ChangeSet, rootPath: Option<string>)
    requires FirstFailure(cs).None?
    ensures var r := RunChangeSet(env, fs, cs, rootPath, true).0;
            Split(OutputDir(env, rootPath)) + Split(r.sessionId) == ManagerSessionDir(env, cs, rootPath)
  {
  }
}
