/**
  The materialisation engine shared by every variant: scaffold the declared
  tree, then write each code file, classifying it as new, unchanged or
  modified and backing up a file before it is overwritten.

  The variants differ only in the switches of `Config`; the environment the
  source reads implicitly (`OUTPUT_DIR`, `Math.random`, SHA-256, failing
  system calls) is the explicit `Env`.
 */
module Engine {
  import opened Common
  import opened Paths
  import opened FileSystem
  import opened Codec
  import opened Project

  /** Where the root tree node is placed: the session directory itself, or a child named after it. */
  datatype RootMode = RootIsBase | RootJoined

  /** Back up an existing target only when its digest differs, or always. */
  datatype BackupPolicy = HashGated | Unconditional

  datatype Config = Config(
    rootMode: RootMode,
    requireSessionId: bool,
    backup: BackupPolicy,
    overwrite: bool,
    decoder: Decoder)

  /**
    `outputDirVar` is `process.env.OUTPUT_DIR`; `draw(k)` is the suffix the
    k-th call of `generateRandomSessionId` produces; `hash` is the hex SHA-256
    digest; `faults` are the targets on which a mutation fails.
   */
  datatype Env = Env(
    outputDirVar: Option<string>,
    draw: nat -> string,
    hash: string -> string,
    faults: set<Path>)

  const SessionPrefix: string := "sess_"
  const DefaultOutputDir: string := "generatedOutput"
  const InfoTag: string := "[INFO] "
  const ErrorTag: string := "[ERROR] "
  const DirectoryCreated: string := "Directory created: "

  function RandomSessionId(env: Env, k: nat): (r: string)
    ensures StartsWith(r, SessionPrefix)
  {
    SessionPrefix + env.draw(k)
  }

  /** `rootPath || process.env.OUTPUT_DIR || 'generatedOutput'`. */
  function OutputDir(env: Env, rootPath: Option<string>): (r: string)
    ensures Truthy(rootPath) ==> r == rootPath.value
    ensures !Truthy(rootPath) && Truthy(env.outputDirVar) ==> r == env.outputDirVar.value
    ensures !Truthy(rootPath) && !Truthy(env.outputDirVar) ==> r == DefaultOutputDir
  {
    OrElse(rootPath, OrElse(env.outputDirVar, DefaultOutputDir))
  }

  // ---------------------------------------------------------------------------
  // The accumulators of one engine call.

  datatype Acc = Acc(logs: seq<string>, errors: seq<string>, dirs: seq<Path>, files: seq<Path>) {
    /** Every log entry carries "[INFO] " and every error entry "[ERROR] ". */
    predicate Tagged() {
      && (forall i :: 0 <= i < |logs| ==> StartsWith(logs[i], InfoTag))
      && (forall i :: 0 <= i < |errors| ==> StartsWith(errors[i], ErrorTag))
    }

    /** `that` holds these entries, and possibly more after them. */
    predicate Prefixes(that: Acc) {
      && logs <= that.logs
      && errors <= that.errors
      && dirs <= that.dirs
      && files <= that.files
    }

    function Info(m: string): (r: Acc)
      ensures Tagged() ==> r.Tagged()
      ensures this.Prefixes(r) && r.errors == errors && r.dirs == dirs && r.files == files
      ensures r.logs == logs + [InfoTag + m]
    {
      var line := InfoTag + m;
      assert line[..|InfoTag|] == InfoTag;
      this.(logs := logs + [line])
    }

    function Record(p: Path): (r: Acc)
      ensures Tagged() ==> r.Tagged()
      ensures this.Prefixes(r) && r.logs == logs && r.errors == errors && r.dirs == dirs
      ensures r.files == files + [p]
    {
      this.(files := files + [p])
    }

    function Error(m: string): (r: Acc)
      ensures Tagged() ==> r.Tagged()
      ensures this.Prefixes(r) && r.logs == logs && r.dirs == dirs && r.files == files
      ensures r.errors == errors + [ErrorTag + m]
    {
      var line := ErrorTag + m;
      assert line[..|ErrorTag|] == ErrorTag;
      this.(errors := errors + [line])
    }
  }

  const EmptyAcc: Acc := Acc([], [], [], [])

  datatype State = State(fs: Fs, acc: Acc)

  /** A phase either completes or stops at a thrown error, keeping what was done so far. */
  datatype Step = Done(st: State) | Aborted(st: State, error: FsError)

  /**
    What every phase guarantees: no entry disappears, no file becomes a
    directory, the accumulators only grow, and errors are left to the caller.
   */
  predicate Grows(st: State, st': State) {
    && (forall q :: q in st.fs ==> q in st'.fs && (st.fs[q].File? ==> st'.fs[q].File?))
    && st.acc.Prefixes(st'.acc)
    && st'.acc.errors == st.acc.errors
    && (st.acc.Tagged() ==> st'.acc.Tagged())
  }

  // ---------------------------------------------------------------------------
  // Directories and backups.

  /**
    `if (!fs.existsSync(dir)) { fs.mkdirSync(dir, { recursive: true }); record; log }`.
    `announce` starts the log line; `None` where the source records the directory
    without logging it.
   */
  function EnsureDir(env: Env, st: State, dir: Path, announce: Option<string>): (r: Step)
    ensures Grows(st, r.st) && Keeps(st.fs, r.st.fs) && r.st.acc.files == st.acc.files
    ensures r.Done? ==> Exists(r.st.fs, dir)
    ensures r.Done? && Exists(st.fs, dir) ==> r.st == st
    ensures r.Done? && !Exists(st.fs, dir) ==>
              r.st.acc.dirs == st.acc.dirs + [dir] && IsDir(r.st.fs, dir)
    ensures r.Done? && !Exists(st.fs, dir) ==>
              r.st.acc.logs == st.acc.logs + (if announce.Some? then [InfoTag + (announce.value + PathText(dir))] else [])
    ensures r.Done? ==> forall q :: q in r.st.fs && q !in st.fs ==> q in Prefixes(dir) && r.st.fs[q] == Dir
    ensures r.Aborted? ==> r.st == st
  {
    if Exists(st.fs, dir) then Done(st)
    else
      match MkdirP(st.fs, dir, env.faults)
      case Err(e) => Aborted(st, e)
      case Ok(fs') =>
        var acc := st.acc.(dirs := st.acc.dirs + [dir]);
        Done(State(fs', if announce.Some? then acc.Info(announce.value + PathText(dir)) else acc))
  }

  /** Where `backupFile` copies `sessionDir + rel`. */
  function BackupPath(sessionDir: Path, rel: Path): (r: Path)
    ensures InBackupArea(sessionDir, r)
  {
    BackupRoot(sessionDir) + rel
  }

  /**
    The directories `backupFile` prepares: `.backup` itself, then the parent
    of the copy. The unconditional policy logs both; the digest-gated one
    announces only `.backup`.
   */
  function BackupDirs(cfg: Config, env: Env, st: State, backupPath: Path, sessionDir: Path): (r: Step)
    ensures Grows(st, r.st) && Keeps(st.fs, r.st.fs) && r.st.acc.files == st.acc.files
    ensures r.Done? ==> Exists(r.st.fs, BackupRoot(sessionDir)) && Exists(r.st.fs, Parent(backupPath))
    ensures forall q :: q in r.st.fs && q !in st.fs ==> r.st.fs[q] == Dir
    ensures forall q :: q in r.st.fs && r.st.fs[q].File? ==> q in st.fs
  {
    var pm := cfg.backup.Unconditional?;
    var rootLabel := if pm then DirectoryCreated else "Backup directory created: ";
    match EnsureDir(env, st, BackupRoot(sessionDir), Some(rootLabel))
    case Aborted(st1, e) => Aborted(st1, e)
    case Done(st1) =>
      EnsureDir(env, st1, Parent(backupPath), if pm then Some(DirectoryCreated) else None)
  }

  /**
    `backupFile(filePath, sessionDir)` for `filePath == sessionDir + rel`:
    create `.backup` and the mirrored parent, copy the current bytes over any
    earlier backup, record the copy.
   */
  function Backup(cfg: Config, env: Env, st: State, sessionDir: Path, rel: Path): (r: Step)
    ensures Grows(st, r.st)
    ensures r.Done? ==>
              && IsFile(st.fs, sessionDir + rel)
              && BackupPath(sessionDir, rel) in r.st.fs
              && r.st.fs[BackupPath(sessionDir, rel)] == st.fs[sessionDir + rel]
    ensures r.Done? ==> r.st.acc.files == st.acc.files + [BackupPath(sessionDir, rel)]
    ensures forall q :: q in st.fs && !InBackupArea(sessionDir, q) ==> r.st.fs[q] == st.fs[q]
  {
    var filePath := sessionDir + rel;
    var backupPath := BackupPath(sessionDir, rel);
    match BackupDirs(cfg, env, st, backupPath, sessionDir)
    case Aborted(st2, e) => Aborted(st2, e)
    case Done(st2) =>
      match CopyFile(st2.fs, filePath, backupPath, env.faults)
      case Err(e) => Aborted(st2, e)
      case Ok(fs3) =>
        CopyIntoBackup(st, st2, fs3, sessionDir, rel);
        var r := State(fs3, st2.acc.Record(backupPath).Info("File backed up: " + PathText(filePath) + " to " + PathText(backupPath)));
        GrowsTrans(st, st2, r);
        Done(r)
  }

  /** The copy into the prepared backup area changes only the backup and keeps the original. */
  lemma CopyIntoBackup(st: State, st2: State, fs3: Fs, sessionDir: Path, rel: Path)
    requires Keeps(st.fs, st2.fs)
    requires forall q :: q in st2.fs && st2.fs[q].File? ==> q in st.fs
    requires IsFile(st2.fs, sessionDir + rel)
    requires fs3.Keys == st2.fs.Keys + {BackupPath(sessionDir, rel)}
    requires fs3[BackupPath(sessionDir, rel)] == File(st2.fs[sessionDir + rel].content)
    requires forall q :: q in st2.fs && q != BackupPath(sessionDir, rel) ==> fs3[q] == st2.fs[q]
    ensures IsFile(st.fs, sessionDir + rel)
    ensures fs3[BackupPath(sessionDir, rel)] == st.fs[sessionDir + rel]
    ensures forall q :: q in st2.fs ==> q in fs3 && (st2.fs[q].File? ==> fs3[q].File?)
    ensures forall q :: q in st.fs && !InBackupArea(sessionDir, q) ==> fs3[q] == st.fs[q]
  {
  }

  // ---------------------------------------------------------------------------
  // Scaffolding the declared tree (`createDirectories`).

  /** After scaffolding, every node's path exists, and so does a file node's parent. */
  predicate Covered(fs: Fs, at: Path, node: TreeNode)
    decreases node
  {
    && Exists(fs, at)
    && (if node.isDirectory then
          forall i :: 0 <= i < |node.children| ==>
            Covered(fs, at + Split(node.children[i].name), node.children[i])
        else Exists(fs, Parent(at)))
  }

  /** Scaffolding only adds entries, and each recorded directory or file was absent before. */
  predicate ScaffoldGrows(st: State, st': State) {
    && Grows(st, st')
    && Keeps(st.fs, st'.fs)
    && (forall i :: |st.acc.dirs| <= i < |st'.acc.dirs| ==>
          !Exists(st.fs, st'.acc.dirs[i]) && IsDir(st'.fs, st'.acc.dirs[i]))
    && (forall i :: |st.acc.files| <= i < |st'.acc.files| ==>
          !Exists(st.fs, st'.acc.files[i]) && st'.acc.files[i] in st'.fs
          && st'.fs[st'.acc.files[i]] == File(""))
  }

  lemma ScaffoldGrowsTrans(a: State, b: State, c: State)
    requires ScaffoldGrows(a, b) && ScaffoldGrows(b, c)
    ensures ScaffoldGrows(a, c)
  {
    forall i | |a.acc.dirs| <= i < |c.acc.dirs|
      ensures !Exists(a.fs, c.acc.dirs[i]) && IsDir(c.fs, c.acc.dirs[i])
    {
      if i < |b.acc.dirs| {
        assert c.acc.dirs[i] == b.acc.dirs[i];
      }
    }
    forall i | |a.acc.files| <= i < |c.acc.files|
      ensures !Exists(a.fs, c.acc.files[i]) && c.acc.files[i] in c.fs && c.fs[c.acc.files[i]] == File("")
    {
      if i < |b.acc.files| {
        assert c.acc.files[i] == b.acc.files[i];
      }
    }
  }

  lemma {:induction false} CoveredMono(fs: Fs, fs': Fs, at: Path, node: TreeNode)
    requires Covered(fs, at, node)
    requires forall q :: q in fs ==> q in fs'
    ensures Covered(fs', at, node)
    decreases node
  {
    if node.isDirectory {
      forall i | 0 <= i < |node.children|
        ensures Covered(fs', at + Split(node.children[i].name), node.children[i])
      {
        CoveredMono(fs, fs', at + Split(node.children[i].name), node.children[i]);
      }
    }
  }

  /** Create an empty placeholder file unless something is already there. */
  function Placeholder(env: Env, st: State, at: Path): (r: Step)
    ensures ScaffoldGrows(st, r.st)
    ensures r.Done? ==> Exists(r.st.fs, at)
    ensures Exists(st.fs, at) ==> r == Done(st)
    ensures r.Done? && !Exists(st.fs, at) ==> r.st.fs == st.fs[at := File("")] && r.st.acc.files == st.acc.files + [at]
  {
    if Exists(st.fs, at) then Done(st)
    else
      match WriteFile(st.fs, at, "", env.faults)
      case Err(e) => Aborted(st, e)
      case Ok(fs') =>
        var acc := st.acc.Record(at);
        Done(State(fs', acc.Info("File created: " + PathText(at))))
  }

  /** `createDirectories(at, node)`: depth first, children in declared order. */
  function Scaffold(env: Env, at: Path, node: TreeNode, st: State): (r: Step)
    ensures ScaffoldGrows(st, r.st)
    ensures r.Done? ==> Covered(r.st.fs, at, node)
    decreases node, 1
  {
    if node.isDirectory then
      match EnsureDir(env, st, at, Some(DirectoryCreated))
      case Aborted(st1, e) => Aborted(st1, e)
      case Done(st1) =>
        var r := ScaffoldChildren(env, at, node.children, st1);
        ScaffoldGrowsTrans(st, st1, r.st);
        r
    else
      match EnsureDir(env, st, Parent(at), Some(DirectoryCreated))
      case Aborted(st1, e) => Aborted(st1, e)
      case Done(st1) =>
        var r := Placeholder(env, st1, at);
        ScaffoldGrowsTrans(st, st1, r.st);
        r
  }

  function ScaffoldChildren(env: Env, at: Path, children: seq<TreeNode>, st: State): (r: Step)
    ensures ScaffoldGrows(st, r.st)
    ensures Exists(st.fs, at) ==> Exists(r.st.fs, at)
    ensures r.Done? ==> forall i :: 0 <= i < |children| ==>
              Covered(r.st.fs, at + Split(children[i].name), children[i])
    decreases children, 0
  {
    if |children| == 0 then Done(st)
    else
      match Scaffold(env, at + Split(children[0].name), children[0], st)
      case Aborted(st1, e) => Aborted(st1, e)
      case Done(st1) =>
        var r := ScaffoldChildren(env, at, children[1..], st1);
        ScaffoldGrowsTrans(st, st1, r.st);
        if r.Done? then
          CoveredMono(st1.fs, r.st.fs, at + Split(children[0].name), children[0]);
          assert forall i :: 1 <= i < |children| ==> children[i] == children[1..][i - 1];
          r
        else r
  }

  /** The path of the root node: the session directory, or a child named after the node. */
  function RootPath(mode: RootMode, sessionDir: Path, root: TreeNode): (r: Path)
    ensures IsPrefix(sessionDir, r)
    ensures mode.RootIsBase? ==> r == sessionDir
    ensures mode.RootJoined? ==> r[|sessionDir|..] == Split(root.name)
  {
    match mode
    case RootIsBase => sessionDir
    case RootJoined => sessionDir + Split(root.name)
  }

  // ---------------------------------------------------------------------------
  // Writing the code files (`createFiles`).

  /** Where a code file is written. */
  function Target(sessionDir: Path, file: CodeFile): (r: Path)
    ensures IsPrefix(sessionDir, r)
  {
    Resolve(sessionDir, file.path, file.name)
  }

  /** The bytes a code file is written with. */
  function Decoded(cfg: Config, file: CodeFile): string {
    Decode(cfg.decoder, file.sourceCode)
  }

  /** Everything a code-file step may change: its target and the backup area. */
  predicate FramedBy(sessionDir: Path, targets: set<Path>, fs: Fs, fs': Fs) {
    forall q :: q in fs && q !in targets && !InBackupArea(sessionDir, q) ==> q in fs' && fs'[q] == fs[q]
  }

  /** `fs.writeFileSync(target, text)`, then record the target and log it. */
  function WriteTarget(cfg: Config, env: Env, st: State, target: Path, file: CodeFile): (r: Step)
    ensures Grows(st, r.st)
    ensures forall q :: q in st.fs && q != target ==> r.st.fs[q] == st.fs[q]
    ensures r.Done? ==> IsFile(r.st.fs, target) && r.st.fs[target] == File(Decoded(cfg, file))
    ensures r.Done? ==> r.st.acc.files == st.acc.files + [target] && r.st.acc.dirs == st.acc.dirs
    ensures r.Aborted? ==> r.st == st
  {
    match WriteFile(st.fs, target, Decoded(cfg, file), env.faults)
    case Err(e) => Aborted(st, e)
    case Ok(fs') =>
      var line := "File written: " + PathText(target)
        + (if cfg.backup.Unconditional? then " (" + file.description + ")" else "");
      Done(State(fs', st.acc.Record(target).Info(line)))
  }

  /** Whether an existing target is examined (and possibly backed up) before it is written. */
  predicate ChecksExisting(cfg: Config) {
    cfg.backup.Unconditional? || !cfg.overwrite
  }

  /** Back up `sessionDir + rel`, then write the decoded source over it. */
  function BackupThenWriteAt(cfg: Config, env: Env, sessionDir: Path, st: State, rel: Path, file: CodeFile): (r: Step)
    ensures Grows(st, r.st)
    ensures FramedBy(sessionDir, {sessionDir + rel}, st.fs, r.st.fs)
    ensures r.Done? ==> IsFile(st.fs, sessionDir + rel) && IsFile(r.st.fs, sessionDir + rel)
    ensures r.Done? ==> r.st.fs[sessionDir + rel] == File(Decoded(cfg, file))
    ensures r.Done? ==>
              && BackupPath(sessionDir, rel) in r.st.fs
              && r.st.fs[BackupPath(sessionDir, rel)] == st.fs[sessionDir + rel]
              && r.st.acc.files == st.acc.files + [BackupPath(sessionDir, rel), sessionDir + rel]
  {
    match Backup(cfg, env, st, sessionDir, rel)
    case Aborted(st1, e) => Aborted(st1, e)
    case Done(st1) =>
      WriteAfterBackup(cfg, env, sessionDir, st, st1, rel, file);
      WriteKeepsBackup(cfg, env, sessionDir, st, st1, rel, file);
      WriteTarget(cfg, env, st1, sessionDir + rel, file)
  }

  /** The write that follows a successful backup completes the frame. */
  lemma WriteAfterBackup(cfg: Config, env: Env, sessionDir: Path, st: State, st1: State, rel: Path, file: CodeFile)
    requires Backup(cfg, env, st, sessionDir, rel) == Done(st1)
    ensures var r := WriteTarget(cfg, env, st1, sessionDir + rel, file);
            && Grows(st, r.st)
            && FramedBy(sessionDir, {sessionDir + rel}, st.fs, r.st.fs)
            && (r.Done? ==> IsFile(st.fs, sessionDir + rel))
  {
    var target := sessionDir + rel;
    var r := WriteTarget(cfg, env, st1, target, file);
    GrowsTrans(st, st1, r.st);
    FramedByTrans(sessionDir, {}, {target}, st.fs, st1.fs, r.st.fs);
    assert {} + {target} == {target};
  }

  /** The write that follows a successful backup leaves the backup alone and records both paths. */
  lemma WriteKeepsBackup(cfg: Config, env: Env, sessionDir: Path, st: State, st1: State, rel: Path, file: CodeFile)
    requires Backup(cfg, env, st, sessionDir, rel) == Done(st1)
    ensures var r := WriteTarget(cfg, env, st1, sessionDir + rel, file);
            r.Done? ==>
              && BackupPath(sessionDir, rel) in r.st.fs
              && r.st.fs[BackupPath(sessionDir, rel)] == st.fs[sessionDir + rel]
              && r.st.acc.files == st.acc.files + [BackupPath(sessionDir, rel), sessionDir + rel]
  {
    assert |BackupPath(sessionDir, rel)| == |sessionDir + rel| + 1;
  }

  /** Back up the current target, then write the decoded source over it. */
  function BackupThenWrite(cfg: Config, env: Env, sessionDir: Path, st: State, file: CodeFile): (r: Step)
    ensures Grows(st, r.st)
    ensures FramedBy(sessionDir, {Target(sessionDir, file)}, st.fs, r.st.fs)
    ensures r.Done? ==> IsFile(st.fs, Target(sessionDir, file))
    ensures r.Done? ==> IsFile(r.st.fs, Target(sessionDir, file))
    ensures r.Done? ==> r.st.fs[Target(sessionDir, file)] == File(Decoded(cfg, file))
    ensures r.Done? ==>
              var backup := BackupPath(sessionDir, Target(sessionDir, file)[|sessionDir|..]);
              && backup in r.st.fs && r.st.fs[backup] == st.fs[Target(sessionDir, file)]
              && r.st.acc.files == st.acc.files + [backup, Target(sessionDir, file)]
  {
    var target := Target(sessionDir, file);
    var rel := target[|sessionDir|..];
    assert sessionDir + rel == target;
    BackupThenWriteAt(cfg, env, sessionDir, st, rel, file)
  }

  /** The digest-gated branch: back up and write when the digests differ, otherwise leave the file. */
  function WriteIfChanged(cfg: Config, env: Env, sessionDir: Path, st: State, file: CodeFile): (r: Step)
    requires Exists(st.fs, Target(sessionDir, file))
    ensures Grows(st, r.st)
    ensures FramedBy(sessionDir, {Target(sessionDir, file)}, st.fs, r.st.fs)
    ensures r.Done? ==> IsFile(r.st.fs, Target(sessionDir, file))
    ensures r.Done? ==> env.hash(r.st.fs[Target(sessionDir, file)].content) == env.hash(Decoded(cfg, file))
  {
    var target := Target(sessionDir, file);
    match FileDigest(st.fs, target, env.hash)
    case Err(e) => Aborted(st, e)
    case Ok(current) =>
      if current != env.hash(Decoded(cfg, file)) then
        BackupThenWrite(cfg, env, sessionDir, st.(acc := st.acc.Info("File modified: " + PathText(target))), file)
      else
        Done(st.(acc := st.acc.Info("File unchanged: " + PathText(target))))
  }

  /** Classify the target as new or existing and write it accordingly; its directory exists. */
  function PlaceCodeFile(cfg: Config, env: Env, sessionDir: Path, st: State, file: CodeFile): (r: Step)
    ensures Grows(st, r.st)
    ensures FramedBy(sessionDir, {Target(sessionDir, file)}, st.fs, r.st.fs)
    ensures r.Done? ==> IsFile(r.st.fs, Target(sessionDir, file))
    ensures r.Done? ==> env.hash(r.st.fs[Target(sessionDir, file)].content) == env.hash(Decoded(cfg, file))
  {
    var target := Target(sessionDir, file);
    if Exists(st.fs, target) && ChecksExisting(cfg) then
      if cfg.backup.Unconditional? then
        var st1 := st.(acc := st.acc.Info("File exists, modifying: " + PathText(target)));
        var r := BackupThenWrite(cfg, env, sessionDir, st1, file);
        GrowsTrans(st, st1, r.st);
        r
      else
        WriteIfChanged(cfg, env, sessionDir, st, file)
    else
      var st1 := st.(acc := st.acc.Info("File created: " + PathText(target)));
      var r := WriteTarget(cfg, env, st1, target, file);
      GrowsTrans(st, st1, r.st);
      r
  }

  /** One code file: make sure its directory exists, then place it. */
  function WriteCodeFile(cfg: Config, env: Env, sessionDir: Path, st: State, file: CodeFile): (r: Step)
    ensures Grows(st, r.st)
    ensures FramedBy(sessionDir, {Target(sessionDir, file)}, st.fs, r.st.fs)
    ensures r.Done? ==> Exists(r.st.fs, Parent(Target(sessionDir, file)))
    ensures r.Done? ==> IsFile(r.st.fs, Target(sessionDir, file))
    ensures r.Done? ==> env.hash(r.st.fs[Target(sessionDir, file)].content) == env.hash(Decoded(cfg, file))
  {
    match EnsureDir(env, st, Parent(Target(sessionDir, file)), Some(DirectoryCreated))
    case Aborted(st1, e) => Aborted(st1, e)
    case Done(st1) => PlaceCodeFile(cfg, env, sessionDir, st1, file)
  }

  /** The targets of `files`. */
  function Targets(sessionDir: Path, files: seq<CodeFile>): (r: set<Path>)
    ensures forall f :: f in files ==> Target(sessionDir, f) in r
    ensures forall q :: q in r ==> exists i :: 0 <= i < |files| && q == Target(sessionDir, files[i])
  {
    if |files| == 0 then {} else {Target(sessionDir, files[0])} + Targets(sessionDir, files[1..])
  }

  lemma GrowsTrans(a: State, b: State, c: State)
    requires Grows(a, b) && Grows(b, c)
    ensures Grows(a, c)
  {
  }

  lemma FramedByTrans(sessionDir: Path, t1: set<Path>, t2: set<Path>, a: Fs, b: Fs, c: Fs)
    requires FramedBy(sessionDir, t1, a, b) && FramedBy(sessionDir, t2, b, c)
    requires forall q :: q in a ==> q in b
    ensures FramedBy(sessionDir, t1 + t2, a, c)
  {
  }

  /** `codeFiles.forEach(...)`: the files in declared order, stopping at the first thrown error. */
  function WriteAll(cfg: Config, env: Env, sessionDir: Path, st: State, files: seq<CodeFile>): (r: Step)
    ensures Grows(st, r.st)
    ensures FramedBy(sessionDir, Targets(sessionDir, files), st.fs, r.st.fs)
    ensures r.Done? ==> forall f :: f in files ==> IsFile(r.st.fs, Target(sessionDir, f))
    decreases |files|
  {
    if |files| == 0 then Done(st)
    else
      match WriteCodeFile(cfg, env, sessionDir, st, files[0])
      case Aborted(st1, e) => Aborted(st1, e)
      case Done(st1) =>
        var r := WriteAll(cfg, env, sessionDir, st1, files[1..]);
        GrowsTrans(st, st1, r.st);
        FramedByTrans(sessionDir, {Target(sessionDir, files[0])}, Targets(sessionDir, files[1..]), st.fs, st1.fs, r.st.fs);
        assert r.Done? ==> forall f :: f in files ==> IsFile(r.st.fs, Target(sessionDir, f)) by {
          if r.Done? {
            forall f | f in files
              ensures IsFile(r.st.fs, Target(sessionDir, f))
            {
              if f != files[0] {
                assert f in files[1..];
              }
            }
          }
        }
        r
  }

  // ---------------------------------------------------------------------------
  // One engine call (`createProjectStructure`).

  /** Rejected by validation before anything is touched, or run against the file system. */
  datatype Run =
    | Rejected(problems: seq<Problem>, sessionId: string)
    | Ran(sessionId: string, sessionDir: Path, step: Step)

  /** `projectStructure.sessionId || generateRandomSessionId()`: one draw at most per call. */
  function SessionIdOf(env: Env, ps: ProjectStructure): (r: string)
    ensures Truthy(ps.sessionId) ==> r == ps.sessionId.value
    ensures !Truthy(ps.sessionId) ==> r == RandomSessionId(env, 0)
  {
    OrElse(ps.sessionId, RandomSessionId(env, 0))
  }

  /** `path.join(outputDir, sessionId)`. */
  function SessionDir(env: Env, rootPath: Option<string>, sessionId: string): (r: Path)
    ensures IsPrefix(Split(OutputDir(env, rootPath)), r)
  {
    Split(OutputDir(env, rootPath)) + Split(sessionId)
  }

  const SuccessLogPrefix: string := "Project structure created successfully at "

  /** Write the code files, then log success. */
  function WriteAndReport(cfg: Config, env: Env, sessionDir: Path, st: State, files: seq<CodeFile>): (r: Step)
    ensures Grows(st, r.st)
    ensures r.Done? ==> forall f :: f in files ==> IsFile(r.st.fs, Target(sessionDir, f))
    ensures r.Done? ==> |r.st.acc.logs| > 0 && r.st.acc.logs[|r.st.acc.logs| - 1] == InfoTag + SuccessLogPrefix + PathText(sessionDir)
  {
    match WriteAll(cfg, env, sessionDir, st, files)
    case Aborted(st2, e) => Aborted(st2, e)
    case Done(st2) => Done(st2.(acc := st2.acc.Info(SuccessLogPrefix + PathText(sessionDir))))
  }

  /** Scaffold the tree, then write the code files, then log success. */
  function Build(cfg: Config, env: Env, sessionDir: Path, root: TreeNode, files: seq<CodeFile>, fs: Fs): (r: Step)
    ensures Grows(State(fs, EmptyAcc), r.st) && r.st.acc.Tagged() && r.st.acc.errors == []
    ensures r.Done? ==> Covered(r.st.fs, RootPath(cfg.rootMode, sessionDir, root), root)
    ensures r.Done? ==> forall f :: f in files ==> IsFile(r.st.fs, Target(sessionDir, f))
    ensures r.Done? ==> |r.st.acc.logs| > 0 && r.st.acc.logs[|r.st.acc.logs| - 1] == InfoTag + SuccessLogPrefix + PathText(sessionDir)
  {
    assert EmptyAcc.Tagged();
    var at := RootPath(cfg.rootMode, sessionDir, root);
    match Scaffold(env, at, root, State(fs, EmptyAcc))
    case Aborted(st1, e) => Aborted(st1, e)
    case Done(st1) =>
      var r := WriteAndReport(cfg, env, sessionDir, st1, files);
      GrowsTrans(State(fs, EmptyAcc), st1, r.st);
      if r.Done? then
        CoveredMono(st1.fs, r.st.fs, at, root);
        r
      else r
  }

  function Materialize(cfg: Config, env: Env, fs: Fs, ps: ProjectStructure, rootPath: Option<string>): (r: Run)
    ensures r.Rejected? <==> !Acceptable(cfg.requireSessionId, ps)
    ensures r.Rejected? ==> r.problems == Validate(cfg.requireSessionId, ps)
    ensures r.sessionId == SessionIdOf(env, ps)
    ensures r.Ran? ==> r.sessionDir == SessionDir(env, rootPath, r.sessionId)
    ensures r.Ran? ==> r.step == Build(cfg, env, r.sessionDir, ps.folderStructure.root, ps.code.files, fs)
  {
    ValidateFieldByField(cfg.requireSessionId, ps);
    var problems := Validate(cfg.requireSessionId, ps);
    var sessionId := SessionIdOf(env, ps);
    if problems != [] then Rejected(problems, sessionId)
    else
      var sessionDir := SessionDir(env, rootPath, sessionId);
      Ran(sessionId, sessionDir, Build(cfg, env, sessionDir, ps.folderStructure.root, ps.code.files, fs))
  }
}
