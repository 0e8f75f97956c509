/**
  Properties of the shared engine: how one code file is classified, what a
  backup preserves, and that running the engine twice on the same input
  changes nothing the second time.
 */
module EngineProps {
  import opened Common
  import opened Paths
  import opened FileSystem
  import opened Codec
  import opened Project
  import opened Engine

  /** The digest-gated engines: back up only on a digest change, never force-overwrite. */
  predicate DigestGated(cfg: Config) {
    cfg.backup.HashGated? && !cfg.overwrite
  }

  /** The file already holds the bytes the engine would write, as far as the digest can tell. */
  predicate InPlace(cfg: Config, env: Env, fs: Fs, sessionDir: Path, file: CodeFile) {
    var t := Target(sessionDir, file);
    && IsFile(fs, t)
    && env.hash(fs[t].content) == env.hash(Decoded(cfg, file))
    && Exists(fs, Parent(t))
  }

  /** An unchanged file is neither backed up nor rewritten; only "File unchanged" is logged. */
  lemma UnchangedFileIsSkipped(cfg: Config, env: Env, sessionDir: Path, st: State, file: CodeFile)
    requires DigestGated(cfg)
    requires InPlace(cfg, env, st.fs, sessionDir, file)
    ensures WriteCodeFile(cfg, env, sessionDir, st, file)
              == Done(st.(acc := st.acc.Info("File unchanged: " + PathText(Target(sessionDir, file)))))
  {
    var t := Target(sessionDir, file);
    assert EnsureDir(env, st, Parent(t), Some(DirectoryCreated)) == Done(st);
    assert FileDigest(st.fs, t, env.hash) == Ok(env.hash(st.fs[t].content));
  }

  /**
    A file whose digest differs is copied into the backup area with its old
    bytes before the new bytes are written, and both paths are recorded, the
    backup first.
   */
  lemma ModifiedFileIsBackedUp(cfg: Config, env: Env, sessionDir: Path, st: State, file: CodeFile)
    requires DigestGated(cfg)
    requires IsFile(st.fs, Target(sessionDir, file))
    requires env.hash(st.fs[Target(sessionDir, file)].content) != env.hash(Decoded(cfg, file))
    ensures var t := Target(sessionDir, file);
            var w := WriteCodeFile(cfg, env, sessionDir, st, file);
            var backup := BackupPath(sessionDir, t[|sessionDir|..]);
            w.Done? ==>
              && w.st.fs[t] == File(Decoded(cfg, file))
              && backup in w.st.fs && w.st.fs[backup] == st.fs[t]
              && w.st.acc.files == st.acc.files + [backup, t]
  {
    var t := Target(sessionDir, file);
    var d := EnsureDir(env, st, Parent(t), Some(DirectoryCreated));
    if d.Done? {
      var st1 := d.st;
      assert st1.fs[t] == st.fs[t] && st1.acc.files == st.acc.files;
      assert FileDigest(st1.fs, t, env.hash) == Ok(env.hash(st.fs[t].content));
      var st2 := st1.(acc := st1.acc.Info("File modified: " + PathText(t)));
      assert WriteCodeFile(cfg, env, sessionDir, st, file) == BackupThenWrite(cfg, env, sessionDir, st2, file);
    }
  }

  /**
    With a collision-free digest, an existing file is backed up and rewritten
    exactly when its bytes differ from the decoded source.
   */
  lemma RewrittenIffContentDiffers(cfg: Config, env: Env, sessionDir: Path, st: State, file: CodeFile)
    requires DigestGated(cfg)
    requires forall a, b :: env.hash(a) == env.hash(b) ==> a == b
    requires IsFile(st.fs, Target(sessionDir, file)) && Exists(st.fs, Parent(Target(sessionDir, file)))
    ensures var w := WriteCodeFile(cfg, env, sessionDir, st, file);
            w.Done? ==> (w.st.acc.files != st.acc.files <==> st.fs[Target(sessionDir, file)].content != Decoded(cfg, file))
  {
    var t := Target(sessionDir, file);
    if st.fs[t].content == Decoded(cfg, file) {
      UnchangedFileIsSkipped(cfg, env, sessionDir, st, file);
    } else {
      ModifiedFileIsBackedUp(cfg, env, sessionDir, st, file);
    }
  }

  /**
    A file that did not exist is written and recorded once, with no backup:
    besides the target, the only new entries are the directories on the way
    to it, none of them in the backup area, and nothing that existed changes.
   */
  lemma NewFileIsCreated(cfg: Config, env: Env, sessionDir: Path, st: State, file: CodeFile)
    requires !Exists(st.fs, Target(sessionDir, file))
    requires !InBackupArea(sessionDir, Target(sessionDir, file))
    requires !InBackupArea(sessionDir, Parent(Target(sessionDir, file)))
    ensures var t := Target(sessionDir, file);
            var w := WriteCodeFile(cfg, env, sessionDir, st, file);
            w.Done? ==>
              && w.st.fs[t] == File(Decoded(cfg, file))
              && Keeps(st.fs, w.st.fs)
              && (forall q :: q in w.st.fs && q !in st.fs && q != t ==> q in Prefixes(Parent(t)) && w.st.fs[q] == Dir)
              && (forall q :: q in w.st.fs && q !in st.fs ==> !InBackupArea(sessionDir, q))
              && w.st.acc.files == st.acc.files + [t]
              && w.st.acc.dirs == st.acc.dirs + (if Exists(st.fs, Parent(t)) then [] else [Parent(t)])
              && (Exists(st.fs, Parent(t)) ==> w.st.fs == st.fs[t := File(Decoded(cfg, file))])
  {
    var t := Target(sessionDir, file);
    var d := EnsureDir(env, st, Parent(t), Some(DirectoryCreated));
    if d.Done? {
      var st1 := d.st;
      NotOwnParentPrefix(t);
      var st2 := st1.(acc := st1.acc.Info("File created: " + PathText(t)));
      assert WriteCodeFile(cfg, env, sessionDir, st, file) == WriteTarget(cfg, env, st2, t, file);
      var w := WriteTarget(cfg, env, st2, t, file);
      if w.Done? {
        forall q | q in w.st.fs && q !in st.fs
          ensures !InBackupArea(sessionDir, q)
        {
          if q != t {
            BackupAreaUpward(sessionDir, Parent(t), q);
          }
        }
        if Exists(st.fs, Parent(t)) {
          assert w.st.fs == st.fs[t := File(Decoded(cfg, file))];
        }
      }
    }
  }

  /** A non-empty path is not among the prefixes of its own parent. */
  lemma NotOwnParentPrefix(t: Path)
    requires |t| > 0
    ensures t !in Prefixes(Parent(t))
  {
    forall i | 1 <= i <= |Parent(t)|
      ensures t != Parent(t)[..i]
    {
      assert |Parent(t)[..i]| < |t|;
    }
  }

  /** A path that has a prefix in the backup area lies in it too. */
  lemma BackupAreaUpward(sessionDir: Path, p: Path, q: Path)
    requires q in Prefixes(p)
    ensures InBackupArea(sessionDir, q) ==> InBackupArea(sessionDir, p)
  {
    var i :| 1 <= i <= |p| && q == p[..i];
    var b := BackupRoot(sessionDir);
    if |b| <= |q| {
      assert p[..|b|] == q[..|b|];
    }
  }

  /**
    The three-way classification of a target whose directory exists: an
    absent target (or any target when existing ones are not examined) is
    written with no backup; an examined existing file is left alone when the
    digest policy sees no change, and otherwise backed up before it is
    rewritten; an examined target that is not a file stops the run.
   */
  lemma PlaceCodeFileClassifies(cfg: Config, env: Env, sessionDir: Path, st: State, file: CodeFile)
    ensures var t := Target(sessionDir, file);
            var r := PlaceCodeFile(cfg, env, sessionDir, st, file);
            && (!Exists(st.fs, t) || !ChecksExisting(cfg) ==>
                  r.Done? ==> r.st.acc.files == st.acc.files + [t] && r.st.fs == st.fs[t := File(Decoded(cfg, file))])
            && (Exists(st.fs, t) && ChecksExisting(cfg) && !IsFile(st.fs, t) ==> r.Aborted?)
            && (IsFile(st.fs, t) && ChecksExisting(cfg) && cfg.backup.HashGated?
                && env.hash(st.fs[t].content) == env.hash(Decoded(cfg, file)) ==>
                  r.Done? && r.st.fs == st.fs && r.st.acc.files == st.acc.files)
            && (IsFile(st.fs, t) && ChecksExisting(cfg)
                && (cfg.backup.Unconditional? || env.hash(st.fs[t].content) != env.hash(Decoded(cfg, file))) ==>
                  r.Done? ==>
                    var backup := BackupPath(sessionDir, t[|sessionDir|..]);
                    && backup in r.st.fs && r.st.fs[backup] == st.fs[t]
                    && r.st.fs[t] == File(Decoded(cfg, file))
                    && r.st.acc.files == st.acc.files + [backup, t])
  {
    var t := Target(sessionDir, file);
    var r := PlaceCodeFile(cfg, env, sessionDir, st, file);
    if !Exists(st.fs, t) || !ChecksExisting(cfg) {
      var st1 := st.(acc := st.acc.Info("File created: " + PathText(t)));
      assert r == WriteTarget(cfg, env, st1, t, file);
      if r.Done? {
        assert r.st.fs == st.fs[t := File(Decoded(cfg, file))];
      }
    } else if cfg.backup.HashGated? {
      assert r == WriteIfChanged(cfg, env, sessionDir, st, file);
      if IsFile(st.fs, t) {
        assert FileDigest(st.fs, t, env.hash) == Ok(env.hash(st.fs[t].content));
      }
    }
  }

  // ---------------------------------------------------------------------------
  // Re-running the engine.

  /** Scaffolding a tree that is already covered does nothing at all, not even logging. */
  lemma {:induction false} ScaffoldCoveredIsIdle(env: Env, at: Path, node: TreeNode, st: State)
    requires Covered(st.fs, at, node)
    ensures Scaffold(env, at, node, st) == Done(st)
    decreases node, 1
  {
    if node.isDirectory {
      assert EnsureDir(env, st, at, Some(DirectoryCreated)) == Done(st);
      ScaffoldChildrenCoveredIsIdle(env, at, node.children, st);
    } else {
      assert EnsureDir(env, st, Parent(at), Some(DirectoryCreated)) == Done(st);
    }
  }

  lemma {:induction false} ScaffoldChildrenCoveredIsIdle(env: Env, at: Path, children: seq<TreeNode>, st: State)
    requires forall i :: 0 <= i < |children| ==> Covered(st.fs, at + Split(children[i].name), children[i])
    ensures ScaffoldChildren(env, at, children, st) == Done(st)
    decreases children, 0
  {
    if |children| > 0 {
      ScaffoldCoveredIsIdle(env, at + Split(children[0].name), children[0], st);
      assert forall i :: 0 <= i < |children[1..]| ==> children[1..][i] == children[i + 1];
      ScaffoldChildrenCoveredIsIdle(env, at, children[1..], st);
    }
  }

  /** Every file of `files` is in place. */
  predicate AllInPlace(cfg: Config, env: Env, fs: Fs, sessionDir: Path, files: seq<CodeFile>) {
    forall i :: 0 <= i < |files| ==> InPlace(cfg, env, fs, sessionDir, files[i])
  }

  /** With every file in place, writing the files changes neither the file system nor the lists. */
  lemma {:induction false} WriteAllInPlaceIsIdle(cfg: Config, env: Env, sessionDir: Path, st: State, files: seq<CodeFile>)
    requires DigestGated(cfg)
    requires AllInPlace(cfg, env, st.fs, sessionDir, files)
    ensures WriteAll(cfg, env, sessionDir, st, files).Done?
    ensures WriteAll(cfg, env, sessionDir, st, files).st.fs == st.fs
    ensures WriteAll(cfg, env, sessionDir, st, files).st.acc.dirs == st.acc.dirs
    ensures WriteAll(cfg, env, sessionDir, st, files).st.acc.files == st.acc.files
    decreases |files|
  {
    if |files| > 0 {
      UnchangedFileIsSkipped(cfg, env, sessionDir, st, files[0]);
      var st1 := st.(acc := st.acc.Info("File unchanged: " + PathText(Target(sessionDir, files[0]))));
      assert AllInPlace(cfg, env, st1.fs, sessionDir, files[1..]) by {
        forall i | 0 <= i < |files[1..]|
          ensures InPlace(cfg, env, st1.fs, sessionDir, files[1..][i])
        {
          assert files[1..][i] == files[i + 1];
        }
      }
      WriteAllInPlaceIsIdle(cfg, env, sessionDir, st1, files[1..]);
    }
  }

  /** No two files share a target, and none is written into the backup area. */
  predicate SeparateTargets(sessionDir: Path, files: seq<CodeFile>) {
    && (forall i, j :: 0 <= i < j < |files| ==> Target(sessionDir, files[i]) != Target(sessionDir, files[j]))
    && (forall i :: 0 <= i < |files| ==> !InBackupArea(sessionDir, Target(sessionDir, files[i])))
  }

  lemma SeparateTail(sessionDir: Path, files: seq<CodeFile>)
    requires |files| > 0 && SeparateTargets(sessionDir, files)
    ensures SeparateTargets(sessionDir, files[1..])
    ensures Target(sessionDir, files[0]) !in Targets(sessionDir, files[1..])
  {
    assert forall i :: 0 <= i < |files[1..]| ==> files[1..][i] == files[i + 1];
  }

  /** A later step framed away from a file's target keeps that file in place. */
  lemma InPlacePersists(cfg: Config, env: Env, sessionDir: Path, file: CodeFile, targets: set<Path>, st: State, st': State)
    requires InPlace(cfg, env, st.fs, sessionDir, file)
    requires Target(sessionDir, file) !in targets && !InBackupArea(sessionDir, Target(sessionDir, file))
    requires FramedBy(sessionDir, targets, st.fs, st'.fs) && Grows(st, st')
    ensures InPlace(cfg, env, st'.fs, sessionDir, file)
  {
  }

  /** A completed pass leaves every file in place, provided the files do not overwrite each other. */
  lemma {:induction false} WriteAllPlacesFiles(cfg: Config, env: Env, sessionDir: Path, st: State, files: seq<CodeFile>)
    requires SeparateTargets(sessionDir, files)
    ensures var w := WriteAll(cfg, env, sessionDir, st, files);
            w.Done? ==> AllInPlace(cfg, env, w.st.fs, sessionDir, files)
    decreases |files|
  {
    if |files| > 0 && WriteAll(cfg, env, sessionDir, st, files).Done? {
      var st1 := WriteCodeFile(cfg, env, sessionDir, st, files[0]).st;
      var rest := files[1..];
      var r := WriteAll(cfg, env, sessionDir, st1, rest).st;
      SeparateTail(sessionDir, files);
      WriteAllPlacesFiles(cfg, env, sessionDir, st1, rest);
      InPlacePersists(cfg, env, sessionDir, files[0], Targets(sessionDir, rest), st1, r);
      forall i | 0 <= i < |files|
        ensures InPlace(cfg, env, r.fs, sessionDir, files[i])
      {
        if i > 0 {
          assert files[i] == rest[i - 1];
        }
      }
    }
  }

  /**
    Building again over the result of a completed build creates no directory,
    writes no file and leaves the file system as it was. The second run may
    draw different random numbers; it digests with the same function.
   */
  lemma BuildTwiceIsIdle(cfg: Config, env: Env, env2: Env, sessionDir: Path, root: TreeNode, files: seq<CodeFile>, fs: Fs)
    requires DigestGated(cfg) && SeparateTargets(sessionDir, files)
    requires env2.hash == env.hash
    ensures var r1 := Build(cfg, env, sessionDir, root, files, fs);
            var r2 := Build(cfg, env2, sessionDir, root, files, r1.st.fs);
            r1.Done? ==>
              && r2.Done? && r2.st.fs == r1.st.fs
              && r2.st.acc.dirs == [] && r2.st.acc.files == []
  {
    if Build(cfg, env, sessionDir, root, files, fs).Done? {
      BuildTwiceFromDone(cfg, env, env2, sessionDir, root, files, fs);
    }
  }

  lemma BuildTwiceFromDone(cfg: Config, env: Env, env2: Env, sessionDir: Path, root: TreeNode, files: seq<CodeFile>, fs: Fs)
    requires DigestGated(cfg) && SeparateTargets(sessionDir, files)
    requires env2.hash == env.hash
    requires Build(cfg, env, sessionDir, root, files, fs).Done?
    ensures var fs1 := Build(cfg, env, sessionDir, root, files, fs).st.fs;
            var r2 := Build(cfg, env2, sessionDir, root, files, fs1);
            && r2.Done? && r2.st.fs == fs1
            && r2.st.acc.dirs == [] && r2.st.acc.files == []
  {
    var at := RootPath(cfg.rootMode, sessionDir, root);
    var s1 := Scaffold(env, at, root, State(fs, EmptyAcc)).st;
    var w := WriteAll(cfg, env, sessionDir, s1, files).st;
    CoveredMono(s1.fs, w.fs, at, root);
    WriteAllPlacesFiles(cfg, env, sessionDir, s1, files);
    var fs1 := w.fs;
    assert Build(cfg, env, sessionDir, root, files, fs).st.fs == fs1;
    ScaffoldCoveredIsIdle(env2, at, root, State(fs1, EmptyAcc));
    assert AllInPlace(cfg, env2, fs1, sessionDir, files);
    WriteAllInPlaceIsIdle(cfg, env2, sessionDir, State(fs1, EmptyAcc), files);
  }

  /**
    Materialising the same structure twice under the same session id: the
    second call leaves the file system as the first left it and reports no
    created directory or file.
   */
  lemma MaterializeIsIdempotent(cfg: Config, env: Env, draw2: nat -> string, fs: Fs, ps: ProjectStructure, rootPath: Option<string>)
    requires DigestGated(cfg) && Truthy(ps.sessionId) && Acceptable(cfg.requireSessionId, ps)
    requires SeparateTargets(SessionDir(env, rootPath, ps.sessionId.value), ps.code.files)
    ensures var r1 := Materialize(cfg, env, fs, ps, rootPath);
            var r2 := Materialize(cfg, env.(draw := draw2), r1.step.st.fs, ps, rootPath);
            && r1.Ran?
            && (r1.step.Done? ==>
                  && r2.Ran? && r2.sessionId == r1.sessionId && r2.sessionDir == r1.sessionDir
                  && r2.step.Done? && r2.step.st.fs == r1.step.st.fs
                  && r2.step.st.acc.dirs == [] && r2.step.st.acc.files == [])
  {
    var r1 := Materialize(cfg, env, fs, ps, rootPath);
    var env2 := env.(draw := draw2);
    BuildTwiceIsIdle(cfg, env, env2, r1.sessionDir, ps.folderStructure.root, ps.code.files, fs);
  }
}
