/**
  What scaffolding the declared tree records. The recorded directories and
  files follow a depth-first traversal with children in declared order, and
  every entry the scaffold creates is accounted for in the records.
 */
module ScaffoldProps {
  import opened Common
  import opened Paths
  import opened FileSystem
  import opened Project
  import opened Engine

  /** `a` is `b` with some entries left out and the rest kept in order. */
  predicate Subseq(a: seq<Path>, b: seq<Path>)
    decreases |b|
  {
    if |b| == 0 then |a| == 0
    else (|a| > 0 && a[0] == b[0] && Subseq(a[1..], b[1..])) || Subseq(a, b[1..])
  }

  lemma {:induction false} EmptySubseq(b: seq<Path>)
    ensures Subseq([], b)
    decreases |b|
  {
    if |b| > 0 {
      EmptySubseq(b[1..]);
    }
  }

  lemma {:induction false} SubseqConcat(a1: seq<Path>, b1: seq<Path>, a2: seq<Path>, b2: seq<Path>)
    requires Subseq(a1, b1) && Subseq(a2, b2)
    ensures Subseq(a1 + a2, b1 + b2)
    decreases |b1|
  {
    if |b1| == 0 {
      assert a1 + a2 == a2 && b1 + b2 == b2;
    } else {
      assert (b1 + b2)[1..] == b1[1..] + b2;
      if |a1| > 0 && a1[0] == b1[0] && Subseq(a1[1..], b1[1..]) {
        SubseqConcat(a1[1..], b1[1..], a2, b2);
        assert (a1 + a2)[1..] == a1[1..] + a2;
      } else {
        SubseqConcat(a1, b1[1..], a2, b2);
      }
    }
  }

  /** At most the one entry `x`, in either case a subsequence of `[x]`. */
  lemma AtMostOne(a: seq<Path>, x: Path)
    requires a == [] || a == [x]
    ensures Subseq(a, [x])
  {
    if a == [] {
      EmptySubseq([x]);
    } else {
      assert a[1..] == [] && [x][1..] == [];
    }
  }

  /** The new entries of `c` past `a` are those past `a` in `b`, then those past `b` in `c`. */
  lemma SliceJoin(a: seq<Path>, b: seq<Path>, c: seq<Path>)
    requires a <= b && b <= c
    ensures c[|a|..] == b[|a|..] + c[|b|..]
  {
  }

  // ---------------------------------------------------------------------------
  // The reference traversal.

  /**
    The directories a scaffold of `node` at `at` may record, in depth-first
    order: a directory node's own path, and a file node's parent.
   */
  function NodeDirs(at: Path, node: TreeNode): seq<Path>
    decreases node, 1
  {
    if node.isDirectory then [at] + ChildDirs(at, node.children) else [Parent(at)]
  }

  function ChildDirs(at: Path, children: seq<TreeNode>): seq<Path>
    decreases children, 0
  {
    if |children| == 0 then []
    else NodeDirs(at + Split(children[0].name), children[0]) + ChildDirs(at, children[1..])
  }

  /** The placeholder files a scaffold of `node` at `at` may record, in depth-first order. */
  function NodeFiles(at: Path, node: TreeNode): seq<Path>
    decreases node, 1
  {
    if node.isDirectory then ChildFiles(at, node.children) else [at]
  }

  function ChildFiles(at: Path, children: seq<TreeNode>): seq<Path>
    decreases children, 0
  {
    if |children| == 0 then []
    else NodeFiles(at + Split(children[0].name), children[0]) + ChildFiles(at, children[1..])
  }

  // ---------------------------------------------------------------------------
  // Order.

  /**
    The directories and files one scaffold records are subsequences of the
    reference traversal: nothing outside the tree is recorded, and what is
    recorded comes depth first, children in declared order.
   */
  lemma {:induction false} ScaffoldRecordsInOrder(env: Env, at: Path, node: TreeNode, st: State)
    ensures var r := Scaffold(env, at, node, st);
            && Subseq(r.st.acc.dirs[|st.acc.dirs|..], NodeDirs(at, node))
            && Subseq(r.st.acc.files[|st.acc.files|..], NodeFiles(at, node))
    decreases node, 1
  {
    var r := Scaffold(env, at, node, st);
    var dir := if node.isDirectory then at else Parent(at);
    var e := EnsureDir(env, st, dir, Some(DirectoryCreated));
    if e.Aborted? {
      assert r.st == st;
      EmptySubseq(NodeDirs(at, node));
      EmptySubseq(NodeFiles(at, node));
    } else {
      var st1 := e.st;
      var head := st1.acc.dirs[|st.acc.dirs|..];
      AtMostOne(head, dir);
      SliceJoin(st.acc.dirs, st1.acc.dirs, r.st.acc.dirs);
      if node.isDirectory {
        ScaffoldChildrenRecordsInOrder(env, at, node.children, st1);
        SubseqConcat(head, [at], r.st.acc.dirs[|st1.acc.dirs|..], ChildDirs(at, node.children));
      } else {
        var p := Placeholder(env, st1, at);
        assert r == p;
        assert p.st.acc.dirs == st1.acc.dirs;
        assert head + [] == head;
        AtMostOne(p.st.acc.files[|st1.acc.files|..], at);
      }
    }
  }

  lemma {:induction false} ScaffoldChildrenRecordsInOrder(env: Env, at: Path, children: seq<TreeNode>, st: State)
    ensures var r := ScaffoldChildren(env, at, children, st);
            && Subseq(r.st.acc.dirs[|st.acc.dirs|..], ChildDirs(at, children))
            && Subseq(r.st.acc.files[|st.acc.files|..], ChildFiles(at, children))
    decreases children, 0
  {
    if |children| == 0 {
      assert Subseq([], []);
    } else {
      var r := ScaffoldChildren(env, at, children, st);
      var c := children[0];
      var s := Scaffold(env, at + Split(c.name), c, st);
      ScaffoldRecordsInOrder(env, at + Split(c.name), c, st);
      if s.Aborted? {
        assert r == s;
        EmptySubseq(ChildDirs(at, children[1..]));
        EmptySubseq(ChildFiles(at, children[1..]));
        SubseqConcat(s.st.acc.dirs[|st.acc.dirs|..], NodeDirs(at + Split(c.name), c), [], ChildDirs(at, children[1..]));
        SubseqConcat(s.st.acc.files[|st.acc.files|..], NodeFiles(at + Split(c.name), c), [], ChildFiles(at, children[1..]));
        assert s.st.acc.dirs[|st.acc.dirs|..] + [] == s.st.acc.dirs[|st.acc.dirs|..];
        assert s.st.acc.files[|st.acc.files|..] + [] == s.st.acc.files[|st.acc.files|..];
      } else {
        ScaffoldChildrenRecordsInOrder(env, at, children[1..], s.st);
        assert r == ScaffoldChildren(env, at, children[1..], s.st);
        SliceJoin(st.acc.dirs, s.st.acc.dirs, r.st.acc.dirs);
        SliceJoin(st.acc.files, s.st.acc.files, r.st.acc.files);
        SubseqConcat(s.st.acc.dirs[|st.acc.dirs|..], NodeDirs(at + Split(c.name), c),
                     r.st.acc.dirs[|s.st.acc.dirs|..], ChildDirs(at, children[1..]));
        SubseqConcat(s.st.acc.files[|st.acc.files|..], NodeFiles(at + Split(c.name), c),
                     r.st.acc.files[|s.st.acc.files|..], ChildFiles(at, children[1..]));
      }
    }
  }

  // ---------------------------------------------------------------------------
  // Completeness.

  /**
    Every entry created between `st` and `st'` is a recorded file, or a
    recorded directory, or a directory `mkdir -p` made on the way to one.
   */
  predicate CreatedAreRecorded(st: State, st': State) {
    && st.acc.Prefixes(st'.acc)
    && forall q :: q in st'.fs && q !in st.fs ==>
         || q in st'.acc.files[|st.acc.files|..]
         || exists d :: d in st'.acc.dirs[|st.acc.dirs|..] && IsPrefix(q, d)
  }

  lemma CreatedTrans(a: State, b: State, c: State)
    requires CreatedAreRecorded(a, b) && CreatedAreRecorded(b, c)
    ensures CreatedAreRecorded(a, c)
  {
    SliceJoin(a.acc.dirs, b.acc.dirs, c.acc.dirs);
    SliceJoin(a.acc.files, b.acc.files, c.acc.files);
    SliceJoin(a.acc.dirs, b.acc.dirs, b.acc.dirs);
    SliceJoin(a.acc.files, b.acc.files, b.acc.files);
  }

  /** One `EnsureDir` creates only the announced directory and its missing ancestors, and records it. */
  lemma EnsureDirRecordsCreated(env: Env, st: State, dir: Path)
    ensures CreatedAreRecorded(st, EnsureDir(env, st, dir, Some(DirectoryCreated)).st)
  {
    var e := EnsureDir(env, st, dir, Some(DirectoryCreated));
    if e.Done? && !Exists(st.fs, dir) {
      assert e.st.acc.dirs[|st.acc.dirs|..] == [dir];
      forall q | q in e.st.fs && q !in st.fs
        ensures IsPrefix(q, dir)
      {
        var i :| 1 <= i <= |dir| && q == dir[..i];
      }
    }
  }

  /** A placeholder creates only its own path, and records it. */
  lemma PlaceholderRecordsCreated(env: Env, st: State, at: Path)
    ensures CreatedAreRecorded(st, Placeholder(env, st, at).st)
  {
    var p := Placeholder(env, st, at);
    if !Exists(st.fs, at) {
      var w := WriteFile(st.fs, at, "", env.faults);
      if w.Ok? {
        assert p.st.fs == w.value;
        assert p.st.acc.files[|st.acc.files|..] == [at];
      }
    }
  }

  /**
    Scaffolding creates nothing unrecorded. Together with `Covered`, every
    node path that was absent is recorded, or lies on the way to a recorded
    directory.
   */
  lemma {:induction false} ScaffoldRecordsCreated(env: Env, at: Path, node: TreeNode, st: State)
    ensures CreatedAreRecorded(st, Scaffold(env, at, node, st).st)
    decreases node, 2
  {
    if node.isDirectory {
      DirNodeRecordsCreated(env, at, node, st);
    } else {
      FileNodeRecordsCreated(env, at, node, st);
    }
  }

  lemma {:induction false} DirNodeRecordsCreated(env: Env, at: Path, node: TreeNode, st: State)
    requires node.isDirectory
    ensures CreatedAreRecorded(st, Scaffold(env, at, node, st).st)
    decreases node, 1
  {
    var e := EnsureDir(env, st, at, Some(DirectoryCreated));
    EnsureDirRecordsCreated(env, st, at);
    if e.Done? {
      assert Scaffold(env, at, node, st) == ScaffoldChildren(env, at, node.children, e.st);
      ScaffoldChildrenRecordsCreated(env, at, node.children, e.st);
      CreatedTrans(st, e.st, ScaffoldChildren(env, at, node.children, e.st).st);
    }
  }

  lemma FileNodeRecordsCreated(env: Env, at: Path, node: TreeNode, st: State)
    requires !node.isDirectory
    ensures CreatedAreRecorded(st, Scaffold(env, at, node, st).st)
  {
    var e := EnsureDir(env, st, Parent(at), Some(DirectoryCreated));
    EnsureDirRecordsCreated(env, st, Parent(at));
    if e.Done? {
      assert Scaffold(env, at, node, st) == Placeholder(env, e.st, at);
      PlaceholderRecordsCreated(env, e.st, at);
      CreatedTrans(st, e.st, Placeholder(env, e.st, at).st);
    }
  }

  lemma {:induction false} ScaffoldChildrenRecordsCreated(env: Env, at: Path, children: seq<TreeNode>, st: State)
    ensures CreatedAreRecorded(st, ScaffoldChildren(env, at, children, st).st)
    decreases children, 0
  {
    if |children| > 0 {
      var r := ScaffoldChildren(env, at, children, st);
      var c := children[0];
      var s := Scaffold(env, at + Split(c.name), c, st);
      ScaffoldRecordsCreated(env, at + Split(c.name), c, st);
      if s.Done? {
        ScaffoldChildrenRecordsCreated(env, at, children[1..], s.st);
        CreatedTrans(st, s.st, r.st);
      }
    }
  }

  /** A covered tree has every path of the reference traversal in place. */
  lemma {:induction false} CoveredHasNodePaths(fs: Fs, at: Path, node: TreeNode)
    requires Covered(fs, at, node)
    ensures forall p :: p in NodeDirs(at, node) ==> Exists(fs, p)
    ensures forall p :: p in NodeFiles(at, node) ==> Exists(fs, p)
    decreases node, 1
  {
    if node.isDirectory {
      CoveredChildrenHaveNodePaths(fs, at, node.children);
    }
  }

  lemma {:induction false} CoveredChildrenHaveNodePaths(fs: Fs, at: Path, children: seq<TreeNode>)
    requires forall i :: 0 <= i < |children| ==> Covered(fs, at + Split(children[i].name), children[i])
    ensures forall p :: p in ChildDirs(at, children) ==> Exists(fs, p)
    ensures forall p :: p in ChildFiles(at, children) ==> Exists(fs, p)
    decreases children, 0
  {
    if |children| > 0 {
      CoveredHasNodePaths(fs, at + Split(children[0].name), children[0]);
      assert forall i :: 0 <= i < |children[1..]| ==> children[1..][i] == children[i + 1];
      CoveredChildrenHaveNodePaths(fs, at, children[1..]);
    }
  }

  /**
    After a successful scaffold, every directory or file of the declared tree
    that was absent before is recorded, or was made by `mkdir -p` on the way
    to a recorded directory.
   */
  lemma ScaffoldAccountsForTree(env: Env, at: Path, node: TreeNode, st: State)
    ensures var r := Scaffold(env, at, node, st);
            r.Done? ==>
              forall p :: (p in NodeDirs(at, node) || p in NodeFiles(at, node)) && !Exists(st.fs, p) ==>
                || p in r.st.acc.files[|st.acc.files|..]
                || exists d :: d in r.st.acc.dirs[|st.acc.dirs|..] && IsPrefix(p, d)
  {
    var r := Scaffold(env, at, node, st);
    ScaffoldRecordsCreated(env, at, node, st);
    if r.Done? {
      CoveredHasNodePaths(r.st.fs, at, node);
    }
  }

  /**
    Completeness holds only up to `mkdir -p`: a sibling `x/y` creates `x` on
    the way, so a later sibling `x` already exists and is not recorded.
   */
  lemma IntermediateDirectoryNotRecorded(env: Env)
    requires env.faults == {}
    ensures var node := TreeNode("r", true, [TreeNode("x/y", true, []), TreeNode("x", true, [])]);
            var st := State(map[["s"] := Dir], EmptyAcc);
            var r := Scaffold(env, ["s"], node, st);
            && ["s", "x"] in NodeDirs(["s"], node) && !Exists(st.fs, ["s", "x"])
            && r.Done? && r.st.acc.dirs == [["s", "x", "y"]]
  {
    var xy := TreeNode("x/y", true, []);
    var x := TreeNode("x", true, []);
    var node := TreeNode("r", true, [xy, x]);
    var st := State(map[["s"] := Dir], EmptyAcc);
    var px: Path := ["s", "x"];
    SplitSamples();
    var st1 := FirstSiblingMakesParent(env);
    assert ["s"] + Split("x") == px;
    assert EnsureDir(env, st, ["s"], Some(DirectoryCreated)) == Done(st);
    assert EnsureDir(env, st1, px, Some(DirectoryCreated)) == Done(st1);
    assert ScaffoldChildren(env, px, [], st1) == Done(st1);
    assert Scaffold(env, px, x, st1) == Done(st1);
    assert [xy, x][1..] == [x] && [x][1..] == [];
    assert ScaffoldChildren(env, ["s"], [x], st1) == Done(st1);
    assert ScaffoldChildren(env, ["s"], [xy, x], st) == Done(st1);
    assert NodeDirs(px, x)[0] == px;
  }

  /** The first sibling `x/y` is created, recorded alone, and brings `x` with it. */
  lemma FirstSiblingMakesParent(env: Env) returns (st1: State)
    requires env.faults == {}
    ensures var st := State(map[["s"] := Dir], EmptyAcc);
            && Scaffold(env, ["s"] + Split("x/y"), TreeNode("x/y", true, []), st) == Done(st1)
            && st1.acc.dirs == [["s", "x", "y"]]
            && Exists(st1.fs, ["s", "x"])
  {
    SplitSamples();
    var st := State(map[["s"] := Dir], EmptyAcc);
    var pxy: Path := ["s", "x", "y"];
    assert ["s"] + Split("x/y") == pxy;
    assert !BlockedByFile(st.fs, pxy) by {
      forall i | 1 <= i <= |pxy|
        ensures !IsFile(st.fs, pxy[..i])
      {
        if pxy[..i] in st.fs {
          assert pxy[..i] == ["s"];
        }
      }
    }
    var e := EnsureDir(env, st, pxy, Some(DirectoryCreated));
    st1 := e.st;
    assert e.Done? && st1.acc.dirs == [pxy];
    assert pxy[..2] == ["s", "x"] && pxy[..2] in Prefixes(pxy);
    assert ScaffoldChildren(env, pxy, [], st1) == Done(st1);
  }

  lemma SplitSamples()
    ensures Split("x/y") == ["x", "y"] && Split("x") == ["x"]
  {
    assert "x/y"[1..] == "/y" && "/y"[1..] == "y" && "y"[1..] == "" && "x"[1..] == "";
    assert "" + ['x'] == "x" && "" + ['y'] == "y";
    assert SplitFrom("y", "") == ["y"];
    assert SplitFrom("/y", "x") == ["x", "y"];
    assert SplitFrom("x", "") == ["x"];
  }
}
