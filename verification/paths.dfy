/**
  Paths as sequences of segments. `path.join` is modelled as concatenating the
  segments of each argument, where a string argument is split on '/' and empty
  segments are dropped; "." and ".." segments are assumed not to occur.
 */
module Paths {
  import opened Common

  type Path = seq<string>

  /** Name of the per-session backup directory. */
  const BackupDirName: string := ".backup"

  /** The leading marker a declared code-file path may carry. */
  const RootMarker: string := "ROOT"

  predicate IsSeparator(c: char) {
    c == '/' || c == '\\'
  }

  predicate ValidSegments(p: Path) {
    forall i :: 0 <= i < |p| ==> p[i] != "" && '/' !in p[i]
  }

  /** Segments of `s` after the partially read segment `cur`. */
  function SplitFrom(s: string, cur: string): (r: Path)
    requires '/' !in cur
    ensures ValidSegments(r)
    decreases |s|
  {
    if |s| == 0 then
      (if cur == "" then [] else [cur])
    else if s[0] == '/' then
      (if cur == "" then [] else [cur]) + SplitFrom(s[1..], "")
    else
      SplitFrom(s[1..], cur + [s[0]])
  }

  /** The segments `path.join` contributes for one string argument. */
  function Split(s: string): (r: Path)
    ensures ValidSegments(r)
  {
    SplitFrom(s, "")
  }

  /** Text of a path, as it appears in log lines and result lists. */
  function PathText(p: Path): string {
    JoinWith(p, "/")
  }

  /** `path.dirname`; the root's parent is the root. */
  function Parent(p: Path): Path {
    if |p| == 0 then [] else p[..|p| - 1]
  }

  /** The non-empty prefixes of `p`, `p` included: what `mkdir -p p` may create. */
  function Prefixes(p: Path): set<Path> {
    set i | 1 <= i <= |p| :: p[..i]
  }

  predicate IsPrefix(a: Path, b: Path) {
    |a| <= |b| && b[..|a|] == a
  }

  /** The directory holding every backup of session `sessionDir`. */
  function BackupRoot(sessionDir: Path): Path {
    sessionDir + [BackupDirName]
  }

  predicate InBackupArea(sessionDir: Path, p: Path) {
    IsPrefix(BackupRoot(sessionDir), p)
  }

  predicate HasRootMarker(p: string) {
    |p| > |RootMarker| && p[..|RootMarker|] == RootMarker && IsSeparator(p[|RootMarker|])
  }

  /**
    `file.path.replace(/^ROOT[\\/]/, '')`: one leading "ROOT/" or "ROOT\" is
    removed; anything else, "ROOT" alone or "ROOTS/x" included, is kept.
   */
  function StripRootMarker(p: string): (r: string)
    ensures HasRootMarker(p) ==> p == p[..|RootMarker| + 1] + r
    ensures !HasRootMarker(p) ==> r == p
    ensures |r| <= |p|
  {
    if HasRootMarker(p) then p[|RootMarker| + 1..] else p
  }

  /** `path.join(basePath, stripped declared path, file name)`. */
  function Resolve(base: Path, declaredPath: string, fileName: string): (r: Path)
    ensures IsPrefix(base, r)
  {
    base + Split(StripRootMarker(declaredPath)) + Split(fileName)
  }

  /** The root marker with either separator, and nothing else, is removed. */
  lemma StripRootMarkerExact(x: string)
    ensures StripRootMarker("ROOT/" + x) == x
    ensures StripRootMarker("ROOT\\" + x) == x
    ensures StripRootMarker("ROOT") == "ROOT"
    ensures StripRootMarker("ROOTS/" + x) == "ROOTS/" + x
    ensures StripRootMarker("ROOT/ROOT/" + x) == "ROOT/" + x
  {
    assert ("ROOT/" + x)[..4] == "ROOT";
    assert ("ROOT\\" + x)[..4] == "ROOT";
    assert ("ROOT/" + x)[5..] == x;
    assert ("ROOT\\" + x)[5..] == x;
    assert ("ROOTS/" + x)[4] == 'S';
    assert ("ROOT/ROOT/" + x)[..4] == "ROOT";
    assert ("ROOT/ROOT/" + x)[5..] == "ROOT/" + x;
  }

  /**
    A code file declared under "ROOT/" or "ROOT\" lands where the unmarked path
    does. Only one marker is removed, so `x` must not carry another one.
   */
  lemma RootMarkerResolvesSame(base: Path, x: string, name: string)
    requires !HasRootMarker(x)
    ensures Resolve(base, "ROOT/" + x, name) == Resolve(base, x, name)
    ensures Resolve(base, "ROOT\\" + x, name) == Resolve(base, x, name)
  {
    StripRootMarkerExact(x);
  }

  lemma {:induction false} SplitFromPlain(s: string, cur: string)
    requires '/' !in s && '/' !in cur && cur + s != ""
    ensures SplitFrom(s, cur) == [cur + s]
    decreases |s|
  {
    if |s| == 0 {
      assert cur + s == cur;
    } else {
      assert (cur + [s[0]]) + s[1..] == cur + s;
      SplitFromPlain(s[1..], cur + [s[0]]);
    }
  }

  /** A name without a separator is one segment: `path.join(base, name)` adds exactly `name`. */
  lemma SplitPlainName(s: string)
    requires s != "" && '/' !in s
    ensures Split(s) == [s]
  {
    SplitFromPlain(s, "");
    assert "" + s == s;
  }
}
