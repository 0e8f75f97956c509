/**
  The file system as a value. Every synchronous `fs` call the engines make is a
  function from a file-system value to either a new value or an error. The
  empty path is the working directory, which always exists.

  Besides the structural failures Node reports (a missing parent, a directory
  where a file is expected, a file where a directory is expected), a set of
  `faults` stands for everything else that can make a mutation fail
  (permissions, a full disk): any mutation whose target is in it fails.
  Reads do not consult `faults`; they fail only on a missing path or a
  directory.
 */
module FileSystem {
  import opened Paths

  datatype Node = Dir | File(content: string)

  type Fs = map<Path, Node>

  datatype FsError =
    | NoEntry(path: Path)
    | NotADirectory(path: Path)
    | IsADirectory(path: Path)
    | Denied(path: Path)

  datatype FsResult<+T> = Ok(value: T) | Err(error: FsError)

  /** The text carried by the thrown error's `message`. */
  function ErrorMessage(e: FsError): string {
    match e
    case NoEntry(p) => "ENOENT: no such file or directory, '" + PathText(p) + "'"
    case NotADirectory(p) => "ENOTDIR: not a directory, '" + PathText(p) + "'"
    case IsADirectory(p) => "EISDIR: illegal operation on a directory, '" + PathText(p) + "'"
    case Denied(p) => "EACCES: permission denied, '" + PathText(p) + "'"
  }

  /** `fs.existsSync`: true for files and directories alike. */
  predicate Exists(fs: Fs, p: Path) {
    |p| == 0 || p in fs
  }

  predicate IsDir(fs: Fs, p: Path) {
    |p| == 0 || (p in fs && fs[p].Dir?)
  }

  predicate IsFile(fs: Fs, p: Path) {
    |p| > 0 && p in fs && fs[p].File?
  }

  /** Every entry of `fs` is still in `fs'`, unchanged. */
  predicate Keeps(fs: Fs, fs': Fs) {
    forall q :: q in fs ==> q in fs' && fs'[q] == fs[q]
  }

  predicate BlockedByFile(fs: Fs, p: Path) {
    exists i :: 1 <= i <= |p| && IsFile(fs, p[..i])
  }

  /** `fs.mkdirSync(p, { recursive: true })`. */
  function MkdirP(fs: Fs, p: Path, faults: set<Path>): (r: FsResult<Fs>)
    ensures r.Err? <==> p in faults || BlockedByFile(fs, p)
    ensures r.Ok? ==> IsDir(r.value, p) && Keeps(fs, r.value)
    ensures r.Ok? ==> forall q :: q in Prefixes(p) ==> IsDir(r.value, q)
    ensures r.Ok? ==> forall q :: q in r.value && q !in fs ==> q in Prefixes(p) && r.value[q] == Dir
  {
    if p in faults then Err(Denied(p))
    else if BlockedByFile(fs, p) then Err(NotADirectory(p))
    else
      var fs' := fs + map q | q in Prefixes(p) && q !in fs :: Dir;
      assert |p| > 0 ==> p == p[..|p|] && p in Prefixes(p);
      assert forall q :: q in Prefixes(p) && q in fs ==> fs[q] == Dir by {
        forall q | q in Prefixes(p) && q in fs
          ensures fs[q] == Dir
        {
          var i :| 1 <= i <= |p| && q == p[..i];
          assert !IsFile(fs, p[..i]);
        }
      }
      Ok(fs')
  }

  /** `fs.writeFileSync(p, content, { flag: 'w' })`; `open(p, 'w')` is the empty content. */
  function WriteFile(fs: Fs, p: Path, content: string, faults: set<Path>): (r: FsResult<Fs>)
    ensures r.Ok? <==> p !in faults && !IsDir(fs, p) && IsDir(fs, Parent(p))
    ensures r.Ok? ==> r.value.Keys == fs.Keys + {p} && r.value[p] == File(content)
    ensures r.Ok? ==> forall q :: q in fs && q != p ==> r.value[q] == fs[q]
  {
    if p in faults then Err(Denied(p))
    else if IsDir(fs, p) then Err(IsADirectory(p))
    else if !Exists(fs, Parent(p)) then Err(NoEntry(p))
    else if !IsDir(fs, Parent(p)) then Err(NotADirectory(p))
    else Ok(fs[p := File(content)])
  }

  /** `fs.readFileSync(p)`. */
  function ReadFile(fs: Fs, p: Path): (r: FsResult<string>)
    ensures r.Ok? <==> IsFile(fs, p)
    ensures r.Ok? ==> fs[p] == File(r.value)
  {
    if IsFile(fs, p) then Ok(fs[p].content)
    else if Exists(fs, p) then Err(IsADirectory(p))
    else Err(NoEntry(p))
  }

  /** `fs.copyFileSync(src, dst)`. */
  function CopyFile(fs: Fs, src: Path, dst: Path, faults: set<Path>): (r: FsResult<Fs>)
    ensures r.Ok? ==> IsFile(fs, src) && r.value.Keys == fs.Keys + {dst}
    ensures r.Ok? ==> r.value[dst] == File(fs[src].content)
    ensures r.Ok? ==> forall q :: q in fs && q != dst ==> r.value[q] == fs[q]
  {
    match ReadFile(fs, src)
    case Err(e) => Err(e)
    case Ok(c) => WriteFile(fs, dst, c, faults)
  }

  /** `fs.unlinkSync(p)`. */
  function Unlink(fs: Fs, p: Path, faults: set<Path>): (r: FsResult<Fs>)
    ensures r.Ok? <==> p !in faults && IsFile(fs, p)
    ensures r.Ok? ==> r.value.Keys == fs.Keys - {p}
    ensures r.Ok? ==> forall q :: q in fs && q != p ==> r.value[q] == fs[q]
  {
    if p in faults then Err(Denied(p))
    else if !Exists(fs, p) then Err(NoEntry(p))
    else if IsDir(fs, p) then Err(IsADirectory(p))
    else Ok(fs - {p})
  }

  /**
    `getCurrentFileHash` / `getFileHash`: the digest of the file's bytes, or the
    empty string when nothing exists at `p`. Reading a directory throws.
   */
  function FileDigest(fs: Fs, p: Path, hash: string -> string): (r: FsResult<string>)
    ensures !Exists(fs, p) ==> r == Ok("")
    ensures IsFile(fs, p) ==> r == Ok(hash(fs[p].content))
    ensures r.Err? <==> Exists(fs, p) && !IsFile(fs, p)
  {
    if !Exists(fs, p) then Ok("")
    else match ReadFile(fs, p)
      case Err(e) => Err(e)
      case Ok(c) => Ok(hash(c))
  }
}
