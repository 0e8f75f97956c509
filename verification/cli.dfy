/**
  The command-line front ends: the `--file` / `--session-id` flag parser,
  the session-id override, and the snapshot of the input file into the
  session directory.
 */
module Cli {
  import opened Common
  import opened Paths
  import opened FileSystem
  import opened Project
  import opened Engine
  import opened Variants

  const FileFlag: string := "--file"
  const SessionFlag: string := "--session-id"
  const DefaultInput: string := "data.json"

  /** The flag at `i` is followed by a token that does not start with "--". */
  predicate TakesValue(args: seq<string>, flag: string, i: int) {
    0 <= i && i + 1 < |args| && args[i] == flag && !StartsWith(args[i + 1], "--")
  }

  /** The value the last valid occurrence of `flag` among the first `n` tokens assigns. */
  function LastValue(args: seq<string>, flag: string, n: nat): Option<string>
    requires n <= |args|
  {
    if n == 0 then None
    else if TakesValue(args, flag, n - 1) then Some(args[n])
    else LastValue(args, flag, n - 1)
  }

  function ValueOr(v: Option<string>, default: string): string {
    if v.Some? then v.value else default
  }

  /** A flag occurrence at `i` that takes no value. */
  predicate MissingValue(args: seq<string>, flag: string, i: int) {
    0 <= i < |args| && args[i] == flag && !TakesValue(args, flag, i)
  }

  function FileWarning(cwd: string): string {
    "No input filename provided, attempting to find \"data.json\" in directory \"" + cwd + "\""
  }

  const SessionWarning: string := "No session ID provided, generating a new session ID"

  /** The warnings the first `n` tokens produce, in order. */
  function Warnings(args: seq<string>, cwd: string, n: nat): seq<string>
    requires n <= |args|
  {
    if n == 0 then []
    else
      Warnings(args, cwd, n - 1)
      + (if MissingValue(args, FileFlag, n - 1) then [FileWarning(cwd)] else [])
      + (if MissingValue(args, SessionFlag, n - 1) then [SessionWarning] else [])
  }

  /** `parseCommandLineArgs` over `process.argv.slice(2)`; `cwd` only appears in a warning. */
  method ParseArgs(args: seq<string>, cwd: string) returns (file: string, sessionId: Option<string>, warnings: seq<string>)
    ensures file == ValueOr(LastValue(args, FileFlag, |args|), DefaultInput)
    ensures sessionId == LastValue(args, SessionFlag, |args|)
    ensures warnings == Warnings(args, cwd, |args|)
  {
    file := DefaultInput;
    sessionId := None;
    warnings := [];
    var i := 0;
    while i < |args|
      invariant 0 <= i <= |args|
      invariant file == ValueOr(LastValue(args, FileFlag, i), DefaultInput)
      invariant sessionId == LastValue(args, SessionFlag, i)
      invariant warnings == Warnings(args, cwd, i)
    {
      if args[i] == FileFlag {
        if i + 1 < |args| && !StartsWith(args[i + 1], "--") {
          file := args[i + 1];
        } else {
          warnings := warnings + [FileWarning(cwd)];
        }
      }
      if args[i] == SessionFlag {
        if i + 1 < |args| && !StartsWith(args[i + 1], "--") {
          sessionId := Some(args[i + 1]);
        } else {
          warnings := warnings + [SessionWarning];
        }
      }
      i := i + 1;
    }
  }

  /**
    The last valid occurrence wins: the value is the token after the last
    occurrence of the flag that takes one, and there is none exactly when no
    occurrence takes a value.
   */
  lemma {:induction false} LastValueIsLastValidOccurrence(args: seq<string>, flag: string, n: nat)
    requires n <= |args|
    ensures LastValue(args, flag, n).None? <==> forall i :: 0 <= i < n ==> !TakesValue(args, flag, i)
    ensures LastValue(args, flag, n).Some? ==>
              exists i :: 0 <= i < n && TakesValue(args, flag, i) && LastValue(args, flag, n).value == args[i + 1]
                && forall j :: i < j < n ==> !TakesValue(args, flag, j)
  {
    if n > 0 {
      LastValueIsLastValidOccurrence(args, flag, n - 1);
      if !TakesValue(args, flag, n - 1) && LastValue(args, flag, n - 1).Some? {
        var i :| 0 <= i < n - 1 && TakesValue(args, flag, i) && LastValue(args, flag, n - 1).value == args[i + 1]
                 && forall j :: i < j < n - 1 ==> !TakesValue(args, flag, j);
        assert forall j :: i < j < n ==> !TakesValue(args, flag, j);
      }
    }
  }

  /** A flag followed by another flag keeps its default: `--file --session-id s`. */
  lemma FlagFollowedByFlag()
    ensures var args := [FileFlag, SessionFlag, "s"];
            && ValueOr(LastValue(args, FileFlag, |args|), DefaultInput) == DefaultInput
            && LastValue(args, SessionFlag, |args|) == Some("s")
            && Warnings(args, "/w", |args|) == [FileWarning("/w")]
  {
    var args := [FileFlag, SessionFlag, "s"];
    FlagFollowedByFlagTokens();
    assert !TakesValue(args, FileFlag, 0);
    assert TakesValue(args, SessionFlag, 1);
    assert LastValue(args, FileFlag, 2) == LastValue(args, FileFlag, 1) == None;
    FlagFollowedByFlagWarns();
  }

  /** How the three tokens of that command line classify. */
  lemma FlagFollowedByFlagTokens()
    ensures StartsWith(SessionFlag, "--") && !StartsWith("s", "--")
  {
    assert SessionFlag[..2] == "--";
  }

  /** Only the `--file` with no value produces a warning. */
  lemma FlagFollowedByFlagWarns()
    ensures Warnings([FileFlag, SessionFlag, "s"], "/w", 3) == [FileWarning("/w")]
  {
    var args := [FileFlag, SessionFlag, "s"];
    FlagFollowedByFlagTokens();
    assert !MissingValue(args, FileFlag, 2) && !MissingValue(args, SessionFlag, 2);
    assert !MissingValue(args, SessionFlag, 1) && !MissingValue(args, FileFlag, 1);
    assert MissingValue(args, FileFlag, 0) && !MissingValue(args, SessionFlag, 0);
    assert Warnings(args, "/w", 1) == [FileWarning("/w")];
    assert Warnings(args, "/w", 2) == Warnings(args, "/w", 1);
  }

  /** Without flags: the default input file and no session id. */
  lemma NoFlagsGiveDefaults(args: seq<string>, cwd: string)
    requires forall i :: 0 <= i < |args| ==> args[i] != FileFlag && args[i] != SessionFlag
    ensures ValueOr(LastValue(args, FileFlag, |args|), DefaultInput) == DefaultInput
    ensures LastValue(args, SessionFlag, |args|).None?
    ensures Warnings(args, cwd, |args|) == []
  {
    LastValueIsLastValidOccurrence(args, FileFlag, |args|);
    LastValueIsLastValidOccurrence(args, SessionFlag, |args|);
    NoWarnings(args, cwd, |args|);
  }

  lemma {:induction false} NoWarnings(args: seq<string>, cwd: string, n: nat)
    requires n <= |args|
    requires forall i :: 0 <= i < |args| ==> args[i] != FileFlag && args[i] != SessionFlag
    ensures Warnings(args, cwd, n) == []
  {
    if n > 0 {
      NoWarnings(args, cwd, n - 1);
    }
  }

  // ---------------------------------------------------------------------------
  // The snapshot of the input file.

  const SnapshotName: string := "data.json"

  /** `path.join(process.env.OUTPUT_DIR || 'generatedOutput', sessionId, 'data.json')`. */
  function SessionCopyPath(env: Env, sessionId: string): (r: Path)
    ensures |r| > 0 && r[|r| - 1] == SnapshotName
    ensures IsPrefix(Split(OutputDir(env, None)), r)
  {
    Split(OrElse(env.outputDirVar, DefaultOutputDir)) + Split(sessionId) + [SnapshotName]
  }

  const CopyUpdated: string := "data.json has changed and was updated in the session directory"
  const CopyKept: string := "data.json has not changed and was not updated"

  /**
    With a truthy command-line session id, rewrite the session copy with the
    raw input when the digest of the input file differs from the copy's (a
    missing copy digests to ""). The result carries the new file system and
    the log lines.
   */
  function Snapshot(env: Env, fs: Fs, inputPath: Path, rawData: string, cliSessionId: Option<string>): (r: FsResult<(Fs, seq<string>)>)
    ensures !Truthy(cliSessionId) ==> r == Ok((fs, []))
    ensures r.Ok? ==> forall q :: q in fs && (Truthy(cliSessionId) ==> q != SessionCopyPath(env, cliSessionId.value)) ==>
              q in r.value.0 && r.value.0[q] == fs[q]
  {
    if !Truthy(cliSessionId) then Ok((fs, []))
    else
      var copy := SessionCopyPath(env, cliSessionId.value);
      match FileDigest(fs, inputPath, env.hash)
      case Err(e) => Err(e)
      case Ok(newHash) =>
        match FileDigest(fs, copy, env.hash)
        case Err(e) => Err(e)
        case Ok(oldHash) =>
          if newHash != oldHash then
            match WriteFile(fs, copy, rawData, env.faults)
            case Err(e) => Err(e)
            case Ok(fs') => Ok((fs', [CopyUpdated]))
          else Ok((fs, [CopyKept]))
  }

  /**
    When the input file holds the raw data that was read, the copy is
    rewritten exactly when its digest differs, and then holds the raw data.
   */
  lemma SnapshotRewritesOnDigestChange(env: Env, fs: Fs, inputPath: Path, rawData: string, sid: string)
    requires IsFile(fs, inputPath) && fs[inputPath] == File(rawData)
    requires sid != ""
    requires !(Exists(fs, SessionCopyPath(env, sid)) && !IsFile(fs, SessionCopyPath(env, sid)))
    ensures var copy := SessionCopyPath(env, sid);
            var r := Snapshot(env, fs, inputPath, rawData, Some(sid));
            var prior := if IsFile(fs, copy) then env.hash(fs[copy].content) else "";
            && (env.hash(rawData) == prior ==> r == Ok((fs, [CopyKept])))
            && (env.hash(rawData) != prior ==> (r.Ok? <==> WriteFile(fs, copy, rawData, env.faults).Ok?))
            && (env.hash(rawData) != prior && r.Ok? ==>
                  && r.value.1 == [CopyUpdated]
                  && copy in r.value.0 && r.value.0[copy] == File(rawData))
  {
  }

  /** A missing copy is written, provided the digest of the input is not empty. */
  lemma MissingCopyIsWritten(env: Env, fs: Fs, inputPath: Path, rawData: string, sid: string)
    requires IsFile(fs, inputPath) && fs[inputPath] == File(rawData)
    requires sid != "" && env.hash(rawData) != ""
    requires !Exists(fs, SessionCopyPath(env, sid))
    ensures var r := Snapshot(env, fs, inputPath, rawData, Some(sid));
            var copy := SessionCopyPath(env, sid);
            r.Ok? ==>
              && r.value.1 == [CopyUpdated]
              && copy in r.value.0 && r.value.0[copy] == File(rawData)
  {
  }

  /** Running the snapshot again on the same input leaves the copy alone. */
  lemma SnapshotIsIdempotent(env: Env, fs: Fs, inputPath: Path, rawData: string, sid: string)
    requires IsFile(fs, inputPath) && fs[inputPath] == File(rawData)
    requires sid != ""
    ensures var r := Snapshot(env, fs, inputPath, rawData, Some(sid));
            r.Ok? ==> Snapshot(env, r.value.0, inputPath, rawData, Some(sid)) == Ok((r.value.0, [CopyKept]))
  {
    if Snapshot(env, fs, inputPath, rawData, Some(sid)).Ok? {
      SnapshotIsIdempotentOk(env, fs, inputPath, rawData, sid);
    }
  }

  lemma SnapshotIsIdempotentOk(env: Env, fs: Fs, inputPath: Path, rawData: string, sid: string)
    requires IsFile(fs, inputPath) && fs[inputPath] == File(rawData)
    requires sid != ""
    requires Snapshot(env, fs, inputPath, rawData, Some(sid)).Ok?
    ensures var fs1 := Snapshot(env, fs, inputPath, rawData, Some(sid)).value.0;
            Snapshot(env, fs1, inputPath, rawData, Some(sid)) == Ok((fs1, [CopyKept]))
  {
    var copy := SessionCopyPath(env, sid);
    var fs1 := Snapshot(env, fs, inputPath, rawData, Some(sid)).value.0;
    var prior := FileDigest(fs, copy, env.hash).value;
    if env.hash(rawData) != prior {
      assert fs1 == fs[copy := File(rawData)];
    } else {
      assert fs1 == fs;
    }
    assert IsFile(fs1, inputPath) && fs1[inputPath] == File(rawData);
    assert FileDigest(fs1, copy, env.hash) == Ok(env.hash(rawData));
  }

  // ---------------------------------------------------------------------------
  // dist/src/cli.js: the compiled engine, then the snapshot.

  /**
    `runEngine` of the compiled command line: override the payload's session
    id, run the compiled engine with no root path, then take the snapshot.
    A snapshot error escapes to the top-level handler.
   */
  function RunCompiledCli(env: Env, fs: Fs, ps: ProjectStructure, inputPath: Path, rawData: string, cliSessionId: Option<string>): (r: (Report, FsResult<(Fs, seq<string>)>))
    ensures Truthy(cliSessionId) ==> r.0.sessionId == cliSessionId.value
    ensures !Truthy(cliSessionId) ==> r.0 == CreateProjectStructure(CompiledEngine, env, fs, ps, None).0
  {
    var ps' := WithSessionOverride(ps, cliSessionId);
    var (report, fs1) := CreateProjectStructure(CompiledEngine, env, fs, ps', None);
    (report, Snapshot(env, fs1, inputPath, rawData, cliSessionId))
  }

  /**
    With a command-line session id and no root path, the snapshot is written
    into the very session directory the engine used.
   */
  lemma SnapshotLandsInSessionDir(env: Env, fs: Fs, ps: ProjectStructure, sid: string)
    requires sid != ""
    ensures var run := Materialize(CompiledEngine, env, fs, WithSessionOverride(ps, Some(sid)), None);
            run.Ran? ==> SessionCopyPath(env, sid) == run.sessionDir + [SnapshotName]
  {
  }
}
