/**
  The parsed project description and its multi-error validation
  (`validateProjectStructure` in the engines that scaffold a folder tree).

  JSON fields that may be missing, falsy or of the wrong type carry that
  possibility in their type; a string field is valid when it is truthy.
 */
module Project {
  import opened Common

  /** A node of `folderStructure`; a `type` other than "directory" is a file node. */
  datatype TreeNode = TreeNode(name: string, isDirectory: bool, children: seq<TreeNode>)

  /** `folderStructure`: missing or falsy, a truthy non-object, or a node. */
  datatype TreeField = NoTree | NotAnObject | Tree(root: TreeNode)

  /** `code`: missing or falsy, a truthy non-array, or the list of files. */
  datatype CodeField = NoCode | NotAnArray | Files(files: seq<CodeFile>)

  /** One entry of `code`; `description` is printed only by the change-set engine. */
  datatype CodeFile = CodeFile(name: string, path: string, sourceCode: string, description: string)

  datatype ProjectStructure = ProjectStructure(
    sessionId: Option<string>,
    language: Option<string>,
    runtime: Option<string>,
    folderStructure: TreeField,
    code: CodeField)

  /** One failing validation check; constructors are listed in the order the checks run. */
  datatype Problem =
    | MissingLanguage
    | MissingRuntime
    | MissingSessionId
    | MissingFolderStructure
    | MissingCode
    | FolderStructureNotObject
    | CodeNotArray

  /** The line the source pushes for a failing check. */
  function Message(p: Problem): string {
    match p
    case MissingLanguage => "Missing \"language\" field."
    case MissingRuntime => "Missing \"runtime\" field."
    case MissingSessionId => "Missing \"sessionId\" field."
    case MissingFolderStructure => "Missing \"folderStructure\" field."
    case MissingCode => "Missing \"code\" field."
    case FolderStructureNotObject => "\"folderStructure\" must be an object."
    case CodeNotArray => "\"code\" must be an array."
  }

  /** Position of a check in the fixed checking order. */
  function Rank(p: Problem): nat {
    match p
    case MissingLanguage => 0
    case MissingRuntime => 1
    case MissingSessionId => 2
    case MissingFolderStructure => 3
    case MissingCode => 4
    case FolderStructureNotObject => 5
    case CodeNotArray => 6
  }

  /** Every check, in the order the checks run. */
  const AllProblems: seq<Problem> := [MissingLanguage, MissingRuntime, MissingSessionId,
    MissingFolderStructure, MissingCode, FolderStructureNotObject, CodeNotArray]

  /** Whether check `p` fails on `s`. */
  predicate Fails(requireSessionId: bool, s: ProjectStructure, p: Problem) {
    match p
    case MissingLanguage => !Truthy(s.language)
    case MissingRuntime => !Truthy(s.runtime)
    case MissingSessionId => requireSessionId && !Truthy(s.sessionId)
    case MissingFolderStructure => s.folderStructure == NoTree
    case MissingCode => s.code == NoCode
    case FolderStructureNotObject => s.folderStructure == NotAnObject
    case CodeNotArray => s.code == NotAnArray
  }

  predicate Ascending(ps: seq<Problem>) {
    forall i, j :: 0 <= i < j < |ps| ==> Rank(ps[i]) < Rank(ps[j])
  }

  function NumFailing(requireSessionId: bool, s: ProjectStructure, ps: seq<Problem>): nat {
    if |ps| == 0 then 0
    else (if Fails(requireSessionId, s, ps[0]) then 1 else 0) + NumFailing(requireSessionId, s, ps[1..])
  }

  /** The checks of `ps` that fail, in the order of `ps`. */
  function Failing(requireSessionId: bool, s: ProjectStructure, ps: seq<Problem>): (r: seq<Problem>)
    requires Ascending(ps)
    ensures forall p :: p in r <==> p in ps && Fails(requireSessionId, s, p)
    ensures Ascending(r)
    ensures |r| == NumFailing(requireSessionId, s, ps)
  {
    if |ps| == 0 then []
    else
      AscendingTail(ps);
      var rest := Failing(requireSessionId, s, ps[1..]);
      assert forall p :: p in rest ==> Rank(ps[0]) < Rank(p) by {
        forall p | p in rest
          ensures Rank(ps[0]) < Rank(p)
        {
          var k :| 1 <= k < |ps| && ps[k] == p;
        }
      }
      if Fails(requireSessionId, s, ps[0]) then AscendingCons(ps[0], rest); [ps[0]] + rest else rest
  }

  lemma AscendingTail(ps: seq<Problem>)
    requires |ps| > 0 && Ascending(ps)
    ensures Ascending(ps[1..])
  {
    forall i, j | 0 <= i < j < |ps| - 1
      ensures Rank(ps[1..][i]) < Rank(ps[1..][j])
    {
      assert ps[1..][i] == ps[i + 1] && ps[1..][j] == ps[j + 1];
    }
  }

  lemma AscendingCons(x: Problem, rest: seq<Problem>)
    requires Ascending(rest)
    requires forall p :: p in rest ==> Rank(x) < Rank(p)
    ensures Ascending([x] + rest)
  {
    var r := [x] + rest;
    forall i, j | 0 <= i < j < |r|
      ensures Rank(r[i]) < Rank(r[j])
    {
      assert r[j] == rest[j - 1];
      if i > 0 {
        assert r[i] == rest[i - 1];
      } else {
        assert rest[j - 1] in rest;
      }
    }
  }

  /** The structure every engine can materialise. */
  predicate Acceptable(requireSessionId: bool, s: ProjectStructure) {
    && Truthy(s.language)
    && Truthy(s.runtime)
    && (requireSessionId ==> Truthy(s.sessionId))
    && s.folderStructure.Tree?
    && s.code.Files?
  }

  lemma EveryProblemIsChecked(p: Problem)
    ensures p in AllProblems
  {
    match p
    case MissingLanguage => assert AllProblems[0] == p;
    case MissingRuntime => assert AllProblems[1] == p;
    case MissingSessionId => assert AllProblems[2] == p;
    case MissingFolderStructure => assert AllProblems[3] == p;
    case MissingCode => assert AllProblems[4] == p;
    case FolderStructureNotObject => assert AllProblems[5] == p;
    case CodeNotArray => assert AllProblems[6] == p;
  }

  /**
    All failing checks, in fixed order. `requireSessionId` selects the
    stand-alone script's extra `sessionId` check.
   */
  function Validate(requireSessionId: bool, s: ProjectStructure): (r: seq<Problem>)
    ensures forall p :: p in r <==> Fails(requireSessionId, s, p)
    ensures Ascending(r)
  {
    var r := Failing(requireSessionId, s, AllProblems);
    assert forall p :: p in r <==> Fails(requireSessionId, s, p) by {
      forall p
        ensures p in r <==> Fails(requireSessionId, s, p)
      {
        EveryProblemIsChecked(p);
      }
    }
    r
  }

  /** Field by field: each message appears exactly when its check fails. */
  lemma ValidateFieldByField(requireSessionId: bool, s: ProjectStructure)
    ensures Validate(requireSessionId, s) == [] <==> Acceptable(requireSessionId, s)
    ensures MissingLanguage in Validate(requireSessionId, s) <==> !Truthy(s.language)
    ensures MissingRuntime in Validate(requireSessionId, s) <==> !Truthy(s.runtime)
    ensures MissingSessionId in Validate(requireSessionId, s) <==> requireSessionId && !Truthy(s.sessionId)
    ensures MissingFolderStructure in Validate(requireSessionId, s) <==> s.folderStructure == NoTree
    ensures MissingCode in Validate(requireSessionId, s) <==> s.code == NoCode
    ensures FolderStructureNotObject in Validate(requireSessionId, s) <==> s.folderStructure == NotAnObject
    ensures CodeNotArray in Validate(requireSessionId, s) <==> s.code == NotAnArray
  {
    var r := Validate(requireSessionId, s);
    assert Fails(requireSessionId, s, MissingLanguage) <==> !Truthy(s.language);
    if r != [] {
      assert Fails(requireSessionId, s, r[0]);
    }
    if !Acceptable(requireSessionId, s) {
      if !Truthy(s.language) {
        assert MissingLanguage in r;
      } else if !Truthy(s.runtime) {
        assert MissingRuntime in r;
      } else if requireSessionId && !Truthy(s.sessionId) {
        assert MissingSessionId in r;
      } else if s.folderStructure == NoTree {
        assert MissingFolderStructure in r;
      } else if s.folderStructure == NotAnObject {
        assert FolderStructureNotObject in r;
      } else if s.code == NoCode {
        assert MissingCode in r;
      } else {
        assert CodeNotArray in r;
      }
    }
  }

  function Messages(ps: seq<Problem>): (r: seq<string>)
    ensures |r| == |ps|
    ensures forall i :: 0 <= i < |ps| ==> r[i] == Message(ps[i])
  {
    if |ps| == 0 then [] else [Message(ps[0])] + Messages(ps[1..])
  }

  /** The thrown error's message. */
  function InvalidMessage(problems: seq<Problem>): string {
    "Invalid project structure:\n" + JoinWith(Messages(problems), "\n")
  }

  /** Number of required fields that are missing, as the four-field engines count them. */
  function MissingCount(s: ProjectStructure): nat {
    (if Truthy(s.language) then 0 else 1)
    + (if Truthy(s.runtime) then 0 else 1)
    + (if s.folderStructure == NoTree then 1 else 0)
    + (if s.code == NoCode then 1 else 0)
  }

  function Indicator(b: bool): nat {
    if b then 1 else 0
  }

  lemma NumFailingAll(requireSessionId: bool, s: ProjectStructure)
    ensures NumFailing(requireSessionId, s, AllProblems) ==
      Indicator(!Truthy(s.language)) + Indicator(!Truthy(s.runtime))
      + Indicator(requireSessionId && !Truthy(s.sessionId))
      + Indicator(s.folderStructure == NoTree) + Indicator(s.code == NoCode)
      + Indicator(s.folderStructure == NotAnObject) + Indicator(s.code == NotAnArray)
  {
    var ps := AllProblems;
    var r := requireSessionId;
    assert ps[6..] == [CodeNotArray] && ps[6..][1..] == [];
    assert NumFailing(r, s, ps[6..]) == Indicator(s.code == NotAnArray);
    assert ps[5..][1..] == ps[6..] && ps[5..][0] == FolderStructureNotObject;
    assert NumFailing(r, s, ps[5..]) == Indicator(s.folderStructure == NotAnObject) + NumFailing(r, s, ps[6..]);
    assert ps[4..][1..] == ps[5..] && ps[4..][0] == MissingCode;
    assert NumFailing(r, s, ps[4..]) == Indicator(s.code == NoCode) + NumFailing(r, s, ps[5..]);
    assert ps[3..][1..] == ps[4..] && ps[3..][0] == MissingFolderStructure;
    assert NumFailing(r, s, ps[3..]) == Indicator(s.folderStructure == NoTree) + NumFailing(r, s, ps[4..]);
    assert ps[2..][1..] == ps[3..] && ps[2..][0] == MissingSessionId;
    assert NumFailing(r, s, ps[2..]) == Indicator(r && !Truthy(s.sessionId)) + NumFailing(r, s, ps[3..]);
    assert ps[1..][1..] == ps[2..] && ps[1..][0] == MissingRuntime;
    assert NumFailing(r, s, ps[1..]) == Indicator(!Truthy(s.runtime)) + NumFailing(r, s, ps[2..]);
    assert NumFailing(r, s, ps) == Indicator(!Truthy(s.language)) + NumFailing(r, s, ps[1..]);
  }

  /**
    A field is reported as missing or as mistyped, never both; when every
    present field has the right type there is exactly one message per
    missing field.
   */
  lemma ValidationReportsEachMissingField(s: ProjectStructure)
    ensures !(MissingFolderStructure in Validate(false, s) && FolderStructureNotObject in Validate(false, s))
    ensures !(MissingCode in Validate(false, s) && CodeNotArray in Validate(false, s))
    ensures s.folderStructure != NotAnObject && s.code != NotAnArray ==>
              |Validate(false, s)| == MissingCount(s)
  {
    ValidateFieldByField(false, s);
    NumFailingAll(false, s);
  }
}
