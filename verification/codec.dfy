/**
  Decoding of the escaped `sourceCode` payloads.

  Every engine variant decodes with five global regular-expression replaces
  applied one after another (`Unescape`). Because each replace runs over the
  output of the previous one, an escaped backslash that is followed by one of
  the escape letters is decoded twice. `DecodeOnePass` is the single-pass
  decoder the escaping scheme calls for; it inverts `Escape`.
 */
module Codec {

  const Backslash: char := '\\'

  /** `s.replace(/\\c/g, r)`: every backslash-`c` pair, leftmost first and non-overlapping, becomes `r`. */
  function ReplaceEscape(s: string, c: char, r: char): (o: string)
    ensures |o| <= |s|
    ensures Backslash !in s ==> o == s
    decreases |s|
  {
    if |s| < 2 then s
    else if s[0] == Backslash && s[1] == c then [r] + ReplaceEscape(s[2..], c, r)
    else [s[0]] + ReplaceEscape(s[1..], c, r)
  }

  /** The five replaces in source order: \n, \t, \", \\, \r. */
  function Unescape(s: string): (o: string)
    ensures |o| <= |s|
    ensures Backslash !in s ==> o == s
  {
    var a := ReplaceEscape(s, 'n', '\n');
    var b := ReplaceEscape(a, 't', '\t');
    var c := ReplaceEscape(b, '"', '"');
    var d := ReplaceEscape(c, Backslash, Backslash);
    ReplaceEscape(d, 'r', '\r')
  }

  /** No backslash in `s` is immediately followed by `x`. */
  predicate NoEscape(s: string, x: char) {
    forall i :: 0 <= i < |s| - 1 ==> !(s[i] == Backslash && s[i + 1] == x)
  }

  lemma NoEscapeCons(a: char, u: string, x: char)
    requires |u| > 0 ==> !(a == Backslash && u[0] == x)
    requires NoEscape(u, x)
    ensures NoEscape([a] + u, x)
  {
    var s := [a] + u;
    forall i | 0 <= i < |s| - 1
      ensures !(s[i] == Backslash && s[i + 1] == x)
    {
      if i > 0 {
        assert s[i] == u[i - 1] && s[i + 1] == u[i];
      }
    }
  }

  lemma NoEscapeTail(s: string, k: nat, x: char)
    requires NoEscape(s, x)
    requires k <= |s|
    ensures NoEscape(s[k..], x)
  {
    var t := s[k..];
    forall i | 0 <= i < |t| - 1
      ensures !(t[i] == Backslash && t[i + 1] == x)
    {
      assert t[i] == s[k + i] && t[i + 1] == s[k + i + 1];
    }
  }

  /** The first character a replace emits. */
  lemma ReplaceHead(t: string, c: char, r: char)
    requires |t| > 0
    ensures |ReplaceEscape(t, c, r)| > 0
    ensures ReplaceEscape(t, c, r)[0] ==
            (if |t| >= 2 && t[0] == Backslash && t[1] == c then r else t[0])
  {
  }

  /** A replace whose result is neither `c` nor a backslash leaves no backslash-`c` pair behind. */
  lemma {:induction false} ReplaceRemoves(s: string, c: char, r: char)
    requires r != c && r != Backslash
    ensures NoEscape(ReplaceEscape(s, c, r), c)
    decreases |s|
  {
    if |s| < 2 {
    } else if s[0] == Backslash && s[1] == c {
      ReplaceRemoves(s[2..], c, r);
      var u := ReplaceEscape(s[2..], c, r);
      if |u| > 0 {
        ReplaceHead(s[2..], c, r);
      }
      NoEscapeCons(r, u, c);
    } else {
      ReplaceRemoves(s[1..], c, r);
      var u := ReplaceEscape(s[1..], c, r);
      ReplaceHead(s[1..], c, r);
      NoEscapeCons(s[0], u, c);
    }
  }

  /**
    A replace does not create a backslash-`x` pair, provided its result is not
    `x` and it produces a backslash only from an escaped backslash.
   */
  lemma {:induction false} ReplaceKeeps(s: string, c: char, r: char, x: char)
    requires NoEscape(s, x)
    requires x != Backslash && r != x
    requires r == Backslash ==> c == Backslash
    ensures NoEscape(ReplaceEscape(s, c, r), x)
    decreases |s|
  {
    if |s| < 2 {
    } else if s[0] == Backslash && s[1] == c {
      NoEscapeTail(s, 2, x);
      ReplaceKeeps(s[2..], c, r, x);
      var u := ReplaceEscape(s[2..], c, r);
      if |u| > 0 {
        ReplaceHead(s[2..], c, r);
        if r == Backslash {
          assert !(s[1] == Backslash && s[2] == x);
        }
      }
      NoEscapeCons(r, u, x);
    } else {
      NoEscapeTail(s, 1, x);
      ReplaceKeeps(s[1..], c, r, x);
      var u := ReplaceEscape(s[1..], c, r);
      ReplaceHead(s[1..], c, r);
      assert !(s[0] == Backslash && s[1] == x);
      NoEscapeCons(s[0], u, x);
    }
  }

  /** After decoding, no backslash is followed by 'n', 't' or 'r'. */
  lemma UnescapeLeavesNoEscapes(s: string)
    ensures NoEscape(Unescape(s), 'n')
    ensures NoEscape(Unescape(s), 't')
    ensures NoEscape(Unescape(s), 'r')
  {
    var a := ReplaceEscape(s, 'n', '\n');
    var b := ReplaceEscape(a, 't', '\t');
    var c := ReplaceEscape(b, '"', '"');
    var d := ReplaceEscape(c, Backslash, Backslash);
    var e := ReplaceEscape(d, 'r', '\r');
    ReplaceRemoves(s, 'n', '\n');
    ReplaceKeeps(a, 't', '\t', 'n');
    ReplaceRemoves(a, 't', '\t');
    ReplaceKeeps(b, '"', '"', 'n');
    ReplaceKeeps(b, '"', '"', 't');
    ReplaceKeeps(c, Backslash, Backslash, 'n');
    ReplaceKeeps(c, Backslash, Backslash, 't');
    ReplaceKeeps(d, 'r', '\r', 'n');
    ReplaceKeeps(d, 'r', '\r', 't');
    ReplaceRemoves(d, 'r', '\r');
  }

  /** The quote is the exception: an escaped backslash before a quote leaves backslash-quote behind. */
  lemma UnescapeCanLeaveEscapedQuote()
    ensures Unescape("\\\\\"") == "\\\""
    ensures !NoEscape(Unescape("\\\\\""), '"')
  {
    var s := "\\\\\"";
    assert ReplaceEscape(s, 'n', '\n') == s;
    assert ReplaceEscape(s, 't', '\t') == s;
    assert ReplaceEscape(s, '"', '"') == "\\\"";
    assert ReplaceEscape("\\\"", Backslash, Backslash) == "\\\"";
    assert ReplaceEscape("\\\"", 'r', '\r') == "\\\"";
  }

  /** An escaped newline between plain letters becomes a real newline. */
  lemma UnescapeSample()
    ensures Unescape("a\\nb") == "a\nb"
  {
    var s := "a\\nb";
    assert s[1..] == "\\nb" && s[1..][2..] == "b";
    var t := "a\nb";
    assert ReplaceEscape(s, 'n', '\n') == t;
    assert Backslash !in t;
  }

  /** An escaped backslash followed by 'r' decodes to a lone carriage return. */
  lemma UnescapeEscapedBackslashR()
    ensures Unescape("\\\\r") == "\r"
  {
    var s := "\\\\r";
    assert ReplaceEscape(s, 'n', '\n') == s;
    assert ReplaceEscape(s, 't', '\t') == s;
    assert ReplaceEscape(s, '"', '"') == s;
    assert ReplaceEscape(s, Backslash, Backslash) == "\\r";
    assert ReplaceEscape("\\r", 'r', '\r') == "\r";
  }

  // ---------------------------------------------------------------------------
  // The escaping scheme and its single-pass inverse.

  predicate IsEscapeLetter(k: char) {
    k == 'n' || k == 't' || k == '"' || k == Backslash || k == 'r'
  }

  /** The character an escape letter stands for. */
  function Unescaped(k: char): char
    requires IsEscapeLetter(k)
  {
    match k
    case 'n' => '\n'
    case 't' => '\t'
    case 'r' => '\r'
    case _ => k
  }

  /** How a payload writer escapes one character. */
  function EscapeChar(ch: char): (r: string)
    ensures 1 <= |r| <= 2
    ensures |r| == 2 <==> ch in {'\n', '\t', '"', Backslash, '\r'}
  {
    match ch
    case '\n' => "\\n"
    case '\t' => "\\t"
    case '\r' => "\\r"
    case '"' => "\\\""
    case '\\' => "\\\\"
    case _ => [ch]
  }

  function Escape(s: string): (r: string)
    ensures |s| <= |r| <= 2 * |s|
  {
    if |s| == 0 then "" else EscapeChar(s[0]) + Escape(s[1..])
  }

  /** One left-to-right scan with a lookup table; unknown escapes pass through. */
  function DecodeOnePass(s: string): (o: string)
    ensures |o| <= |s|
    ensures Backslash !in s ==> o == s
    decreases |s|
  {
    if |s| == 0 then ""
    else if |s| >= 2 && s[0] == Backslash && IsEscapeLetter(s[1]) then
      [Unescaped(s[1])] + DecodeOnePass(s[2..])
    else [s[0]] + DecodeOnePass(s[1..])
  }

  lemma DecodeEscapedChar(ch: char, rest: string)
    ensures DecodeOnePass(EscapeChar(ch) + rest) == [ch] + DecodeOnePass(rest)
  {
    var e := EscapeChar(ch) + rest;
    if |EscapeChar(ch)| == 2 {
      assert e[0] == Backslash && e[2..] == rest;
      assert IsEscapeLetter(e[1]) && Unescaped(e[1]) == ch;
    } else {
      assert e[1..] == rest && e[0] == ch;
    }
  }

  /** The single-pass decoder inverts the escaping: nothing is decoded twice. */
  lemma {:induction false} DecodeOnePassRoundTrip(s: string)
    ensures DecodeOnePass(Escape(s)) == s
  {
    if |s| > 0 {
      DecodeEscapedChar(s[0], Escape(s[1..]));
      DecodeOnePassRoundTrip(s[1..]);
      assert [s[0]] + s[1..] == s;
    }
  }

  /** The sequential replaces do not: an escaped backslash-n comes back as backslash + newline. */
  lemma UnescapeBreaksRoundTrip()
    ensures Escape("\\n") == "\\\\n"
    ensures Unescape(Escape("\\n")) == "\\\n"
    ensures Unescape(Escape("\\n")) != "\\n"
  {
    assert Escape("\\n") == EscapeChar('\\') + Escape("n");
    assert Escape("n") == "n" + Escape("");
    var s := "\\\\n";
    assert ReplaceEscape(s, 'n', '\n') == "\\\n" by {
      assert ReplaceEscape(s[1..], 'n', '\n') == "\n";
    }
    assert ReplaceEscape("\\\n", 't', '\t') == "\\\n";
    assert ReplaceEscape("\\\n", '"', '"') == "\\\n";
    assert ReplaceEscape("\\\n", Backslash, Backslash) == "\\\n";
    assert ReplaceEscape("\\\n", 'r', '\r') == "\\\n";
  }

  /** Which decoder an engine uses. */
  datatype Decoder = SequentialReplace | SinglePass

  function Decode(d: Decoder, s: string): (o: string)
    ensures |o| <= |s|
    ensures Backslash !in s ==> o == s
  {
    match d
    case SequentialReplace => Unescape(s)
    case SinglePass => DecodeOnePass(s)
  }
}
