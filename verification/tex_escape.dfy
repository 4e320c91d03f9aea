/** TeX escaping of the typeset renderer (escapeString and escapeRepl in
    pkg/tex.go).  The source escapes in three passes: backslash pairs are
    swapped for a sentinel, each special character gets a backslash in front,
    and the sentinel becomes the typeset backslash glyph.  EscapeScan is a
    one-pass reference definition of the same rule; the two agree on every
    text without a colon, and the sentinel clash on the others is pinned down
    by SentinelClash. */
module TexEscape {
  import opened GoStrings

  /** The characters of the class `[#%&~$_^{}]`. */
  predicate IsSpecial(c: char) {
    c == '#' || c == '%' || c == '&' || c == '~' || c == '$' || c == '_' || c == '^' || c == '{' || c == '}'
  }

  /** A literal backslash pair, `\\`. */
  const BackslashPair: string := "\\\\"

  /** The placeholder a backslash pair is swapped for during escaping. */
  const Sentinel: string := ":\\backslash:"

  /** What a backslash pair finally becomes: `$\backslash$`. */
  const BackslashGlyph: string := "$\\backslash$"

  /** escapeRepl: the replacement for one matched special character.  The
      source's first parameter (the whole text) is not used, so it is not
      modelled. */
  function EscapeRepl(matched: string): (r: string)
    ensures |r| == |matched| + 1 && r[0] == '\\' && r[1..] == matched
  {
    "\\" + matched
  }

  /** The middle pass: the special-character pattern replaced through
      escapeRepl. */
  function EscapeSpecials(s: string): string {
    if s == [] then []
    else (if IsSpecial(s[0]) then EscapeRepl([s[0]]) else [s[0]]) + EscapeSpecials(s[1..])
  }

  /** escapeString as written: protect pairs, escape specials, restore. */
  function EscapeString(s: string): string {
    ReplaceAll(EscapeSpecials(ReplaceAll(s, BackslashPair, Sentinel)), Sentinel, BackslashGlyph)
  }

  predicate StartsWithPair(s: string) {
    |s| >= 2 && s[0] == '\\' && s[1] == '\\'
  }

  /** The escaping rule in one left-to-right pass: a backslash pair becomes
      the glyph, a special character gets one backslash, anything else
      (a lone backslash included) is copied. */
  function EscapeScan(s: string): (r: string)
    ensures s != [] ==> r != [] && (IsSpecial(r[0]) <==> StartsWithPair(s))
    decreases |s|
  {
    if s == [] then []
    else if StartsWithPair(s) then BackslashGlyph + EscapeScan(s[2..])
    else if IsSpecial(s[0]) then ['\\', s[0]] + EscapeScan(s[1..])
    else [s[0]] + EscapeScan(s[1..])
  }

  /** Undoes the escaping: the glyph becomes a backslash pair again and a
      backslash in front of a special character is dropped. */
  function Unescape(s: string): string
    decreases |s|
  {
    if s == [] then []
    else if BackslashGlyph <= s then BackslashPair + Unescape(s[|BackslashGlyph|..])
    else if |s| >= 2 && s[0] == '\\' && IsSpecial(s[1]) then [s[1]] + Unescape(s[2..])
    else [s[0]] + Unescape(s[1..])
  }

  /** Escaping only adds markers: removing them gives the text back. */
  lemma {:induction false} EscapeScanRoundTrip(s: string)
    ensures Unescape(EscapeScan(s)) == s
    decreases |s|
  {
    if s != [] {
      var r := EscapeScan(s);
      if StartsWithPair(s) {
        EscapeScanRoundTrip(s[2..]);
        assert r[..|BackslashGlyph|] == BackslashGlyph;
        assert r[|BackslashGlyph|..] == EscapeScan(s[2..]);
        assert s == BackslashPair + s[2..];
      } else if IsSpecial(s[0]) {
        EscapeScanRoundTrip(s[1..]);
        assert !(BackslashGlyph <= r) by { assert r[0] != BackslashGlyph[0]; }
        assert r[2..] == EscapeScan(s[1..]);
        assert s == [s[0]] + s[1..];
      } else {
        EscapeScanRoundTrip(s[1..]);
        var t := EscapeScan(s[1..]);
        assert r == [s[0]] + t;
        assert !(BackslashGlyph <= r) by { assert r[0] != BackslashGlyph[0]; }
        if s[0] == '\\' && |r| >= 2 {
          assert r[1] == t[0];
          assert !IsSpecial(t[0]);
        }
        assert r[1..] == t;
        assert s == [s[0]] + s[1..];
      }
    }
  }

  lemma {:induction false} EscapeSpecialsAppend(a: string, b: string)
    ensures EscapeSpecials(a + b) == EscapeSpecials(a) + EscapeSpecials(b)
    decreases |a|
  {
    if a != [] {
      assert (a + b)[0] == a[0];
      assert (a + b)[1..] == a[1..] + b;
      EscapeSpecialsAppend(a[1..], b);
    } else {
      assert a + b == b;
    }
  }

  /** Restoring the sentinel cannot start inside a piece without a colon. */
  lemma {:induction false} RestoreSkipsColonFree(x: string, y: string)
    requires ':' !in x
    ensures ReplaceAll(x + y, Sentinel, BackslashGlyph) == x + ReplaceAll(y, Sentinel, BackslashGlyph)
    decreases |x|
  {
    if x != [] {
      var s := x + y;
      assert s[0] == x[0];
      assert s[1..] == x[1..] + y;
      RestoreSkipsColonFree(x[1..], y);
      if |s| < |Sentinel| {
        ReplaceAllAbsentShort(y, Sentinel, BackslashGlyph);
        ReplaceAllAbsentShort(x[1..] + y, Sentinel, BackslashGlyph);
      } else {
        assert s[..|Sentinel|] != Sentinel by { assert s[0] != Sentinel[0]; }
      }
      assert x == [x[0]] + x[1..];
    } else {
      assert x + y == y;
    }
  }

  lemma ReplaceAllAbsentShort(s: string, pat: string, rep: string)
    requires pat != [] && |s| < |pat|
    ensures ReplaceAll(s, pat, rep) == s
  {
  }

  /** Escaping adds backslashes and, for a pair, the glyph's characters;
      any other character it outputs was in its input. */
  lemma EscapeStringAvoids(s: string, x: char)
    requires x !in s && x != '\\' && x !in Sentinel && x !in BackslashGlyph
    ensures x !in EscapeString(s)
  {
    ReplaceAllAvoids(s, BackslashPair, Sentinel, x);
    EscapeSpecialsAvoids(ReplaceAll(s, BackslashPair, Sentinel), x);
    ReplaceAllAvoids(EscapeSpecials(ReplaceAll(s, BackslashPair, Sentinel)), Sentinel, BackslashGlyph, x);
  }

  lemma {:induction false} EscapeSpecialsAvoids(s: string, x: char)
    requires x !in s && x != '\\'
    ensures x !in EscapeSpecials(s)
    decreases |s|
  {
    if s != [] {
      assert s[0] in s;
      EscapeSpecialsAvoids(s[1..], x);
    }
  }

  /** On text without a colon the three passes of escapeString compute the
      one-pass rule: the sentinel cannot be confused with the text. */
  lemma {:induction false} EscapeStringIsScan(s: string)
    requires ':' !in s
    ensures EscapeString(s) == EscapeScan(s)
    decreases |s|
  {
    if s == [] {
    } else if StartsWithPair(s) {
      EscapeStringIsScan(s[2..]);
      EscapeStringPairStep(s);
    } else {
      assert s[0] in s;
      EscapeStringIsScan(s[1..]);
      EscapeStringCharStep(s);
    }
  }

  /** A leading backslash pair becomes the glyph, the rest is escaped on. */
  lemma EscapeStringPairStep(s: string)
    requires StartsWithPair(s)
    ensures EscapeString(s) == BackslashGlyph + EscapeString(s[2..])
  {
    var p := ReplaceAll(s[2..], BackslashPair, Sentinel);
    assert s[..2] == BackslashPair;
    assert ReplaceAll(s, BackslashPair, Sentinel) == Sentinel + p;
    EscapeSpecialsAppend(Sentinel, p);
    SentinelHasNoSpecial();
    RestoreLeadingSentinel(EscapeSpecials(p));
  }

  lemma SentinelHasNoSpecial()
    ensures EscapeSpecials(Sentinel) == Sentinel
  {
    assert forall i :: 0 <= i < |Sentinel| ==> !IsSpecial(Sentinel[i]);
    NoSpecialUnchanged(Sentinel);
  }

  lemma {:induction false} NoSpecialUnchanged(s: string)
    requires forall i :: 0 <= i < |s| ==> !IsSpecial(s[i])
    ensures EscapeSpecials(s) == s
    decreases |s|
  {
    if s != [] {
      NoSpecialUnchanged(s[1..]);
      assert s == [s[0]] + s[1..];
    }
  }

  lemma RestoreLeadingSentinel(e: string)
    ensures ReplaceAll(Sentinel + e, Sentinel, BackslashGlyph) == BackslashGlyph + ReplaceAll(e, Sentinel, BackslashGlyph)
  {
    assert (Sentinel + e)[..|Sentinel|] == Sentinel;
    assert (Sentinel + e)[|Sentinel|..] == e;
  }

  /** Any other leading character, when it is not a colon, is escaped on its
      own. */
  lemma EscapeStringCharStep(s: string)
    requires s != [] && !StartsWithPair(s) && s[0] != ':'
    ensures EscapeString(s) == (if IsSpecial(s[0]) then ['\\', s[0]] else [s[0]]) + EscapeString(s[1..])
  {
    var p := ReplaceAll(s[1..], BackslashPair, Sentinel);
    assert ReplaceAll(s, BackslashPair, Sentinel) == [s[0]] + p by {
      if |s| >= 2 { assert s[..2] != BackslashPair; }
    }
    EscapeSpecialsAppend([s[0]], p);
    var head := if IsSpecial(s[0]) then ['\\', s[0]] else [s[0]];
    assert EscapeSpecials([s[0]]) == head;
    RestoreSkipsColonFree(head, EscapeSpecials(p));
  }

  /** escapeString removes nothing from colon-free text: unescaping its
      result gives the input back. */
  lemma EscapeStringRoundTrip(s: string)
    requires ':' !in s
    ensures Unescape(EscapeString(s)) == s
  {
    EscapeStringIsScan(s);
    EscapeScanRoundTrip(s);
  }

  /** Text with no special character, no backslash pair and no colon comes
      out of escapeString unchanged. */
  lemma {:induction false} EscapePlainText(s: string)
    requires ':' !in s
    requires forall i :: 0 <= i < |s| ==> !IsSpecial(s[i])
    requires forall i :: 0 <= i < |s| - 1 ==> !(s[i] == '\\' && s[i + 1] == '\\')
    ensures EscapeString(s) == s
  {
    EscapeStringIsScan(s);
    PlainScan(s);
  }

  lemma {:induction false} PlainScan(s: string)
    requires forall i :: 0 <= i < |s| ==> !IsSpecial(s[i])
    requires forall i :: 0 <= i < |s| - 1 ==> !(s[i] == '\\' && s[i + 1] == '\\')
    ensures EscapeScan(s) == s
    decreases |s|
  {
    if s != [] {
      assert !StartsWithPair(s) by { if |s| >= 2 { assert !(s[0] == '\\' && s[1] == '\\'); } }
      PlainScan(s[1..]);
      assert s == [s[0]] + s[1..];
    }
  }

  /** The sentinel is not unique: text that already spells it, here
      `:\backslash:` with no special character and no backslash pair, is
      rewritten to the glyph, where the one-pass rule leaves it alone. */
  lemma SentinelClash()
    ensures EscapeString(Sentinel) == BackslashGlyph
    ensures EscapeScan(Sentinel) == Sentinel
  {
    SentinelEscaped();
    SentinelScanned();
  }

  lemma SentinelEscaped()
    ensures EscapeString(Sentinel) == BackslashGlyph
  {
    SentinelSurvivesProtection();
    SentinelRestored();
  }

  lemma SentinelScanned()
    ensures EscapeScan(Sentinel) == Sentinel
  {
    PlainScan(Sentinel);
  }

  lemma SentinelSurvivesProtection()
    ensures EscapeString(Sentinel) == ReplaceAll(EscapeSpecials(Sentinel), Sentinel, BackslashGlyph)
  {
    NoPairUnchanged(Sentinel, Sentinel);
  }

  lemma SentinelRestored()
    ensures ReplaceAll(EscapeSpecials(Sentinel), Sentinel, BackslashGlyph) == BackslashGlyph
  {
    SentinelHasNoSpecial();
    RestoreSentinelAlone();
  }

  lemma RestoreSentinelAlone()
    ensures ReplaceAll(Sentinel, Sentinel, BackslashGlyph) == BackslashGlyph
  {
    RestoreLeadingSentinel([]);
    assert Sentinel + [] == Sentinel;
  }

  /** Text without two backslashes in a row holds no pair to protect. */
  lemma {:induction false} NoPairUnchanged(s: string, rep: string)
    requires forall i :: 0 <= i < |s| - 1 ==> !(s[i] == '\\' && s[i + 1] == '\\')
    ensures ReplaceAll(s, BackslashPair, rep) == s
    decreases |s|
  {
    if |s| >= |BackslashPair| {
      assert s[..2] != BackslashPair by { assert !(s[0] == '\\' && s[1] == '\\'); }
      NoPairUnchanged(s[1..], rep);
      assert s == [s[0]] + s[1..];
    }
  }

  /** The pieces of a text, one after another. */
  function Concat(pieces: seq<string>): (r: string)
    ensures |pieces| == 1 ==> r == pieces[0]
  {
    if pieces == [] then [] else pieces[0] + Concat(pieces[1..])
  }

  /** A piece the one-pass rule handles on its own: a backslash pair, or
      text without a backslash. */
  predicate ScanPiece(p: string) {
    p == BackslashPair || '\\' !in p
  }

  lemma {:induction false} ScanSpan(a: string, b: string)
    requires '\\' !in a
    ensures EscapeScan(a + b) == EscapeScan(a) + EscapeScan(b)
    decreases |a|
  {
    if a != [] {
      assert (a + b)[1..] == a[1..] + b;
      assert a[0] in a;
      ScanSpan(a[1..], b);
    } else {
      assert a + b == b;
    }
  }

  /** The one-pass rule escapes a text piece by piece when no piece but a
      backslash pair holds a backslash. */
  lemma {:induction false} ScanConcat(ps: seq<string>, qs: seq<string>)
    requires |ps| == |qs|
    requires forall i :: 0 <= i < |ps| ==> ScanPiece(ps[i]) && EscapeScan(ps[i]) == qs[i]
    ensures EscapeScan(Concat(ps)) == Concat(qs)
  {
    if ps != [] {
      ScanConcat(ps[1..], qs[1..]);
      if ps[0] == BackslashPair {
        assert (BackslashPair + Concat(ps[1..]))[2..] == Concat(ps[1..]);
      } else {
        ScanSpan(ps[0], Concat(ps[1..]));
      }
    }
  }

  /** A piece of a test row: a backslash pair, a single special character,
      or plain text without a special character, a backslash or a colon. */
  predicate TablePiece(p: string) {
    p == BackslashPair || (|p| == 1 && IsSpecial(p[0])) ||
    forall j :: 0 <= j < |p| ==> !IsSpecial(p[j]) && p[j] != '\\' && p[j] != ':'
  }

  /** What the escaping rule makes of one test-row piece. */
  function EscapePiece(p: string): string {
    if p == BackslashPair then BackslashGlyph
    else if |p| == 1 && IsSpecial(p[0]) then EscapeRepl(p)
    else p
  }

  lemma EscapePieceIsScan(p: string)
    requires TablePiece(p)
    ensures ScanPiece(p) && ':' !in p && EscapeScan(p) == EscapePiece(p)
  {
    if p == BackslashPair {
    } else if |p| == 1 && IsSpecial(p[0]) {
    } else {
      PlainScan(p);
    }
  }

  /** A row of the escaping test table: the input and the expected output,
      each written as its pieces. */
  lemma EscapeStringRow(ps: seq<string>, qs: seq<string>)
    requires |ps| == |qs|
    requires forall i :: 0 <= i < |ps| ==> TablePiece(ps[i]) && EscapePiece(ps[i]) == qs[i]
    ensures EscapeString(Concat(ps)) == Concat(qs)
  {
    forall i | 0 <= i < |ps|
      ensures ScanPiece(ps[i]) && EscapeScan(ps[i]) == qs[i] && ':' !in ps[i]
    {
      EscapePieceIsScan(ps[i]);
    }
    ColonFreeConcat(ps);
    EscapeStringIsScan(Concat(ps));
    ScanConcat(ps, qs);
  }

  lemma {:induction false} ColonFreeConcat(ps: seq<string>)
    requires forall i :: 0 <= i < |ps| ==> ':' !in ps[i]
    ensures ':' !in Concat(ps)
  {
    if ps != [] {
      ColonFreeConcat(ps[1..]);
    }
  }

  /** Rows of the escaping test table (cmd/ecrivain/tex_test.go), with
      `\\` in the source's inputs written as BackslashPair. */
  lemma EscapeStringMixedRow()
    ensures EscapeString(Concat(["Hello", BackslashPair, "World! ", "#", "Test", "%"]))
         == Concat(["Hello", BackslashGlyph, "World! ", "\\#", "Test", "\\%"])
  {
    EscapeStringRow(["Hello", BackslashPair, "World! ", "#", "Test", "%"],
                    ["Hello", BackslashGlyph, "World! ", "\\#", "Test", "\\%"]);
  }

  lemma EscapeStringPlainRows()
    ensures EscapeString("Normal text") == "Normal text"
    ensures EscapeString("") == ""
  {
    EscapePlainText("Normal text");
  }

  lemma EscapeStringSpecialsRow()
    ensures EscapeString(Concat(["$", "LaTeX", "$", " ", "&", " ", "_", "example", "_", "{"]))
         == Concat(["\\$", "LaTeX", "\\$", " ", "\\&", " ", "\\_", "example", "\\_", "\\{"])
  {
    EscapeStringRow(["$", "LaTeX", "$", " ", "&", " ", "_", "example", "_", "{"],
                    ["\\$", "LaTeX", "\\$", " ", "\\&", " ", "\\_", "example", "\\_", "\\{"]);
  }

  lemma EscapeStringBracesRow()
    ensures EscapeString(Concat(["{", "Hello", "}", " ", "^", "World", "#"]))
         == Concat(["\\{", "Hello", "\\}", " ", "\\^", "World", "\\#"])
  {
    EscapeStringRow(["{", "Hello", "}", " ", "^", "World", "#"],
                    ["\\{", "Hello", "\\}", " ", "\\^", "World", "\\#"]);
  }

  lemma EscapeStringCommentRow()
    ensures EscapeString(Concat(["%", "Comment", " ", "&", " ", "$", "Math", "$"]))
         == Concat(["\\%", "Comment", " ", "\\&", " ", "\\$", "Math", "\\$"])
  {
    EscapeStringRow(["%", "Comment", " ", "&", " ", "$", "Math", "$"],
                    ["\\%", "Comment", " ", "\\&", " ", "\\$", "Math", "\\$"]);
  }

  lemma EscapeStringAllSpecialsRow()
    ensures EscapeString(Concat(["#", "%", "&", "~", "$", "_", "^", "{", "}", BackslashPair]))
         == Concat(["\\#", "\\%", "\\&", "\\~", "\\$", "\\_", "\\^", "\\{", "\\}", BackslashGlyph])
  {
    EscapeStringRow(["#", "%", "&", "~", "$", "_", "^", "{", "}", BackslashPair],
                    ["\\#", "\\%", "\\&", "\\~", "\\$", "\\_", "\\^", "\\{", "\\}", BackslashGlyph]);
  }

  lemma EscapeStringRepeatRow()
    ensures EscapeString(Concat(["#", "%", "#", "%", "#", "%"]))
         == Concat(["\\#", "\\%", "\\#", "\\%", "\\#", "\\%"])
  {
    EscapeStringRow(["#", "%", "#", "%", "#", "%"], ["\\#", "\\%", "\\#", "\\%", "\\#", "\\%"]);
  }

  lemma EscapeStringInterleavedRow()
    ensures EscapeString(Concat(["A", "#", "B", "%", "C", "&", "D", "~", "E", "$", "F", "_", "G", "^", "H", "{", "I", "}"]))
         == Concat(["A", "\\#", "B", "\\%", "C", "\\&", "D", "\\~", "E", "\\$", "F", "\\_", "G", "\\^", "H", "\\{", "I", "\\}"])
  {
    EscapeStringRow(["A", "#", "B", "%", "C", "&", "D", "~", "E", "$", "F", "_", "G", "^", "H", "{", "I", "}"],
                    ["A", "\\#", "B", "\\%", "C", "\\&", "D", "\\~", "E", "\\$", "F", "\\_", "G", "\\^", "H", "\\{", "I", "\\}"]);
  }

  lemma EscapeStringPairsRow()
    ensures EscapeString(Concat(["A", BackslashPair, "#", "B", BackslashPair, "%", "C", BackslashPair]))
         == Concat(["A", BackslashGlyph, "\\#", "B", BackslashGlyph, "\\%", "C", BackslashGlyph])
  {
    EscapeStringRow(["A", BackslashPair, "#", "B", BackslashPair, "%", "C", BackslashPair],
                    ["A", BackslashGlyph, "\\#", "B", BackslashGlyph, "\\%", "C", BackslashGlyph]);
  }
}
