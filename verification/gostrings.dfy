/** Models of the Go standard-library string operations that the weave code
    relies on: strings.Split, strings.Join, strings.TrimSpace, strings.Fields,
    strings.TrimRight, strings.ReplaceAll, the regular-expression replacement of
    `\s+`, filepath.Base and the `%d` verb of fmt.  A `char` stands for a byte;
    the whitespace classes are the ASCII part of Go's. */
module GoStrings {

  datatype Option<+T> = None | Some(value: T)

  /** unicode.IsSpace on ASCII: space, tab, newline, vertical tab, form feed,
      carriage return. */
  predicate IsSpace(c: char) {
    c == ' ' || c == '\t' || c == '\n' || c == '\U{000B}' || c == '\U{000C}' || c == '\r'
  }

  /** The RE2 class `\s`, which is `[\t\n\f\r ]` (no vertical tab). */
  predicate IsRegexSpace(c: char) {
    c == ' ' || c == '\t' || c == '\n' || c == '\U{000C}' || c == '\r'
  }

  /** `len(strings.TrimSpace(s)) == 0`: the string holds whitespace only. */
  predicate IsBlank(s: string)
    decreases |s|
  {
    s == [] || (IsSpace(s[0]) && IsBlank(s[1..]))
  }

  /** Number of occurrences of `c` in `s`. */
  function Count(s: string, c: char): nat {
    if s == [] then 0 else (if s[0] == c then 1 else 0) + Count(s[1..], c)
  }

  lemma {:induction false} CountAppend(a: string, b: string, c: char)
    ensures Count(a + b, c) == Count(a, c) + Count(b, c)
    decreases |a|
  {
    if a != [] {
      assert (a + b)[1..] == a[1..] + b;
      CountAppend(a[1..], b, c);
    } else {
      assert a + b == b;
    }
  }

  lemma {:induction false} CountAbsent(s: string, c: char)
    requires c !in s
    ensures Count(s, c) == 0
    decreases |s|
  {
    if s != [] {
      assert s[0] in s;
      CountAbsent(s[1..], c);
    }
  }

  /** The characters of `s` for which `drop` is false, in order. */
  function Without(s: string, drop: char -> bool): string {
    if s == [] then [] else (if drop(s[0]) then [] else [s[0]]) + Without(s[1..], drop)
  }

  lemma {:induction false} WithoutAppend(a: string, b: string, drop: char -> bool)
    ensures Without(a + b, drop) == Without(a, drop) + Without(b, drop)
  {
    if a != [] {
      var x := if drop(a[0]) then [] else [a[0]];
      assert (a + b)[0] == a[0];
      assert (a + b)[1..] == a[1..] + b;
      assert Without(a + b, drop) == x + Without(a[1..] + b, drop);
      WithoutAppend(a[1..], b, drop);
      assert Without(a, drop) == x + Without(a[1..], drop);
    } else {
      assert a + b == b;
    }
  }

  // ---------------------------------------------------------------------------
  // strings.Split(s, "\n") and strings.Join

  /** strings.Split(s, "\n"): the pieces between newlines, so "" gives [""]
      and a trailing newline gives a trailing empty piece. */
  function Split(s: string): (pieces: seq<string>)
    ensures |pieces| >= 1
    decreases |s|
  {
    if s == [] then [""]
    else
      var rest := Split(s[1..]);
      if s[0] == '\n' then [""] + rest else [[s[0]] + rest[0]] + rest[1..]
  }

  /** strings.Join(pieces, sep). */
  function Join(pieces: seq<string>, sep: string): string {
    if pieces == [] then ""
    else if |pieces| == 1 then pieces[0]
    else pieces[0] + sep + Join(pieces[1..], sep)
  }

  /** Splitting on newlines loses nothing: joining the pieces with "\n" gives
      the text back, no piece holds a newline, and there is one piece more than
      there are newlines. */
  lemma {:induction false} SplitJoin(s: string)
    ensures Join(Split(s), "\n") == s
    ensures forall k :: 0 <= k < |Split(s)| ==> '\n' !in Split(s)[k]
    ensures |Split(s)| == Count(s, '\n') + 1
    decreases |s|
  {
    if s != [] {
      var rest := Split(s[1..]);
      SplitJoin(s[1..]);
      if s[0] == '\n' {
        assert Join([""] + rest, "\n") == "" + "\n" + Join(rest, "\n");
        assert s == [s[0]] + s[1..];
      } else {
        var ps := [[s[0]] + rest[0]] + rest[1..];
        if |rest| == 1 {
          assert Join(ps, "\n") == [s[0]] + rest[0];
          assert s == [s[0]] + s[1..];
        } else {
          assert Join(rest, "\n") == rest[0] + "\n" + Join(rest[1..], "\n");
          assert ps[1..] == rest[1..];
          assert Join(ps, "\n") == [s[0]] + rest[0] + "\n" + Join(rest[1..], "\n");
          assert s == [s[0]] + s[1..];
        }
        assert '\n' !in rest[0];
        forall k | 0 <= k < |ps| ensures '\n' !in ps[k] {
          if k > 0 { assert ps[k] == rest[k]; }
        }
      }
    }
  }

  /** The other direction: pieces without newlines are recovered by splitting
      their join. */
  lemma {:induction false} JoinSplit(pieces: seq<string>)
    requires |pieces| >= 1
    requires forall k :: 0 <= k < |pieces| ==> '\n' !in pieces[k]
    ensures Split(Join(pieces, "\n")) == pieces
    decreases pieces
  {
    if |pieces| == 1 {
      NoNewlineSplit(pieces[0]);
    } else {
      JoinSplit(pieces[1..]);
      SplitAfterNewline(pieces[0], Join(pieces[1..], "\n"));
    }
  }

  lemma {:induction false} NoNewlineSplit(w: string)
    requires '\n' !in w
    ensures Split(w) == [w]
    decreases |w|
  {
    if w != [] {
      NoNewlineSplit(w[1..]);
      assert w == [w[0]] + w[1..];
    }
  }

  lemma {:induction false} SplitAfterNewline(w: string, rest: string)
    requires '\n' !in w
    ensures Split(w + "\n" + rest) == [w] + Split(rest)
    decreases |w|
  {
    if w == [] {
      assert w + "\n" + rest == "\n" + rest;
      assert ("\n" + rest)[1..] == rest;
    } else {
      var s := w + "\n" + rest;
      assert s[1..] == w[1..] + "\n" + rest;
      SplitAfterNewline(w[1..], rest);
      assert [w[0]] + w[1..] == w;
    }
  }

  // ---------------------------------------------------------------------------
  // strings.Fields and strings.Join(..., " ")

  /** Length of the leading run of non-whitespace. */
  function WordPrefix(s: string): (n: nat)
    ensures n <= |s|
    ensures forall i :: 0 <= i < n ==> !IsSpace(s[i])
    ensures n < |s| ==> IsSpace(s[n])
  {
    if s != [] && !IsSpace(s[0]) then 1 + WordPrefix(s[1..]) else 0
  }

  /** A field: a non-empty string without whitespace. */
  predicate IsWord(w: string) {
    w != [] && forall i :: 0 <= i < |w| ==> !IsSpace(w[i])
  }

  /** strings.Fields: the maximal runs of non-whitespace, in order. */
  function Fields(s: string): seq<string>
    decreases |s|
  {
    if s == [] then []
    else if IsSpace(s[0]) then Fields(s[1..])
    else
      var n := WordPrefix(s);
      [s[..n]] + Fields(s[n..])
  }

  /** Every field is a word. */
  lemma {:induction false} FieldsAreWords(s: string)
    ensures forall k :: 0 <= k < |Fields(s)| ==> IsWord(Fields(s)[k])
    decreases |s|
  {
    if s != [] {
      if IsSpace(s[0]) {
        FieldsAreWords(s[1..]);
      } else {
        var n := WordPrefix(s);
        FieldsAreWords(s[n..]);
        var ws := Fields(s);
        assert ws == [s[..n]] + Fields(s[n..]);
        forall k | 0 <= k < |ws| ensures IsWord(ws[k]) {
          if k > 0 { assert ws[k] == Fields(s[n..])[k - 1]; }
        }
      }
    }
  }

  /** strings.Join(strings.Fields(s), " "): every whitespace run becomes one
      space and leading and trailing whitespace disappears. */
  function NormalizeSpace(s: string): string {
    Join(Fields(s), " ")
  }

  /** What "single-spaced" means: the only whitespace is a plain space, with
      a non-whitespace character on each side of it. */
  predicate SingleSpaced(r: string) {
    forall i :: 0 <= i < |r| && IsSpace(r[i]) ==>
      r[i] == ' ' && 0 < i < |r| - 1 && !IsSpace(r[i - 1]) && !IsSpace(r[i + 1])
  }

  lemma {:induction false} JoinWordsShape(ws: seq<string>)
    requires forall k :: 0 <= k < |ws| ==> IsWord(ws[k])
    ensures SingleSpaced(Join(ws, " "))
    ensures ws != [] ==> Join(ws, " ") != [] && !IsSpace(Join(ws, " ")[0])
    ensures ws != [] ==> !IsSpace(Join(ws, " ")[|Join(ws, " ")| - 1])
    decreases ws
  {
    if |ws| > 1 {
      JoinWordsShape(ws[1..]);
      var w, j := ws[0], Join(ws[1..], " ");
      var r := w + " " + j;
      assert IsWord(w);
      assert r == Join(ws, " ");
      assert forall i :: 0 <= i < |w| ==> r[i] == w[i];
      assert r[|w|] == ' ' && r[|w| - 1] == w[|w| - 1] && r[|w| + 1] == j[0];
      assert forall i :: |w| < i < |r| ==> r[i] == j[i - |w| - 1];
      assert r[|r| - 1] == j[|j| - 1];
    } else if |ws| == 1 {
      assert Join(ws, " ") == ws[0];
    }
  }

  lemma {:induction false} FieldsWithout(s: string)
    ensures Join(Fields(s), "") == Without(s, IsSpace)
    decreases |s|
  {
    if s != [] {
      if IsSpace(s[0]) {
        FieldsWithout(s[1..]);
      } else {
        var n := WordPrefix(s);
        FieldsWithout(s[n..]);
        JoinCons(s[..n], Fields(s[n..]));
        TakeWord(s);
      }
    }
  }

  /** Joining with no separator: the first piece, then the rest joined. */
  lemma JoinCons(w: string, rest: seq<string>)
    ensures Join([w] + rest, "") == w + Join(rest, "")
  {
    if rest == [] {
      assert [w] + rest == [w];
      assert w + "" == w;
    } else {
      assert ([w] + rest)[1..] == rest;
    }
  }

  lemma TakeWord(t: string)
    ensures Without(t, IsSpace) == t[..WordPrefix(t)] + Without(t[WordPrefix(t)..], IsSpace)
  {
    var n := WordPrefix(t);
    assert t == t[..n] + t[n..];
    WithoutAppend(t[..n], t[n..], IsSpace);
    NoneDropped(t[..n]);
  }

  lemma {:induction false} NoneDropped(s: string)
    requires forall i :: 0 <= i < |s| ==> !IsSpace(s[i])
    ensures Without(s, IsSpace) == s
  {
    if s != [] { NoneDropped(s[1..]); assert s == [s[0]] + s[1..]; }
  }

  lemma {:induction false} JoinWordsWithout(ws: seq<string>)
    requires forall k :: 0 <= k < |ws| ==> IsWord(ws[k])
    ensures Without(Join(ws, " "), IsSpace) == Join(ws, "")
    decreases ws
  {
    if |ws| == 1 {
      NoneDropped(ws[0]);
    } else if |ws| > 1 {
      JoinWordsWithout(ws[1..]);
      NoneDropped(ws[0]);
      WithoutAppend(ws[0] + " ", Join(ws[1..], " "), IsSpace);
      WithoutAppend(ws[0], " ", IsSpace);
      assert Without(" ", IsSpace) == [];
    }
  }

  /** The heading clean-up of the plain-text renderer keeps every
      non-whitespace character, in order, and leaves the text single-spaced. */
  lemma NormalizeSpaceMeaning(s: string)
    ensures Without(NormalizeSpace(s), IsSpace) == Without(s, IsSpace)
    ensures SingleSpaced(NormalizeSpace(s))
  {
    FieldsWithout(s);
    FieldsAreWords(s);
    JoinWordsWithout(Fields(s));
    JoinWordsShape(Fields(s));
  }

  lemma {:induction false} FieldsOfJoin(ws: seq<string>)
    requires forall k :: 0 <= k < |ws| ==> IsWord(ws[k])
    ensures Fields(Join(ws, " ")) == ws
    decreases ws
  {
    if |ws| == 1 {
      FieldsAfterWord(ws[0], []);
      assert ws[0] + [] == ws[0];
    } else if |ws| > 1 {
      FieldsOfJoin(ws[1..]);
      FieldsOfJoinStep(ws);
      assert ws == [ws[0]] + ws[1..];
    }
  }

  /** The first word of a space-joined list is its first field. */
  lemma FieldsOfJoinStep(ws: seq<string>)
    requires |ws| > 1 && IsWord(ws[0])
    ensures Fields(Join(ws, " ")) == [ws[0]] + Fields(Join(ws[1..], " "))
  {
    var j := Join(ws[1..], " ");
    FieldsAfterWord(ws[0], " " + j);
    assert Join(ws, " ") == ws[0] + (" " + j);
    FieldsLeadingSpace(j);
  }

  lemma FieldsAfterWord(w: string, rest: string)
    requires IsWord(w)
    requires rest == [] || IsSpace(rest[0])
    ensures Fields(w + rest) == [w] + Fields(rest)
  {
    var s := w + rest;
    assert s[0] == w[0];
    assert WordPrefix(s) == |w| by {
      assert forall i :: 0 <= i < |w| ==> s[i] == w[i];
      if |w| < |s| { assert s[|w|] == rest[0]; }
    }
    assert s[..|w|] == w;
    assert s[|w|..] == rest;
  }

  lemma FieldsLeadingSpace(j: string)
    ensures Fields(" " + j) == Fields(j)
  {
    assert (" " + j)[1..] == j;
  }

  /** Normalising the spacing twice is the same as normalising it once. */
  lemma NormalizeSpaceIdempotent(s: string)
    ensures NormalizeSpace(NormalizeSpace(s)) == NormalizeSpace(s)
  {
    FieldsAreWords(s);
    FieldsOfJoin(Fields(s));
  }

  // ---------------------------------------------------------------------------
  // regexp.MustCompile(`\s+`).ReplaceAllString(s, " ")

  /** Length of the leading run of `\s` characters. */
  function RegexSpacePrefix(s: string): (n: nat)
    ensures n <= |s|
    ensures forall i :: 0 <= i < n ==> IsRegexSpace(s[i])
    ensures n < |s| ==> !IsRegexSpace(s[n])
  {
    if s != [] && IsRegexSpace(s[0]) then 1 + RegexSpacePrefix(s[1..]) else 0
  }

  /** Each maximal run of `\s` characters replaced by one space; unlike
      NormalizeSpace, a leading or trailing run is kept as a space. */
  function CollapseSpace(s: string): (r: string)
    ensures s != [] ==> r != [] && r[0] == (if IsRegexSpace(s[0]) then ' ' else s[0])
    ensures forall i :: 0 <= i < |r| && IsRegexSpace(r[i]) ==>
      r[i] == ' ' && (i + 1 < |r| ==> !IsRegexSpace(r[i + 1]))
    ensures Without(r, IsRegexSpace) == Without(s, IsRegexSpace)
    decreases |s|
  {
    if s == [] then []
    else if IsRegexSpace(s[0]) then
      var n := RegexSpacePrefix(s);
      var rest := CollapseSpace(s[n..]);
      WithoutPrefixRegexSpace(s, n);
      " " + rest
    else
      [s[0]] + CollapseSpace(s[1..])
  }

  lemma {:induction false} WithoutPrefixRegexSpace(s: string, n: nat)
    requires n <= |s|
    requires forall i :: 0 <= i < n ==> IsRegexSpace(s[i])
    ensures Without(s, IsRegexSpace) == Without(s[n..], IsRegexSpace)
  {
    if n > 0 {
      assert s[1..][n - 1..] == s[n..];
      WithoutPrefixRegexSpace(s[1..], n - 1);
    }
  }

  // ---------------------------------------------------------------------------
  // strings.TrimRight and strings.ReplaceAll

  /** strings.TrimRight(s, cutset): `s` without its longest suffix made of
      characters of `cutset`. */
  function TrimRight(s: string, cutset: set<char>): (r: string)
    ensures r <= s
    ensures r == [] || r[|r| - 1] !in cutset
    ensures forall i :: |r| <= i < |s| ==> s[i] in cutset
    decreases |s|
  {
    if s != [] && s[|s| - 1] in cutset then TrimRight(s[..|s| - 1], cutset) else s
  }

  /** `p` occurs in `s` as a contiguous piece. */
  predicate Occurs(p: string, s: string)
    decreases |s|
  {
    |p| <= |s| && (s[..|p|] == p || Occurs(p, s[1..]))
  }

  /** strings.ReplaceAll(s, pat, rep) for a non-empty `pat`: the occurrences
      found left to right, without overlap, are replaced. */
  function ReplaceAll(s: string, pat: string, rep: string): string
    requires pat != []
    decreases |s|
  {
    if |s| < |pat| then s
    else if s[..|pat|] == pat then rep + ReplaceAll(s[|pat|..], pat, rep)
    else [s[0]] + ReplaceAll(s[1..], pat, rep)
  }

  /** Text without the pattern is left alone. */
  lemma {:induction false} ReplaceAllAbsent(s: string, pat: string, rep: string)
    requires pat != [] && !Occurs(pat, s)
    ensures ReplaceAll(s, pat, rep) == s
    decreases |s|
  {
    if |s| >= |pat| {
      ReplaceAllAbsent(s[1..], pat, rep);
      assert s == [s[0]] + s[1..];
    }
  }

  /** Replacing a single character by text that lacks it removes it. */
  lemma {:induction false} ReplaceCharRemoves(s: string, c: char, rep: string)
    requires c !in rep
    ensures c !in ReplaceAll(s, [c], rep)
    decreases |s|
  {
    if |s| >= 1 {
      ReplaceCharRemoves(s[1..], c, rep);
      if s[..1] == [c] { } else { assert s[0] != c; }
    }
  }

  /** A prefix of the result that avoids the first character of the
      replacement was already a prefix of the input. */
  lemma {:induction false} ReplaceAllPrefix(s: string, pat: string, rep: string, q: string)
    requires pat != [] && rep != []
    requires rep[0] !in q
    ensures q <= ReplaceAll(s, pat, rep) ==> q <= s
    decreases |s|
  {
    if q != [] && |s| >= |pat| && q <= ReplaceAll(s, pat, rep) {
      assert q[0] in q;
      if s[..|pat|] != pat {
        assert q[1..] <= ReplaceAll(s[1..], pat, rep);
        ReplaceAllPrefix(s[1..], pat, rep, q[1..]);
        assert q == [q[0]] + q[1..];
      }
    }
  }

  /** The result of a replacement ends like the input or like the
      replacement. */
  lemma {:induction false} ReplaceAllLast(s: string, pat: string, rep: string)
    requires pat != [] && rep != [] && s != []
    ensures ReplaceAll(s, pat, rep) != []
    ensures ReplaceAll(s, pat, rep)[|ReplaceAll(s, pat, rep)| - 1] in {s[|s| - 1], rep[|rep| - 1]}
    decreases |s|
  {
    var r := ReplaceAll(s, pat, rep);
    if |s| >= |pat| {
      if s[..|pat|] == pat {
        var t := s[|pat|..];
        if t != [] {
          ReplaceAllLast(t, pat, rep);
          assert s[|s| - 1] == t[|t| - 1];
        }
      } else if |s| > 1 {
        ReplaceAllLast(s[1..], pat, rep);
      }
    }
  }

  /** Replacing a single character keeps a last character that differs
      from it. */
  lemma {:induction false} ReplaceCharLast(s: string, c: char, rep: string)
    requires rep != [] && s != [] && s[|s| - 1] != c
    ensures ReplaceAll(s, [c], rep) != []
    ensures ReplaceAll(s, [c], rep)[|ReplaceAll(s, [c], rep)| - 1] == s[|s| - 1]
    decreases |s|
  {
    if |s| > 1 {
      ReplaceCharLast(s[1..], c, rep);
      if s[..1] == [c] {
        assert s[1..] == s[|[c]|..];
      }
    }
  }

  /** An occurrence in a concatenation that starts nowhere in the left part
      lies in the right part. */
  lemma {:induction false} OccursPastPrefix(p: string, a: string, b: string)
    requires forall i :: 0 <= i < |a| ==> !StartsAt(p, a + b, i)
    ensures Occurs(p, a + b) ==> Occurs(p, b)
    decreases |a|
  {
    if a == [] {
      assert a + b == b;
    } else {
      assert !StartsAt(p, a + b, 0);
      assert (a + b)[1..] == a[1..] + b;
      forall i | 0 <= i < |a[1..]|
        ensures !StartsAt(p, a[1..] + b, i)
      {
        assert !StartsAt(p, a + b, i + 1);
        if i + |p| <= |a[1..] + b| {
          assert (a + b)[i + 1..i + 1 + |p|] == (a[1..] + b)[i..i + |p|];
        }
      }
      OccursPastPrefix(p, a[1..], b);
    }
  }

  /** strings.HasSuffix. */
  predicate HasSuffix(s: string, suffix: string) {
    |suffix| <= |s| && s[|s| - |suffix|..] == suffix
  }

  /** A replacement introduces no character that neither the input nor the
      replacement holds. */
  lemma {:induction false} ReplaceAllAvoids(s: string, pat: string, rep: string, x: char)
    requires pat != [] && x !in s && x !in rep
    ensures x !in ReplaceAll(s, pat, rep)
    decreases |s|
  {
    if |s| >= |pat| {
      if s[..|pat|] == pat {
        assert forall i :: 0 <= i < |s[|pat|..]| ==> s[|pat|..][i] == s[|pat| + i];
        ReplaceAllAvoids(s[|pat|..], pat, rep, x);
      } else {
        assert s[0] in s;
        ReplaceAllAvoids(s[1..], pat, rep, x);
      }
    }
  }

  /** A character put in front of `t` starts an occurrence only when it
      and the start of `t` spell one. */
  lemma NoOccurrenceAcrossHead(p: string, s: string, t: string)
    requires p != [] && s != [] && !Occurs(p, t)
    requires |s| >= |p| ==> s[..|p|] != p
    requires p[1..] <= t ==> p[1..] <= s[1..]
    ensures !Occurs(p, [s[0]] + t)
  {
    var r := [s[0]] + t;
    var q := p[1..];
    assert r[1..] == t;
    assert |p| <= |r| && r[..|p|] == p ==> q <= t;
    assert q <= s[1..] ==> s[..|p|] == [s[0]] + q;
  }

  /** `p` occurs in `s` at position `i`. */
  predicate StartsAt(p: string, s: string, i: nat) {
    i + |p| <= |s| && s[i..i + |p|] == p
  }

  // ---------------------------------------------------------------------------
  // filepath.Base and the %d verb

  /** The part of `s` after its last '/'. */
  function AfterLastSlash(s: string): (r: string)
    ensures |r| <= |s| && r == s[|s| - |r|..]
    ensures '/' !in r
    ensures r == s || s[|s| - |r| - 1] == '/'
  {
    if s == [] || s[|s| - 1] == '/' then []
    else AfterLastSlash(s[..|s| - 1]) + [s[|s| - 1]]
  }

  /** filepath.Base on a Unix system: the last element of the path after
      trailing slashes are removed; "." for the empty path, "/" for a path of
      slashes only. */
  function Base(path: string): (r: string)
    ensures r != []
    ensures r == "/" || '/' !in r
    ensures path != [] && '/' !in path ==> r == path
  {
    if path == [] then "."
    else
      var trimmed := TrimRight(path, {'/'});
      if trimmed == [] then "/" else AfterLastSlash(trimmed)
  }

  function DigitChar(d: nat): char
    requires d < 10
  {
    "0123456789"[d]
  }

  predicate IsDigit(c: char) { '0' as int <= c as int <= '9' as int }

  /** The decimal digits of `n`, with no leading zero. */
  function Digits(n: nat): (r: string)
    ensures r != [] && forall i :: 0 <= i < |r| ==> IsDigit(r[i])
    ensures |r| > 1 ==> r[0] != '0'
  {
    if n < 10 then [DigitChar(n)] else Digits(n / 10) + [DigitChar(n % 10)]
  }

  /** The number a string of digits denotes. */
  function DigitsValue(s: string): nat
    requires forall i :: 0 <= i < |s| ==> IsDigit(s[i])
  {
    if s == [] then 0
    else
      var last := s[|s| - 1];
      assert IsDigit(last);
      10 * DigitsValue(s[..|s| - 1]) + (last as int - '0' as int)
  }

  /** fmt's %d: a minus sign for negative numbers, then the digits.  What it
      writes reads back as the number. */
  function Decimal(n: int): (r: string)
    ensures n >= 0 ==> (forall i :: 0 <= i < |r| ==> IsDigit(r[i])) && DigitsValue(r) == n
    ensures n < 0 ==> |r| >= 2 && r[0] == '-'
    ensures n < 0 ==> (forall i :: 0 <= i < |r[1..]| ==> IsDigit(r[1..][i])) && DigitsValue(r[1..]) == -n
  {
    if n < 0 then
      DigitsRoundTrip(-n);
      var r := "-" + Digits(-n);
      assert r[1..] == Digits(-n);
      r
    else
      DigitsRoundTrip(n);
      Digits(n)
  }

  /** %d is read back as the number it prints. */
  lemma {:induction false} DigitsRoundTrip(n: nat)
    ensures DigitsValue(Digits(n)) == n
  {
    if n >= 10 {
      DigitsRoundTrip(n / 10);
      var r := Digits(n);
      assert r[..|r| - 1] == Digits(n / 10);
    }
  }
}
