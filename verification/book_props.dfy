/** What the walk of pkg/book.go promises about the calls it makes: each
    call reports a block of the file's lines that its line numbers locate,
    the blocks come in order and cover every line that is not blank, and
    across files the calls nest: Beginning, the runs of one file, Ending. */
module WeaveProps {
  import opened GoStrings
  import opened Weave

  // ---------------------------------------------------------------------------
  // The block of lines a call reports

  /** The first line of the block a run call reports.  AddComment and
      AddCode receive the block's end and the end plus the block's length,
      so the block starts at twice the first number less the second. */
  function First(c: Call): int {
    match c
    case AddHeading(_, _, _, line) => line
    case AddComment(_, _, startLine, endLine) => 2 * startLine - endLine
    case AddCode(_, _, startLine, endLine) => 2 * startLine - endLine
    case _ => 0
  }

  /** The number of lines in that block. */
  function Size(c: Call): int {
    match c
    case AddHeading(_, _, _, _) => 1
    case AddComment(_, _, startLine, endLine) => endLine - startLine
    case AddCode(_, _, startLine, endLine) => endLine - startLine
    case _ => 0
  }

  /** Call `c` reports lines of `lines` (whose first line has number
      `counter`): its block lies inside the file and starts with a line that
      is not blank.  A heading is one heading line and its text; a comment
      run is a maximal block of comment lines and its text; a code run is
      a maximal block of lines that end no code run, starting with a line
      that is neither a heading nor a comment. */
  predicate Describes(c: Call, lines: seq<string>, counter: int, rules: RegExpSet, fileName: string) {
    var b := First(c) - counter;
    var n := Size(c);
    1 <= n && 0 <= b && b + n <= |lines| && DescribesBlock(c, lines, b, n, rules, fileName)
  }

  /** Call `c` reports the `n` lines of `lines` that start at index `b`. */
  predicate DescribesBlock(c: Call, lines: seq<string>, b: nat, n: nat, rules: RegExpSet, fileName: string)
    requires 1 <= n && b + n <= |lines|
  {
    c.IsRun() && c.fileName == fileName && !IsBlank(lines[b]) &&
    (c.AddHeading? ==>
      HeadingMatches(rules.heading, lines[b]) &&
      HeadingCall(rules.heading, lines[b], fileName, First(c)) == Some(c)) &&
    (c.AddComment? ==>
      !HeadingMatches(rules.heading, lines[b]) &&
      c.comment == RunText(lines[b..b + n]) && CommentBlock(lines, b, n, rules.comment)) &&
    (c.AddCode? ==>
      !HeadingMatches(rules.heading, lines[b]) && !Matches(rules.comment, lines[b]) &&
      c.code == RunText(lines[b..b + n]) && CodeBlock(lines, b, n, rules))
  }

  /** Lines b to b + n - 1 are a maximal block of comment lines. */
  predicate CommentBlock(lines: seq<string>, b: int, n: int, comment: Pattern)
    requires 0 <= b <= b + n <= |lines|
  {
    (forall k :: b <= k < b + n ==> Matches(comment, lines[k])) &&
    (b + n < |lines| ==> !Matches(comment, lines[b + n]))
  }

  /** Lines b to b + n - 1 are a maximal block of lines that end no code run. */
  predicate CodeBlock(lines: seq<string>, b: int, n: int, rules: RegExpSet)
    requires 0 <= b <= b + n <= |lines|
  {
    (forall k :: b <= k < b + n ==> !EndsCode(rules, lines[k])) &&
    (b + n < |lines| ==> EndsCode(rules, lines[b + n]))
  }

  /** A call that describes the lines after the first `n` describes the
      whole file too. */
  lemma DescribesShift(c: Call, lines: seq<string>, counter: int, n: nat, rules: RegExpSet, fileName: string)
    requires n <= |lines|
    requires Describes(c, lines[n..], counter + n, rules, fileName)
    ensures Describes(c, lines, counter, rules, fileName)
  {
    var b := First(c) - counter;
    var size := Size(c);
    assert lines[n..][b - n..b - n + size] == lines[b..b + size];
    assert lines[n..][b - n] == lines[b];
    if b + size < |lines| {
      assert lines[n..][b - n + size] == lines[b + size];
    }
    if c.AddComment? {
      assert CommentBlock(lines[n..], b - n, size, rules.comment);
      forall k | b <= k < b + size ensures Matches(rules.comment, lines[k]) {
        assert lines[n..][k - n] == lines[k];
      }
      assert CommentBlock(lines, b, size, rules.comment);
    } else if c.AddCode? {
      assert CodeBlock(lines[n..], b - n, size, rules);
      forall k | b <= k < b + size ensures !EndsCode(rules, lines[k]) {
        assert lines[n..][k - n] == lines[k];
      }
      assert CodeBlock(lines, b, size, rules);
    }
  }

  /** The call the loop makes at the file's current first line: its block
      starts at that line and its length is what the loop consumes. */
  lemma HeadStep(lines: seq<string>, counter: int, rules: RegExpSet, fileName: string) returns (n: nat, c: Call)
    requires lines != [] && !IsBlank(lines[0])
    requires HeadingMatches(rules.heading, lines[0]) ==> HeadingCall(rules.heading, lines[0], fileName, counter).Some?
    ensures 1 <= n <= |lines|
    ensures ScanLines(lines, counter, rules, fileName) == Prepend([c], ScanLines(lines[n..], counter + n, rules, fileName))
    ensures First(c) == counter && Size(c) == n
  {
    if HeadingMatches(rules.heading, lines[0]) {
      ScanHeadingStep(lines, counter, rules, fileName);
      HeadingCallMeaning(rules.heading, lines[0], fileName, counter);
      n, c := 1, HeadingCall(rules.heading, lines[0], fileName, counter).value;
    } else if Matches(rules.comment, lines[0]) {
      ScanCommentStep(lines, counter, rules, fileName);
      n := CommentRun(lines, rules.comment);
      c := Call.AddComment(RunText(lines[..n]), fileName, counter + n, counter + 2 * n);
    } else {
      ScanCodeStep(lines, counter, rules, fileName);
      CodeRunMaximal(lines, rules);
      n := CodeRun(lines, rules);
      c := Call.AddCode(RunText(lines[..n]), fileName, counter + n, counter + 2 * n);
    }
  }

  /** That call describes the block it starts. */
  lemma HeadDescribes(lines: seq<string>, counter: int, rules: RegExpSet, fileName: string) returns (n: nat, c: Call)
    requires lines != [] && !IsBlank(lines[0])
    requires HeadingMatches(rules.heading, lines[0]) ==> HeadingCall(rules.heading, lines[0], fileName, counter).Some?
    ensures 1 <= n <= |lines|
    ensures ScanLines(lines, counter, rules, fileName) == Prepend([c], ScanLines(lines[n..], counter + n, rules, fileName))
    ensures Describes(c, lines, counter, rules, fileName) && First(c) == counter && Size(c) == n
  {
    if HeadingMatches(rules.heading, lines[0]) {
      ScanHeadingStep(lines, counter, rules, fileName);
      n, c := HeadingDescribes(lines, counter, rules, fileName);
    } else if Matches(rules.comment, lines[0]) {
      ScanCommentStep(lines, counter, rules, fileName);
      n, c := CommentDescribes(lines, counter, rules, fileName);
    } else {
      ScanCodeStep(lines, counter, rules, fileName);
      n, c := CodeDescribes(lines, counter, rules, fileName);
    }
  }

  /** A call whose block is the first `n` lines describes them. */
  lemma DescribesFirst(c: Call, lines: seq<string>, counter: int, n: nat, rules: RegExpSet, fileName: string)
    requires 1 <= n <= |lines| && First(c) == counter && Size(c) == n
    requires DescribesBlock(c, lines, 0, n, rules, fileName)
    ensures Describes(c, lines, counter, rules, fileName)
  {
  }

  lemma HeadingDescribes(lines: seq<string>, counter: int, rules: RegExpSet, fileName: string) returns (n: nat, c: Call)
    requires lines != [] && !IsBlank(lines[0]) && HeadingMatches(rules.heading, lines[0])
    requires HeadingCall(rules.heading, lines[0], fileName, counter).Some?
    ensures n == 1 && c == HeadingCall(rules.heading, lines[0], fileName, counter).value
    ensures Describes(c, lines, counter, rules, fileName) && First(c) == counter && Size(c) == n
  {
    HeadingCallMeaning(rules.heading, lines[0], fileName, counter);
    n, c := 1, HeadingCall(rules.heading, lines[0], fileName, counter).value;
    assert DescribesBlock(c, lines, 0, n, rules, fileName);
    DescribesFirst(c, lines, counter, n, rules, fileName);
  }

  lemma CommentDescribes(lines: seq<string>, counter: int, rules: RegExpSet, fileName: string) returns (n: nat, c: Call)
    requires lines != [] && !IsBlank(lines[0]) && !HeadingMatches(rules.heading, lines[0])
    requires Matches(rules.comment, lines[0])
    ensures n == CommentRun(lines, rules.comment)
    ensures c == Call.AddComment(RunText(lines[..n]), fileName, counter + n, counter + 2 * n)
    ensures Describes(c, lines, counter, rules, fileName) && First(c) == counter && Size(c) == n
  {
    CommentRunMaximal(lines, rules.comment);
    n := CommentRun(lines, rules.comment);
    c := Call.AddComment(RunText(lines[..n]), fileName, counter + n, counter + 2 * n);
    assert CommentBlock(lines, 0, n, rules.comment);
    assert lines[0..n] == lines[..n];
    assert DescribesBlock(c, lines, 0, n, rules, fileName);
    DescribesFirst(c, lines, counter, n, rules, fileName);
  }

  lemma CodeDescribes(lines: seq<string>, counter: int, rules: RegExpSet, fileName: string) returns (n: nat, c: Call)
    requires lines != [] && !IsBlank(lines[0]) && !HeadingMatches(rules.heading, lines[0])
    requires !Matches(rules.comment, lines[0])
    ensures n == CodeRun(lines, rules)
    ensures c == Call.AddCode(RunText(lines[..n]), fileName, counter + n, counter + 2 * n)
    ensures Describes(c, lines, counter, rules, fileName) && First(c) == counter && Size(c) == n
  {
    CodeRunMaximal(lines, rules);
    n := CodeRun(lines, rules);
    c := Call.AddCode(RunText(lines[..n]), fileName, counter + n, counter + 2 * n);
    assert CodeBlock(lines, 0, n, rules);
    assert lines[0..n] == lines[..n];
    assert DescribesBlock(c, lines, 0, n, rules, fileName);
    DescribesFirst(c, lines, counter, n, rules, fileName);
  }

  /** Every call the walk over a file makes describes a block of its lines. */
  lemma {:induction false} ScanDescribes(lines: seq<string>, counter: int, rules: RegExpSet, fileName: string)
    ensures var r := ScanLines(lines, counter, rules, fileName);
      forall i :: 0 <= i < |r.calls| ==> Describes(r.calls[i], lines, counter, rules, fileName)
    decreases |lines|
  {
    if lines == [] {
    } else if IsBlank(lines[0]) {
      ScanBlankStep(lines, counter, rules, fileName);
      ScanDescribes(lines[1..], counter + 1, rules, fileName);
      var r := ScanLines(lines, counter, rules, fileName);
      forall i | 0 <= i < |r.calls| ensures Describes(r.calls[i], lines, counter, rules, fileName) {
        DescribesShift(r.calls[i], lines, counter, 1, rules, fileName);
      }
    } else if HeadingMatches(rules.heading, lines[0]) && HeadingCall(rules.heading, lines[0], fileName, counter).None? {
      ScanHeadingStep(lines, counter, rules, fileName);
    } else {
      var n, c := HeadDescribes(lines, counter, rules, fileName);
      ScanDescribes(lines[n..], counter + n, rules, fileName);
      var r := ScanLines(lines, counter, rules, fileName);
      var tail := ScanLines(lines[n..], counter + n, rules, fileName);
      forall i | 0 <= i < |r.calls| ensures Describes(r.calls[i], lines, counter, rules, fileName) {
        if i > 0 {
          assert r.calls[i] == tail.calls[i - 1];
          DescribesShift(r.calls[i], lines, counter, n, rules, fileName);
        }
      }
    }
  }

  /** The blocks come in the order of the lines: each call's block ends
      where the next call's block starts or before, and no block starts
      before the walk's starting line. */
  lemma {:induction false} ScanOrdered(lines: seq<string>, counter: int, rules: RegExpSet, fileName: string)
    ensures var r := ScanLines(lines, counter, rules, fileName);
      (forall i :: 0 <= i < |r.calls| ==> counter <= First(r.calls[i])) &&
      forall i :: 0 <= i < |r.calls| - 1 ==> First(r.calls[i]) + Size(r.calls[i]) <= First(r.calls[i + 1])
    decreases |lines|
  {
    if lines == [] {
    } else if IsBlank(lines[0]) {
      ScanBlankStep(lines, counter, rules, fileName);
      ScanOrdered(lines[1..], counter + 1, rules, fileName);
    } else if HeadingMatches(rules.heading, lines[0]) && HeadingCall(rules.heading, lines[0], fileName, counter).None? {
      ScanHeadingStep(lines, counter, rules, fileName);
    } else {
      var n, c := HeadStep(lines, counter, rules, fileName);
      ScanOrdered(lines[n..], counter + n, rules, fileName);
      var r := ScanLines(lines, counter, rules, fileName);
      var tail := ScanLines(lines[n..], counter + n, rules, fileName);
      assert r.calls == [c] + tail.calls;
      forall i | 0 <= i < |r.calls| ensures counter <= First(r.calls[i]) {
        if i > 0 {
          assert r.calls[i] == tail.calls[i - 1];
        }
      }
      forall i | 0 <= i < |r.calls| - 1 ensures First(r.calls[i]) + Size(r.calls[i]) <= First(r.calls[i + 1]) {
        assert r.calls[i + 1] == tail.calls[i];
        if i > 0 {
          assert r.calls[i] == tail.calls[i - 1];
        }
      }
    }
  }

  /** Line `k` of the file lies in the block of one of the calls. */
  ghost predicate Covered(calls: seq<Call>, k: int) {
    exists i :: 0 <= i < |calls| && First(calls[i]) <= k < First(calls[i]) + Size(calls[i])
  }

  /** When the walk completes, every line that is not blank lies in the
      block of some call: blank lines are the only ones nothing reports. */
  lemma {:induction false} ScanCovers(lines: seq<string>, counter: int, rules: RegExpSet, fileName: string)
    ensures var r := ScanLines(lines, counter, rules, fileName);
      r.completed ==>
        forall k :: 0 <= k < |lines| && !IsBlank(lines[k]) ==> Covered(r.calls, counter + k)
    decreases |lines|
  {
    var r := ScanLines(lines, counter, rules, fileName);
    if lines == [] {
    } else if IsBlank(lines[0]) {
      ScanBlankStep(lines, counter, rules, fileName);
      ScanCovers(lines[1..], counter + 1, rules, fileName);
      forall k | 0 <= k < |lines| && !IsBlank(lines[k]) && r.completed ensures Covered(r.calls, counter + k) {
        assert lines[1..][k - 1] == lines[k];
      }
    } else if HeadingMatches(rules.heading, lines[0]) && HeadingCall(rules.heading, lines[0], fileName, counter).None? {
      ScanHeadingStep(lines, counter, rules, fileName);
    } else {
      var n, c := HeadStep(lines, counter, rules, fileName);
      ScanCovers(lines[n..], counter + n, rules, fileName);
      var tail := ScanLines(lines[n..], counter + n, rules, fileName);
      forall k | 0 <= k < |lines| && !IsBlank(lines[k]) && r.completed ensures Covered(r.calls, counter + k) {
        if k < n {
          assert r.calls[0] == c;
        } else {
          assert lines[n..][k - n] == lines[k];
          var i :| 0 <= i < |tail.calls| && First(tail.calls[i]) <= counter + k < First(tail.calls[i]) + Size(tail.calls[i]);
          assert r.calls[i + 1] == tail.calls[i];
        }
      }
    }
  }

  /** The text of a comment or code call splits back into the lines of its
      block, each of them followed by a newline. */
  lemma RunTextLines(c: Call, lines: seq<string>, counter: int, rules: RegExpSet, fileName: string)
    requires Describes(c, lines, counter, rules, fileName)
    requires forall k :: 0 <= k < |lines| ==> '\n' !in lines[k]
    ensures c.AddComment? ==> Split(c.comment) == lines[First(c) - counter..First(c) - counter + Size(c)] + [""]
    ensures c.AddCode? ==> Split(c.code) == lines[First(c) - counter..First(c) - counter + Size(c)] + [""]
  {
    var b := First(c) - counter;
    var block := lines[b..b + Size(c)];
    if c.AddComment? || c.AddCode? {
      forall k | 0 <= k < |block| ensures '\n' !in block[k] {
        assert block[k] == lines[b + k];
      }
      RunTextSplit(block);
    }
  }

  // ---------------------------------------------------------------------------
  // Where a file panics

  /** With an empty heading pattern every line matches it and has no first
      group: the walk makes no call, and it completes exactly when every
      line is blank. */
  lemma {:induction false} EmptyHeadingPanics(lines: seq<string>, counter: int, rules: RegExpSet, fileName: string)
    requires rules.heading.source == ""
    ensures var r := ScanLines(lines, counter, rules, fileName);
      r.calls == [] && (r.completed <==> forall k :: 0 <= k < |lines| ==> IsBlank(lines[k]))
    decreases |lines|
  {
    if lines != [] {
      if IsBlank(lines[0]) {
        ScanBlankStep(lines, counter, rules, fileName);
        EmptyHeadingPanics(lines[1..], counter + 1, rules, fileName);
        if forall k :: 0 <= k < |lines[1..]| ==> IsBlank(lines[1..][k]) {
          forall k | 0 <= k < |lines| ensures IsBlank(lines[k]) {
            if k > 0 { assert lines[k] == lines[1..][k - 1]; }
          }
        }
      } else {
        ScanHeadingStep(lines, counter, rules, fileName);
      }
    }
  }

  /** A heading pattern that is not empty, whose every match has a first
      group and is no longer than the line. */
  ghost predicate HeadingWellFormed(h: HeadingPattern) {
    h.source != "" &&
    forall line :: h.find(line).Some? ==> h.find(line).value.group1.Some? && |h.find(line).value.full| <= |line|
  }

  /** With a well-formed heading pattern the walk goes to the end of the
      file and passes every line. */
  lemma {:induction false} WellFormedCompletes(lines: seq<string>, counter: int, rules: RegExpSet, fileName: string)
    requires HeadingWellFormed(rules.heading)
    ensures ScanLines(lines, counter, rules, fileName).completed
    ensures ScanLines(lines, counter, rules, fileName).lineCounter == counter + |lines|
    decreases |lines|
  {
    if lines != [] {
      if IsBlank(lines[0]) {
        ScanBlankStep(lines, counter, rules, fileName);
        WellFormedCompletes(lines[1..], counter + 1, rules, fileName);
      } else {
        HeadingCallMeaning(rules.heading, lines[0], fileName, counter);
        var n, c := HeadDescribes(lines, counter, rules, fileName);
        WellFormedCompletes(lines[n..], counter + n, rules, fileName);
      }
    }
  }

  /** With an empty comment pattern every line that is neither blank nor a
      heading starts a comment run that takes the rest of the file. */
  lemma EmptyCommentTakesRest(lines: seq<string>, counter: int, rules: RegExpSet, fileName: string)
    requires rules.comment.source == ""
    requires lines != [] && !IsBlank(lines[0]) && !HeadingMatches(rules.heading, lines[0])
    ensures ScanLines(lines, counter, rules, fileName) ==
      Scan([Call.AddComment(RunText(lines), fileName, counter + |lines|, counter + 2 * |lines|)], true, counter + |lines|)
  {
    ScanCommentStep(lines, counter, rules, fileName);
    CommentRunMaximal(lines, rules.comment);
    assert lines[..|lines|] == lines;
    assert ScanLines(lines[|lines|..], counter + |lines|, rules, fileName) == Scan([], true, counter + |lines|);
  }

  /** doCode checks that a pattern is not empty before asking it to end the
      run, so with both patterns empty no line ends a code run and doCode
      takes every line it is given. */
  lemma {:induction false} EmptyPatternsNeverEndCode(lines: seq<string>, rules: RegExpSet)
    requires rules.comment.source == "" && rules.heading.source == ""
    ensures CodeRun(lines, rules) == |lines|
    decreases |lines|
  {
    if lines != [] {
      EmptyPatternsNeverEndCode(lines[1..], rules);
    }
  }

  // ---------------------------------------------------------------------------
  // Two walks over small files

  /** A comment run does not stop at a heading: a line that matches both
      patterns, after a comment line, is taken into the comment. */
  lemma HeadingInsideComment(rules: RegExpSet, fileName: string)
    requires Matches(rules.comment, "// a") && !HeadingMatches(rules.heading, "// a")
    requires Matches(rules.comment, "// * b")
    ensures ScanLines(["// a", "// * b"], 0, rules, fileName) ==
      Scan([Call.AddComment("// a\n// * b\n", fileName, 2, 4)], true, 2)
  {
    var lines := ["// a", "// * b"];
    assert !IsBlank(lines[0]) by { assert !IsSpace(lines[0][0]); }
    ScanCommentStep(lines, 0, rules, fileName);
    assert lines[1..] == ["// * b"] && lines[1..][1..] == [] && lines[2..] == [];
    assert CommentRun(lines[1..], rules.comment) == 1;
    assert CommentRun(lines, rules.comment) == 2;
    assert lines[..2] == lines;
    assert RunText(lines) == "// a\n// * b\n" by {
      assert RunText(lines[1..][1..]) == "";
    }
    assert ScanLines(lines[2..], 2, rules, fileName) == Scan([], true, 2);
  }

  /** A code run goes on over blank lines: only a comment or a heading line
      ends it. */
  lemma BlankLineInsideCode(rules: RegExpSet, fileName: string)
    requires !HeadingMatches(rules.heading, "x = 1;") && !Matches(rules.comment, "x = 1;")
    requires !EndsCode(rules, "") && !EndsCode(rules, "y = 2;")
    ensures ScanLines(["x = 1;", "", "y = 2;"], 0, rules, fileName) ==
      Scan([Call.AddCode("x = 1;\n\ny = 2;\n", fileName, 3, 6)], true, 3)
  {
    var lines := ["x = 1;", "", "y = 2;"];
    assert !IsBlank(lines[0]) by { assert !IsSpace(lines[0][0]); }
    ScanCodeStep(lines, 0, rules, fileName);
    assert !EndsCode(rules, lines[0]);
    assert lines[1..] == ["", "y = 2;"] && lines[1..][1..] == ["y = 2;"] && lines[1..][1..][1..] == [] && lines[3..] == [];
    assert CodeRun(lines[1..][1..], rules) == 1;
    assert CodeRun(lines[1..], rules) == 2;
    assert CodeRun(lines, rules) == 3;
    assert lines[..3] == lines;
    assert RunText(lines) == "x = 1;\n\ny = 2;\n" by {
      assert RunText(lines[1..][1..][1..]) == "";
    }
    assert ScanLines(lines[3..], 3, rules, fileName) == Scan([], true, 3);
  }

  // ---------------------------------------------------------------------------
  // Across files

  /** The files that can be read, in their order: every one of them is kept
      and no other. */
  function Readable(files: seq<string>, fs: string -> Option<string>): (r: seq<string>)
    ensures |r| <= |files|
    ensures forall k :: 0 <= k < |r| ==> r[k] in files && fs(r[k]).Some?
    ensures forall f :: f in files && fs(f).Some? ==> f in r
    ensures |r| == |files| <==> forall k :: 0 <= k < |files| ==> fs(files[k]).Some?
    decreases |files|
  {
    if files == [] then []
    else if fs(files[0]).Some? then [files[0]] + Readable(files[1..], fs)
    else Readable(files[1..], fs)
  }

  /** A file that cannot be read adds no call: the calls are those made
      for the readable files alone. */
  lemma {:induction false} UnreadableSkipped(files: seq<string>, fs: string -> Option<string>, rules: RegExpSet)
    ensures FormatCalls(files, fs, rules) == FormatCalls(Readable(files, fs), fs, rules)
    decreases |files|
  {
    if files != [] {
      UnreadableSkipped(files[1..], fs, rules);
      var rest := FormatCalls(files[1..], fs, rules);
      if fs(files[0]).Some? {
        var r := Readable(files, fs);
        assert r[0] == files[0] && r[1..] == Readable(files[1..], fs);
      } else {
        assert [] + rest.calls == rest.calls;
      }
    }
  }

  /** Where the calls leave the output, reading them from the front: outside
      every file (false) or inside one (true), or None when a call comes
      where it cannot: Reset at all, Beginning inside a file, Ending or a
      run outside one. */
  function Nesting(calls: seq<Call>, inside: bool): Option<bool>
    decreases |calls|
  {
    if calls == [] then Some(inside)
    else
      match calls[0]
      case Reset => None
      case Beginning => if inside then None else Nesting(calls[1..], true)
      case Ending => if inside then Nesting(calls[1..], false) else None
      case _ => if inside then Nesting(calls[1..], true) else None
  }

  lemma {:induction false} NestingAppend(a: seq<Call>, b: seq<Call>, inside: bool)
    ensures Nesting(a + b, inside) ==
      match Nesting(a, inside)
      case None => None
      case Some(after) => Nesting(b, after)
    decreases |a|
  {
    if a != [] {
      assert (a + b)[0] == a[0] && (a + b)[1..] == a[1..] + b;
      if !a[0].Reset? {
        NestingAppend(a[1..], b, a[0].Beginning? || (!a[0].Ending? && inside));
      }
    } else {
      assert a + b == b;
    }
  }

  lemma {:induction false} RunsNest(calls: seq<Call>)
    requires forall i :: 0 <= i < |calls| ==> calls[i].IsRun()
    ensures Nesting(calls, true) == Some(true)
    decreases |calls|
  {
    if calls != [] {
      RunsNest(calls[1..]);
    }
  }

  /** The calls of one readable file: Beginning, its runs, then Ending
      unless it panicked; it is left inside the file exactly when it
      panicked. */
  lemma FileNests(name: string, data: Option<string>, rules: RegExpSet)
    ensures var t := FileCalls(name, data, rules);
      Nesting(t.calls, false) == Some(!t.completed)
  {
    if data.Some? {
      var s := ScanLines(Lines(data.value, rules), 0, rules, name);
      ScanShape(Lines(data.value, rules), 0, rules, name);
      RunsNest(s.calls);
      NestingAppend([Call.Beginning], s.calls, false);
      var tail: seq<Call> := if s.completed then [Call.Ending] else [];
      NestingAppend([Call.Beginning] + s.calls, tail, false);
    }
  }

  /** Across all files the calls never repeat Reset, and each readable file
      is one Beginning, its runs and one Ending, the last file that is
      reached left open exactly when it panicked. */
  lemma {:induction false} FormatNests(files: seq<string>, fs: string -> Option<string>, rules: RegExpSet)
    ensures var t := FormatCalls(files, fs, rules);
      Nesting(t.calls, false) == Some(!t.completed)
    decreases |files|
  {
    if files != [] {
      var head := FileCalls(files[0], fs(files[0]), rules);
      FileNests(files[0], fs(files[0]), rules);
      if head.completed {
        FormatNests(files[1..], fs, rules);
        NestingAppend(head.calls, FormatCalls(files[1..], fs, rules).calls, false);
      }
    }
  }

  /** How many times `c` occurs in `calls`. */
  function Occurrences(calls: seq<Call>, c: Call): nat {
    multiset(calls)[c]
  }

  /** When every file completes, there are as many Beginnings and as many
      Endings as readable files; otherwise one Ending fewer than
      Beginnings. */
  lemma {:induction false} BeginningsAndEndings(files: seq<string>, fs: string -> Option<string>, rules: RegExpSet)
    ensures var t := FormatCalls(files, fs, rules);
      Occurrences(t.calls, Call.Beginning) == Occurrences(t.calls, Call.Ending) + (if t.completed then 0 else 1) &&
      (t.completed ==> Occurrences(t.calls, Call.Beginning) == |Readable(files, fs)|)
    decreases |files|
  {
    if files != [] {
      var head := FileCalls(files[0], fs(files[0]), rules);
      var rest := FormatCalls(files[1..], fs, rules);
      BeginningsAndEndings(files[1..], fs, rules);
      FileBeginningsAndEndings(files[0], fs(files[0]), rules);
      if head.completed {
        assert FormatCalls(files, fs, rules).calls == head.calls + rest.calls;
      }
    }
  }

  /** A readable file makes one Beginning, and one Ending unless it
      panicked; an unreadable one makes neither. */
  lemma FileBeginningsAndEndings(name: string, data: Option<string>, rules: RegExpSet)
    ensures var h := FileCalls(name, data, rules);
      Occurrences(h.calls, Call.Beginning) == (if data.Some? then 1 else 0) &&
      Occurrences(h.calls, Call.Ending) == (if data.Some? && h.completed then 1 else 0) &&
      (data.None? ==> h.completed)
  {
    if data.Some? {
      var s := ScanLines(Lines(data.value, rules), 0, rules, name);
      ScanShape(Lines(data.value, rules), 0, rules, name);
      assert Call.Beginning !in s.calls && Call.Ending !in s.calls by {
        forall i | 0 <= i < |s.calls| ensures s.calls[i] != Call.Beginning && s.calls[i] != Call.Ending {
          assert s.calls[i].IsRun();
        }
      }
    }
  }

  /** The number of lines a completed walk passes is one more than the
      number of newlines in the file's content. */
  lemma FileLineCount(name: string, data: string, rules: RegExpSet)
    ensures var s := ScanLines(Lines(data, rules), 0, rules, name);
      s.completed ==> s.lineCounter == Count(Content(data, rules), '\n') + 1
  {
    LinesMeaning(data, rules);
    ScanShape(Lines(data, rules), 0, rules, name);
  }

  /** With a well-formed heading pattern no file panics. */
  lemma {:induction false} FormatCompletes(files: seq<string>, fs: string -> Option<string>, rules: RegExpSet)
    requires HeadingWellFormed(rules.heading)
    ensures FormatCalls(files, fs, rules).completed
    decreases |files|
  {
    if files != [] {
      FormatCompletes(files[1..], fs, rules);
      if fs(files[0]).Some? {
        WellFormedCompletes(Lines(fs(files[0]).value, rules), 0, rules, files[0]);
      }
    }
  }
}
