/** The first segmentation engine, cmd/ecrivain/pbook.go.  Its doHeading,
    doComment and doCode are the ones of pkg/book.go and are not repeated
    here; its walk differs in three ways: it skips no blank line, it calls
    neither Beginning nor Ending, and after a comment or code run it drops
    as many lines as the cumulative line counter says rather than as many
    as the run took.  Dropping more lines than are left is a slice out of
    range, which panics. */
module LegacyWeave {
  import opened GoStrings
  import opened Weave

  /** The walk of the legacy FormatBuffer over the lines left of a file,
      `counter` being its line counter.  A heading takes one line; a
      comment or code run of n lines moves the counter on by n and then
      drops as many lines as the new counter says. */
  function LegacyScan(lines: seq<string>, counter: nat, rules: RegExpSet, fileName: string): Scan
    decreases |lines|, 1
  {
    if lines == [] then Scan([], true, counter)
    else if HeadingMatches(rules.heading, lines[0]) then
      match HeadingCall(rules.heading, lines[0], fileName, counter)
      case None => Scan([], false, counter)
      case Some(c) => Prepend([c], LegacyScan(lines[1..], counter + 1, rules, fileName))
    else Reslice(lines, RunCall(lines, counter, rules, fileName), counter + RunLength(lines, rules), rules, fileName)
  }

  /** The length of the comment or code run the first line starts. */
  function RunLength(lines: seq<string>, rules: RegExpSet): (n: nat)
    requires lines != [] && !HeadingMatches(rules.heading, lines[0])
    ensures 1 <= n <= |lines|
  {
    if Matches(rules.comment, lines[0]) then CommentRun(lines, rules.comment) else CodeRun(lines, rules)
  }

  /** The call doComment or doCode makes for that run. */
  function RunCall(lines: seq<string>, counter: nat, rules: RegExpSet, fileName: string): Call
    requires lines != [] && !HeadingMatches(rules.heading, lines[0])
  {
    var n := RunLength(lines, rules);
    if Matches(rules.comment, lines[0])
    then Call.AddComment(RunText(lines[..n]), fileName, counter + n, counter + 2 * n)
    else Call.AddCode(RunText(lines[..n]), fileName, counter + n, counter + 2 * n)
  }

  /** After run call `c`, `lines = lines[lineCounter:]` with the new
      counter: a panic when it is past the end, the walk over what is left
      otherwise. */
  function Reslice(lines: seq<string>, c: Call, lineCounter: nat, rules: RegExpSet, fileName: string): Scan
    requires lineCounter >= 1
    decreases |lines|, 0
  {
    if lineCounter > |lines| then Scan([c], false, lineCounter)
    else Prepend([c], LegacyScan(lines[lineCounter..], lineCounter, rules, fileName))
  }

  /** The calls for one file: none when it cannot be read, otherwise the
      calls of its walk. */
  function LegacyFileCalls(name: string, data: Option<string>, rules: RegExpSet): Trace {
    match data
    case None => Trace([], true)
    case Some(d) =>
      var s := LegacyScan(Lines(d, rules), 0, rules, name);
      Trace(s.calls, s.completed)
  }

  /** The calls the legacy FormatBuffer makes after Reset. */
  function LegacyFormatCalls(files: seq<string>, fs: string -> Option<string>, rules: RegExpSet): Trace
    decreases |files|
  {
    if files == [] then Trace([], true)
    else Then(LegacyFileCalls(files[0], fs(files[0]), rules), LegacyFormatCalls(files[1..], fs, rules))
  }

  /** One step of LegacyScan at a line of each kind. */
  lemma LegacyHeadingStep(lines: seq<string>, counter: nat, rules: RegExpSet, fileName: string)
    requires lines != [] && HeadingMatches(rules.heading, lines[0])
    ensures HeadingCall(rules.heading, lines[0], fileName, counter).None? ==>
      LegacyScan(lines, counter, rules, fileName) == Scan([], false, counter)
    ensures HeadingCall(rules.heading, lines[0], fileName, counter).Some? ==>
      LegacyScan(lines, counter, rules, fileName) ==
      Prepend([HeadingCall(rules.heading, lines[0], fileName, counter).value], LegacyScan(lines[1..], counter + 1, rules, fileName))
  {
  }

  lemma LegacyRunUnfold(lines: seq<string>, counter: nat, rules: RegExpSet, fileName: string)
    requires lines != [] && !HeadingMatches(rules.heading, lines[0])
    ensures LegacyScan(lines, counter, rules, fileName) ==
      Reslice(lines, RunCall(lines, counter, rules, fileName), counter + RunLength(lines, rules), rules, fileName)
  {
  }

  lemma ResliceMeaning(lines: seq<string>, c: Call, lineCounter: nat, rules: RegExpSet, fileName: string)
    requires lineCounter >= 1
    ensures lineCounter > |lines| ==> Reslice(lines, c, lineCounter, rules, fileName) == Scan([c], false, lineCounter)
    ensures lineCounter <= |lines| ==>
      Reslice(lines, c, lineCounter, rules, fileName) == Prepend([c], LegacyScan(lines[lineCounter..], lineCounter, rules, fileName))
  {
  }

  /** One comment or code run: doComment when the first line is a comment,
      doCode otherwise. */
  method DoRun(out: File, rules: RegExpSet, rest: seq<string>, fileName: string, lineCounter: nat)
    returns (n: nat)
    requires rest != [] && !HeadingMatches(rules.heading, rest[0])
    modifies out
    ensures n == RunLength(rest, rules)
    ensures out.calls == old(out.calls) + [RunCall(rest, lineCounter, rules, fileName)]
  {
    if Matches(rules.comment, rest[0]) {
      n := DoComment(out, rules, rest, fileName, lineCounter);
    } else {
      n := DoCode(out, rules, rest, fileName, lineCounter);
    }
  }

  /** The legacy walk over the lines of one file: it makes the calls of
      LegacyScan and panics where LegacyScan stops. */
  method LegacyWalk(out: File, rules: RegExpSet, lines: seq<string>, fileName: string)
    returns (outcome: Outcome)
    modifies out
    ensures out.calls == old(out.calls) + LegacyScan(lines, 0, rules, fileName).calls
    ensures outcome == Completed <==> LegacyScan(lines, 0, rules, fileName).completed
  {
    var rest := lines;
    var lineCounter := 0;
    ghost var emitted: seq<Call> := [];
    ghost var whole := LegacyScan(lines, 0, rules, fileName);
    ghost var left := whole;
    while |rest| > 0
      invariant lineCounter >= 0
      invariant left == LegacyScan(rest, lineCounter, rules, fileName)
      invariant whole == Prepend(emitted, left)
      invariant out.calls == old(out.calls) + emitted
      decreases |rest|
    {
      var line := rest[0];
      if HeadingMatches(rules.heading, line) {
        LegacyHeadingStep(rest, lineCounter, rules, fileName);
        var o := DoHeading(out, rules, line, fileName, lineCounter);
        if o == Panicked {
          assert whole.calls == emitted + [];
          return Panicked;
        }
        ghost var c := HeadingCall(rules.heading, line, fileName, lineCounter).value;
        ghost var next := LegacyScan(rest[1..], lineCounter + 1, rules, fileName);
        Advance(whole, emitted, left, c, next);
        emitted, left := emitted + [c], next;
        rest := rest[1..];
        lineCounter := lineCounter + 1;
      } else {
        LegacyRunUnfold(rest, lineCounter, rules, fileName);
        var n := DoRun(out, rules, rest, fileName, lineCounter);
        ghost var c := RunCall(rest, lineCounter, rules, fileName);
        ResliceMeaning(rest, c, lineCounter + n, rules, fileName);
        lineCounter := lineCounter + n;
        if lineCounter > |rest| {
          CallsAppend(old(out.calls), emitted, [c]);
          return Panicked;
        }
        ghost var next := LegacyScan(rest[lineCounter..], lineCounter, rules, fileName);
        Advance(whole, emitted, left, c, next);
        emitted, left := emitted + [c], next;
        rest := rest[lineCounter..];
      }
    }
    outcome := Completed;
  }

  /** The body of the legacy loop for one file. */
  method LegacyFormatFile(out: File, rules: RegExpSet, fs: string -> Option<string>, file: string) returns (outcome: Outcome)
    modifies out
    ensures out.calls == old(out.calls) + LegacyFileCalls(file, fs(file), rules).calls
    ensures outcome == Completed <==> LegacyFileCalls(file, fs(file), rules).completed
  {
    var read := fs(file);
    if read.None? {
      assert old(out.calls) + [] == old(out.calls);
      return Completed;
    }
    var content := read.value;
    if rules.remove.source != "" {
      content := rules.remove.strip(content);
    }
    var lines := Split(content);
    assert lines == Lines(read.value, rules);
    outcome := LegacyWalk(out, rules, lines, file);
  }

  class Pbook {
    const files: seq<string>
    const regExpSet: RegExpSet
    const outFile: File

    /** NewPbook. */
    constructor (files: seq<string>, outFile: File, regExpSet: RegExpSet)
      ensures this.files == files && this.outFile == outFile && this.regExpSet == regExpSet
    {
      this.files := files;
      this.regExpSet := regExpSet;
      this.outFile := outFile;
    }

    /** The legacy FormatBuffer: Reset once, then the calls
        LegacyFormatCalls describes; it completes unless a heading or a
        slice panics. */
    method FormatBuffer(fs: string -> Option<string>) returns (outcome: Outcome)
      modifies outFile
      ensures outFile.calls == old(outFile.calls) + [Call.Reset] + LegacyFormatCalls(files, fs, regExpSet).calls
      ensures outcome == Completed <==> LegacyFormatCalls(files, fs, regExpSet).completed
    {
      outFile.Reset();
      ghost var start := old(outFile.calls) + [Call.Reset];
      ghost var whole := LegacyFormatCalls(files, fs, regExpSet);
      ghost var emitted: seq<Call> := [];
      ghost var left := whole;
      var i := 0;
      while i < |files|
        invariant 0 <= i <= |files|
        invariant left == LegacyFormatCalls(files[i..], fs, regExpSet)
        invariant whole == Trace(emitted + left.calls, left.completed)
        invariant outFile.calls == start + emitted
      {
        var file := files[i];
        ghost var added := LegacyFileCalls(file, fs(file), regExpSet);
        ghost var next := LegacyFormatCalls(files[i + 1..], fs, regExpSet);
        assert files[i..][1..] == files[i + 1..];
        TraceAdvance(whole, emitted, left, added, next);
        var o := LegacyFormatFile(outFile, regExpSet, fs, file);
        CallsAppend(start, emitted, added.calls);
        if o == Panicked {
          return Panicked;
        }
        emitted, left := emitted + added.calls, next;
        i := i + 1;
      }
      outcome := Completed;
    }
  }

  // ---------------------------------------------------------------------------
  // What the legacy walk does

  /** Every call reports part of a file's text. */
  predicate OnlyRuns(calls: seq<Call>) {
    forall i :: 0 <= i < |calls| ==> calls[i].IsRun()
  }

  /** The legacy walk makes run calls only: Beginning and Ending are never
      called, and Reset only by FormatBuffer itself. */
  lemma {:induction false} LegacyOnlyRuns(lines: seq<string>, counter: nat, rules: RegExpSet, fileName: string)
    ensures OnlyRuns(LegacyScan(lines, counter, rules, fileName).calls)
    decreases |lines|
  {
    if lines != [] {
      if HeadingMatches(rules.heading, lines[0]) {
        LegacyHeadingStep(lines, counter, rules, fileName);
        LegacyOnlyRuns(lines[1..], counter + 1, rules, fileName);
      } else {
        LegacyRunUnfold(lines, counter, rules, fileName);
        var next := counter + RunLength(lines, rules);
        ResliceMeaning(lines, RunCall(lines, counter, rules, fileName), next, rules, fileName);
        if next <= |lines| {
          LegacyOnlyRuns(lines[next..], next, rules, fileName);
        }
      }
    }
  }

  lemma {:induction false} LegacyFormatOnlyRuns(files: seq<string>, fs: string -> Option<string>, rules: RegExpSet)
    ensures OnlyRuns(LegacyFormatCalls(files, fs, rules).calls)
    decreases |files|
  {
    if files != [] {
      LegacyFormatOnlyRuns(files[1..], fs, rules);
      var head := LegacyFileCalls(files[0], fs(files[0]), rules);
      if fs(files[0]).Some? {
        LegacyOnlyRuns(Lines(fs(files[0]).value, rules), 0, rules, files[0]);
        assert head.calls == LegacyScan(Lines(fs(files[0]).value, rules), 0, rules, files[0]).calls;
      }
      var rest := LegacyFormatCalls(files[1..], fs, rules);
      var t := LegacyFormatCalls(files, fs, rules);
      assert OnlyRuns(head.calls);
      if head.completed {
        assert t.calls == head.calls + rest.calls;
        forall i | 0 <= i < |t.calls| ensures t.calls[i].IsRun() {
          if i >= |head.calls| {
            assert t.calls[i] == rest.calls[i - |head.calls|];
          } else {
            assert t.calls[i] == head.calls[i];
          }
        }
      }
    }
  }

  /** A blank line that is neither a heading nor a comment starts a code
      run: the legacy walk skips no blank line, where pkg/book.go makes no
      call for it. */
  lemma BlankLineIsCode(rules: RegExpSet, fileName: string)
    requires !HeadingMatches(rules.heading, "") && !Matches(rules.comment, "")
    ensures LegacyScan([""], 0, rules, fileName) == Scan([Call.AddCode("\n", fileName, 1, 2)], true, 1)
    ensures ScanLines([""], 0, rules, fileName) == Scan([], true, 1)
  {
    var lines := [""];
    assert lines[1..] == [];
    assert !EndsCode(rules, lines[0]);
    assert CodeRun(lines, rules) == 1;
    assert lines[..1] == lines;
    LegacyRunUnfold(lines, 0, rules, fileName);
    assert RunCall(lines, 0, rules, fileName) == Call.AddCode("\n", fileName, 1, 2);
    ResliceMeaning(lines, Call.AddCode("\n", fileName, 1, 2), 1, rules, fileName);
    assert LegacyScan(lines[1..], 1, rules, fileName) == Scan([], true, 1);
    assert ScanLines(lines, 0, rules, fileName) == ScanStep(lines, 0, rules, fileName);
  }

  /** A comment or code run at line counter `counter`: the legacy walk goes
      on `counter` lines after the end of the run, or panics when there are
      not that many.  Only at counter 0 does it go on where the run ends,
      which is where the walk of pkg/book.go always goes on (ScanCommentStep,
      ScanCodeStep). */
  lemma LegacyRunStep(lines: seq<string>, counter: nat, rules: RegExpSet, fileName: string)
    requires lines != [] && !HeadingMatches(rules.heading, lines[0])
    ensures var n := RunLength(lines, rules);
      var c := RunCall(lines, counter, rules, fileName);
      var r := LegacyScan(lines, counter, rules, fileName);
      (counter + n <= |lines| ==> r == Prepend([c], LegacyScan(lines[n + counter..], counter + n, rules, fileName))) &&
      (counter + n > |lines| ==> r == Scan([c], false, counter + n))
  {
    LegacyRunUnfold(lines, counter, rules, fileName);
    ResliceMeaning(lines, RunCall(lines, counter, rules, fileName), counter + RunLength(lines, rules), rules, fileName);
  }

  /** At line counter 0 the two walks agree on a run: the same call, and
      both go on after the run's lines with the counter at its length. */
  lemma FirstRunAgrees(lines: seq<string>, rules: RegExpSet, fileName: string)
    requires lines != [] && !IsBlank(lines[0]) && !HeadingMatches(rules.heading, lines[0])
    ensures var n := RunLength(lines, rules);
      var c := RunCall(lines, 0, rules, fileName);
      LegacyScan(lines, 0, rules, fileName) == Prepend([c], LegacyScan(lines[n..], n, rules, fileName)) &&
      ScanLines(lines, 0, rules, fileName) == Prepend([c], ScanLines(lines[n..], n, rules, fileName))
  {
    LegacyRunStep(lines, 0, rules, fileName);
    if Matches(rules.comment, lines[0]) {
      ScanCommentStep(lines, 0, rules, fileName);
    } else {
      ScanCodeStep(lines, 0, rules, fileName);
    }
  }

  /** A heading, a one-line comment and two lines of code: the legacy walk
      reports the comment, then drops the first code line because its
      counter is 2 when it re-slices the two lines left after the comment,
      reports the second code line alone and panics slicing three lines
      out of one. */
  lemma LegacyDropsAndPanics(rules: RegExpSet, fileName: string, h: Call)
    requires HeadingCall(rules.heading, "/** A", fileName, 0) == Some(h)
    requires !HeadingMatches(rules.heading, "// c") && Matches(rules.comment, "// c")
    requires !HeadingMatches(rules.heading, "x") && !Matches(rules.comment, "x")
    requires !HeadingMatches(rules.heading, "y") && !Matches(rules.comment, "y")
    ensures LegacyScan(["/** A", "// c", "x", "y"], 0, rules, fileName) ==
      Scan([h, Call.AddComment("// c\n", fileName, 2, 3), Call.AddCode("y\n", fileName, 3, 4)], false, 3)
  {
    var lines := ["/** A", "// c", "x", "y"];
    var l1 := lines[1..];
    var y := l1[2..];
    assert l1 == ["// c", "x", "y"] && l1[1..] == ["x", "y"] && y == ["y"] && y[1..] == [];
    assert HeadingMatches(rules.heading, lines[0]);
    assert CommentRun(l1[1..], rules.comment) == 0;
    assert CommentRun(l1, rules.comment) == 1;
    assert l1[..1] == ["// c"];
    assert !EndsCode(rules, "y");
    assert CodeRun(y, rules) == 1;
    assert y[..1] == y;
    assert RunText(y) == "y\n" by { assert RunText(y[1..]) == ""; }
    assert RunText(l1[..1]) == "// c\n" by { assert l1[..1][1..] == []; }
    LegacyHeadingStep(lines, 0, rules, fileName);
    LegacyRunStep(l1, 1, rules, fileName);
    LegacyRunStep(y, 2, rules, fileName);
  }

  /** The same lines in pkg/book.go: both code lines are reported and the
      walk completes. */
  lemma BookKeepsBoth(rules: RegExpSet, fileName: string, h: Call)
    requires HeadingCall(rules.heading, "/** A", fileName, 0) == Some(h)
    requires !HeadingMatches(rules.heading, "// c") && Matches(rules.comment, "// c")
    requires !HeadingMatches(rules.heading, "x") && !Matches(rules.comment, "x")
    requires !HeadingMatches(rules.heading, "y") && !Matches(rules.comment, "y")
    ensures ScanLines(["/** A", "// c", "x", "y"], 0, rules, fileName) ==
      Scan([h, Call.AddComment("// c\n", fileName, 2, 3), Call.AddCode("x\ny\n", fileName, 4, 6)], true, 4)
  {
    var lines := ["/** A", "// c", "x", "y"];
    var l1 := lines[1..];
    var xy := l1[1..];
    assert l1 == ["// c", "x", "y"] && xy == ["x", "y"] && xy[1..] == ["y"] && xy[1..][1..] == [] && xy[2..] == [];
    assert !IsBlank(lines[0]) by { assert !IsSpace(lines[0][0]); }
    assert !IsBlank(l1[0]) by { assert !IsSpace(l1[0][0]); }
    assert !IsBlank(xy[0]) by { assert !IsSpace(xy[0][0]); }
    assert HeadingMatches(rules.heading, lines[0]);
    assert !EndsCode(rules, "x") && !EndsCode(rules, "y");
    assert CommentRun(xy, rules.comment) == 0;
    assert CommentRun(l1, rules.comment) == 1;
    assert l1[..1] == ["// c"];
    assert CodeRun(xy[1..], rules) == 1;
    assert CodeRun(xy, rules) == 2;
    assert xy[..2] == xy;
    assert RunText(xy) == "x\ny\n" by { assert RunText(xy[1..][1..]) == ""; }
    assert RunText(l1[..1]) == "// c\n" by { assert l1[..1][1..] == []; }
    ScanHeadingStep(lines, 0, rules, fileName);
    ScanCommentStep(l1, 1, rules, fileName);
    ScanCodeStep(xy, 2, rules, fileName);
  }
}
