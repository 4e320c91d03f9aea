/** The segmentation engine of pkg/book.go.  A Book reads each of its files,
    removes what the language's removal pattern matches, splits the text
    into lines and walks them, reporting headings, comment runs and code
    runs to its output File.

    The output File is an interface in the source; here it is a class that
    records the calls it receives, so that what the engine does is stated
    as the sequence of calls it makes.  The regular expressions are
    abstract: the engine only asks whether a pattern matches a line, what
    the heading pattern's match and first group are, and what the removal
    pattern leaves of a text. */
module Weave {
  import opened GoStrings

  // ---------------------------------------------------------------------------
  // Regular expressions, seen through what the engine asks of them

  /** A compiled pattern and its MatchString.  The empty expression matches
      every string, whatever `accepts` says. */
  datatype Pattern = Pattern(source: string, accepts: string -> bool)

  predicate Matches(p: Pattern, line: string) {
    p.source == "" || p.accepts(line)
  }

  /** FindStringSubmatch of a match: the full match and the first group;
      `group1` is None when the expression has no group at all, so that
      indexing it fails. */
  datatype Submatch = Submatch(full: string, group1: Option<string>)

  datatype HeadingPattern = HeadingPattern(source: string, find: string -> Option<Submatch>)

  /** The empty expression matches the empty prefix of every line and has no
      group. */
  function Find(h: HeadingPattern, line: string): Option<Submatch> {
    if h.source == "" then Some(Submatch("", None)) else h.find(line)
  }

  predicate HeadingMatches(h: HeadingPattern, line: string) {
    Find(h, line).Some?
  }

  /** ReplaceAllString(text, "") of the removal pattern. */
  datatype RemovePattern = RemovePattern(source: string, strip: string -> string)

  /** The patterns of one language. */
  datatype RegExpSet = RegExpSet(comment: Pattern, heading: HeadingPattern, remove: RemovePattern)

  // ---------------------------------------------------------------------------
  // The output file

  datatype Call =
    | Reset
    | Beginning
    | Ending
    | AddHeading(level: int, heading: string, fileName: string, line: int)
    | AddComment(comment: string, fileName: string, startLine: int, endLine: int)
    | AddCode(code: string, fileName: string, startLine: int, endLine: int)
  {
    /** A call that reports part of a file's text. */
    predicate IsRun() {
      AddHeading? || AddComment? || AddCode?
    }
  }

  /** The File interface, as the record of the calls made on it. */
  class File {
    var calls: seq<Call>

    constructor ()
      ensures calls == []
    {
      calls := [];
    }

    method Reset()
      modifies this
      ensures calls == old(calls) + [Call.Reset]
    {
      calls := calls + [Call.Reset];
    }

    method Beginning()
      modifies this
      ensures calls == old(calls) + [Call.Beginning]
    {
      calls := calls + [Call.Beginning];
    }

    method Ending()
      modifies this
      ensures calls == old(calls) + [Call.Ending]
    {
      calls := calls + [Call.Ending];
    }

    method AddHeading(level: int, heading: string, fileName: string, line: int)
      modifies this
      ensures calls == old(calls) + [Call.AddHeading(level, heading, fileName, line)]
    {
      calls := calls + [Call.AddHeading(level, heading, fileName, line)];
    }

    method AddCode(code: string, fileName: string, startLine: int, endLine: int)
      modifies this
      ensures calls == old(calls) + [Call.AddCode(code, fileName, startLine, endLine)]
    {
      calls := calls + [Call.AddCode(code, fileName, startLine, endLine)];
    }

    method AddComment(comment: string, fileName: string, startLine: int, endLine: int)
      modifies this
      ensures calls == old(calls) + [Call.AddComment(comment, fileName, startLine, endLine)]
    {
      calls := calls + [Call.AddComment(comment, fileName, startLine, endLine)];
    }
  }

  /** A run either goes to its end or stops at a run-time panic. */
  datatype Outcome = Completed | Panicked

  // ---------------------------------------------------------------------------
  // What the engine does, as functions

  /** The text the engine splits: the file's data with the removal pattern
      applied to all of it, when there is one. */
  function Content(data: string, rules: RegExpSet): string {
    if rules.remove.source != "" then rules.remove.strip(data) else data
  }

  /** The lines of a file: its content split at every newline. */
  function Lines(data: string, rules: RegExpSet): seq<string> {
    Split(Content(data, rules))
  }

  /** Joining the lines with newlines gives the content back, none holds a
      newline, and there is one more line than there are newlines. */
  lemma LinesMeaning(data: string, rules: RegExpSet)
    ensures Join(Lines(data, rules), "\n") == Content(data, rules)
    ensures forall k :: 0 <= k < |Lines(data, rules)| ==> '\n' !in Lines(data, rules)[k]
    ensures |Lines(data, rules)| == Count(Content(data, rules), '\n') + 1
  {
    SplitJoin(Content(data, rules));
  }

  /** The heading call for a heading line, or None where doHeading panics. */
  function HeadingCall(h: HeadingPattern, line: string, fileName: string, lineCounter: int): Option<Call> {
    match Find(h, line)
    case None => None
    case Some(m) =>
      if m.group1.None? || |m.full| > |line| then None
      else Some(Call.AddHeading(|m.group1.value| - 1, line[|m.full|..], fileName, lineCounter))
  }

  /** doHeading panics exactly when the pattern finds no match, the match has
      no first group, or the match is longer than the line.  Otherwise the
      level is one less than the first group's length and the heading is
      the rest of the line after as many characters as the full match has:
      the text after the marker when the match starts the line. */
  lemma HeadingCallMeaning(h: HeadingPattern, line: string, fileName: string, lineCounter: int)
    ensures var r := HeadingCall(h, line, fileName, lineCounter);
      r.Some? <==> Find(h, line).Some? && Find(h, line).value.group1.Some? && |Find(h, line).value.full| <= |line|
    ensures var r := HeadingCall(h, line, fileName, lineCounter);
      r.Some? ==>
        var m := Find(h, line).value;
        r.value.AddHeading? && r.value.fileName == fileName && r.value.line == lineCounter &&
        r.value.level == |m.group1.value| - 1 &&
        (r.value.level >= 0 <==> m.group1.value != "") &&
        |m.full| + |r.value.heading| == |line| &&
        (m.full <= line ==> m.full + r.value.heading == line)
  {
    var r := HeadingCall(h, line, fileName, lineCounter);
    if r.Some? {
      var m := Find(h, line).value;
      assert line == line[..|m.full|] + r.value.heading;
    }
  }

  /** Number of leading lines that match the comment pattern. */
  function CommentRun(lines: seq<string>, comment: Pattern): (n: nat)
    ensures n <= |lines|
    ensures lines != [] && Matches(comment, lines[0]) ==> n >= 1
    decreases |lines|
  {
    if lines != [] && Matches(comment, lines[0]) then 1 + CommentRun(lines[1..], comment) else 0
  }

  /** The comment run is maximal: its lines all match the comment pattern
      and the line after it does not. */
  lemma {:induction false} CommentRunMaximal(lines: seq<string>, comment: Pattern)
    ensures forall i :: 0 <= i < CommentRun(lines, comment) ==> Matches(comment, lines[i])
    ensures CommentRun(lines, comment) < |lines| ==> !Matches(comment, lines[CommentRun(lines, comment)])
    decreases |lines|
  {
    if lines != [] && Matches(comment, lines[0]) {
      CommentRunMaximal(lines[1..], comment);
      forall i | 0 <= i < CommentRun(lines, comment) ensures Matches(comment, lines[i]) {
        if i > 0 { assert lines[i] == lines[1..][i - 1]; }
      }
    }
  }

  /** A line that ends a code run: it matches a non-empty comment pattern
      or a non-empty heading pattern. */
  predicate EndsCode(rules: RegExpSet, line: string) {
    (rules.comment.source != "" && Matches(rules.comment, line)) ||
    (rules.heading.source != "" && HeadingMatches(rules.heading, line))
  }

  /** Number of leading lines that do not end a code run. */
  function CodeRun(lines: seq<string>, rules: RegExpSet): (n: nat)
    ensures n <= |lines|
    ensures lines != [] && !EndsCode(rules, lines[0]) ==> n >= 1
    decreases |lines|
  {
    if lines != [] && !EndsCode(rules, lines[0]) then 1 + CodeRun(lines[1..], rules) else 0
  }

  /** The code run is maximal: none of its lines ends a code run and the
      line after it does. */
  lemma {:induction false} CodeRunMaximal(lines: seq<string>, rules: RegExpSet)
    ensures forall i :: 0 <= i < CodeRun(lines, rules) ==> !EndsCode(rules, lines[i])
    ensures CodeRun(lines, rules) < |lines| ==> EndsCode(rules, lines[CodeRun(lines, rules)])
    decreases |lines|
  {
    if lines != [] && !EndsCode(rules, lines[0]) {
      CodeRunMaximal(lines[1..], rules);
      forall i | 0 <= i < CodeRun(lines, rules) ensures !EndsCode(rules, lines[i]) {
        if i > 0 { assert lines[i] == lines[1..][i - 1]; }
      }
    }
  }

  /** The text of a run: every line followed by a newline. */
  function RunText(lines: seq<string>): string {
    if lines == [] then "" else lines[0] + "\n" + RunText(lines[1..])
  }

  lemma {:induction false} RunTextAppend(lines: seq<string>, line: string)
    ensures RunText(lines + [line]) == RunText(lines) + line + "\n"
    decreases |lines|
  {
    if lines != [] {
      assert (lines + [line])[1..] == lines[1..] + [line];
      RunTextAppend(lines[1..], line);
    } else {
      assert [line][1..] == [];
    }
  }

  /** The run's text is its lines joined by newlines, with a final newline. */
  lemma {:induction false} RunTextJoin(lines: seq<string>)
    ensures RunText(lines) == Join(lines + [""], "\n")
    decreases |lines|
  {
    if lines != [] {
      assert (lines + [""])[1..] == lines[1..] + [""];
      RunTextJoin(lines[1..]);
    }
  }

  /** Splitting a run's text gives its lines back, and an empty last piece. */
  lemma RunTextSplit(lines: seq<string>)
    requires forall k :: 0 <= k < |lines| ==> '\n' !in lines[k]
    ensures Split(RunText(lines)) == lines + [""]
  {
    RunTextJoin(lines);
    var ps := lines + [""];
    assert forall k :: 0 <= k < |ps| ==> '\n' !in ps[k] by {
      forall k | 0 <= k < |ps| ensures '\n' !in ps[k] {
        if k < |lines| { assert ps[k] == lines[k]; }
      }
    }
    JoinSplit(ps);
  }

  /** What is left of a file after a prefix of its lines: the calls made so
      far, whether the walk went to the end, and the line counter it ended
      with. */
  datatype Scan = Scan(calls: seq<Call>, completed: bool, lineCounter: int)

  function Prepend(calls: seq<Call>, s: Scan): Scan {
    Scan(calls + s.calls, s.completed, s.lineCounter)
  }

  /** The loop of FormatBuffer over the lines of one file, starting at line
      `counter`: blank lines are skipped, a heading line gives a heading, a
      comment line starts a comment run and any other line starts a code
      run. */
  function ScanLines(lines: seq<string>, counter: int, rules: RegExpSet, fileName: string): Scan
    decreases |lines|, 1
  {
    if lines == [] then Scan([], true, counter) else ScanStep(lines, counter, rules, fileName)
  }

  /** One turn of the loop, and the walk from the line after what it
      consumed. */
  function ScanStep(lines: seq<string>, counter: int, rules: RegExpSet, fileName: string): Scan
    requires lines != []
    decreases |lines|, 0
  {
    if IsBlank(lines[0]) then ScanLines(lines[1..], counter + 1, rules, fileName)
    else if HeadingMatches(rules.heading, lines[0]) then
      match HeadingCall(rules.heading, lines[0], fileName, counter)
      case None => Scan([], false, counter)
      case Some(c) => Prepend([c], ScanLines(lines[1..], counter + 1, rules, fileName))
    else if Matches(rules.comment, lines[0]) then
      var n := CommentRun(lines, rules.comment);
      Prepend([Call.AddComment(RunText(lines[..n]), fileName, counter + n, counter + 2 * n)],
              ScanLines(lines[n..], counter + n, rules, fileName))
    else
      var n := CodeRun(lines, rules);
      Prepend([Call.AddCode(RunText(lines[..n]), fileName, counter + n, counter + 2 * n)],
              ScanLines(lines[n..], counter + n, rules, fileName))
  }

  /** The walk over a file's lines makes run calls only; when it completes
      its counter has passed every line, and when it panics it stops at one
      of them. */
  lemma {:induction false} ScanShape(lines: seq<string>, counter: int, rules: RegExpSet, fileName: string)
    ensures var r := ScanLines(lines, counter, rules, fileName);
      (forall i :: 0 <= i < |r.calls| ==> r.calls[i].IsRun()) &&
      (r.completed ==> r.lineCounter == counter + |lines|) &&
      (!r.completed ==> counter <= r.lineCounter < counter + |lines|)
    decreases |lines|
  {
    if lines != [] {
      var n := 1;
      if !IsBlank(lines[0]) && !HeadingMatches(rules.heading, lines[0]) {
        n := if Matches(rules.comment, lines[0]) then CommentRun(lines, rules.comment) else CodeRun(lines, rules);
      }
      ScanShape(lines[n..], counter + n, rules, fileName);
    }
  }

  /** The calls made for a list of files, and whether they all completed. */
  datatype Trace = Trace(calls: seq<Call>, completed: bool)

  /** A panic ends the program: nothing after it happens. */
  function Then(t: Trace, next: Trace): Trace {
    if t.completed then Trace(t.calls + next.calls, next.completed) else t
  }

  /** The calls for one file: none when it cannot be read, otherwise
      Beginning, the calls of its lines, and Ending unless a heading
      panicked. */
  function FileCalls(name: string, data: Option<string>, rules: RegExpSet): Trace {
    match data
    case None => Trace([], true)
    case Some(d) =>
      var s := ScanLines(Lines(d, rules), 0, rules, name);
      Trace([Call.Beginning] + s.calls + (if s.completed then [Call.Ending] else []), s.completed)
  }

  /** An unreadable file makes no call; a readable one starts with
      Beginning and, unless it panicked, ends with Ending. */
  lemma FileCallsShape(name: string, data: Option<string>, rules: RegExpSet)
    ensures data.None? ==> FileCalls(name, data, rules) == Trace([], true)
    ensures data.Some? ==> FileCalls(name, data, rules).calls != [] && FileCalls(name, data, rules).calls[0] == Call.Beginning
    ensures var t := FileCalls(name, data, rules);
      data.Some? && t.completed ==> t.calls[|t.calls| - 1] == Call.Ending
  {
  }

  /** The calls FormatBuffer makes after Reset, file after file; a file
      that panics ends the program, so the files after it add nothing. */
  function FormatCalls(files: seq<string>, fs: string -> Option<string>, rules: RegExpSet): Trace
    decreases |files|
  {
    if files == [] then Trace([], true)
    else Then(FileCalls(files[0], fs(files[0]), rules), FormatCalls(files[1..], fs, rules))
  }

  // ---------------------------------------------------------------------------
  // The engine

  /** doHeading: panics unless the heading pattern has a first group and a
      match no longer than the line. */
  method DoHeading(out: File, rules: RegExpSet, line: string, fileName: string, lineCounter: int)
    returns (outcome: Outcome)
    modifies out
    ensures outcome == Completed <==> HeadingCall(rules.heading, line, fileName, lineCounter).Some?
    ensures outcome == Completed ==>
      out.calls == old(out.calls) + [HeadingCall(rules.heading, line, fileName, lineCounter).value]
    ensures outcome == Panicked ==> out.calls == old(out.calls)
  {
    var matches := Find(rules.heading, line);
    if matches.None? || matches.value.group1.None? {
      return Panicked;
    }
    var level := |matches.value.group1.value| - 1;
    if |matches.value.full| > |line| {
      return Panicked;
    }
    var heading := line[|matches.value.full|..];
    out.AddHeading(level, heading, fileName, lineCounter);
    outcome := Completed;
  }

  /** doComment: reports the comment run at the head of `lines` and returns
      its length. */
  method DoComment(out: File, rules: RegExpSet, lines: seq<string>, fileName: string, lineCounter: int)
    returns (commentLines: int)
    modifies out
    ensures commentLines == CommentRun(lines, rules.comment)
    ensures out.calls == old(out.calls) +
      [Call.AddComment(RunText(lines[..commentLines]), fileName, lineCounter + commentLines, lineCounter + 2 * commentLines)]
  {
    CommentRunMaximal(lines, rules.comment);
    var rest := lines;
    var counter := lineCounter;
    var comment := "";
    commentLines := 0;
    while |rest| > 0
      invariant 0 <= commentLines <= CommentRun(lines, rules.comment)
      invariant rest == lines[commentLines..]
      invariant counter == lineCounter + commentLines
      invariant comment == RunText(lines[..commentLines])
      invariant out.calls == old(out.calls)
      decreases |rest|
    {
      var line := rest[0];
      if !Matches(rules.comment, line) {
        break;
      }
      RunTextAppend(lines[..commentLines], line);
      assert lines[..commentLines + 1] == lines[..commentLines] + [line];
      comment := comment + line + "\n";
      rest := rest[1..];
      commentLines := commentLines + 1;
      counter := counter + 1;
    }
    out.AddComment(comment, fileName, counter, counter + commentLines);
  }

  /** doCode: reports the code run at the head of `lines` and returns its
      length. */
  method DoCode(out: File, rules: RegExpSet, lines: seq<string>, fileName: string, lineCounter: int)
    returns (codeLines: int)
    modifies out
    ensures codeLines == CodeRun(lines, rules)
    ensures out.calls == old(out.calls) +
      [Call.AddCode(RunText(lines[..codeLines]), fileName, lineCounter + codeLines, lineCounter + 2 * codeLines)]
  {
    CodeRunMaximal(lines, rules);
    var rest := lines;
    var counter := lineCounter;
    var code := "";
    codeLines := 0;
    while |rest| > 0
      invariant 0 <= codeLines <= CodeRun(lines, rules)
      invariant rest == lines[codeLines..]
      invariant counter == lineCounter + codeLines
      invariant code == RunText(lines[..codeLines])
      invariant out.calls == old(out.calls)
      decreases |rest|
    {
      var line := rest[0];
      if rules.comment.source != "" && Matches(rules.comment, line) {
        break;
      }
      if rules.heading.source != "" && HeadingMatches(rules.heading, line) {
        break;
      }
      RunTextAppend(lines[..codeLines], line);
      assert lines[..codeLines + 1] == lines[..codeLines] + [line];
      code := code + line + "\n";
      rest := rest[1..];
      codeLines := codeLines + 1;
      counter := counter + 1;
    }
    out.AddCode(code, fileName, counter, counter + codeLines);
  }

  /** doBeginning: calls Beginning and consumes no line. */
  method DoBeginning(out: File, file: string, counter: int) returns (linesProcessed: int)
    modifies out
    ensures linesProcessed == 0
    ensures out.calls == old(out.calls) + [Call.Beginning]
  {
    out.Beginning();
    linesProcessed := 0;
  }

  /** doEnding: calls Ending. */
  method DoEnding(out: File, file: string, counter: int)
    modifies out
    ensures out.calls == old(out.calls) + [Call.Ending]
  {
    out.Ending();
  }

  /** FormatCalls from file i on: that file, then the ones after it. */
  lemma FormatFront(files: seq<string>, fs: string -> Option<string>, rules: RegExpSet, i: nat)
    requires i < |files|
    ensures FormatCalls(files[i..], fs, rules) ==
      Then(FileCalls(files[i], fs(files[i]), rules), FormatCalls(files[i + 1..], fs, rules))
  {
    assert files[i..][1..] == files[i + 1..];
  }

  /** The trace so far, one file further. */
  lemma TraceAdvance(whole: Trace, emitted: seq<Call>, left: Trace, added: Trace, next: Trace)
    requires whole == Trace(emitted + left.calls, left.completed)
    requires left == Then(added, next)
    ensures added.completed ==> whole == Trace(emitted + added.calls + next.calls, next.completed)
    ensures !added.completed ==> whole == Trace(emitted + added.calls, false)
  {
    if added.completed {
      assert emitted + added.calls + next.calls == emitted + (added.calls + next.calls);
    }
  }

  /** Appending to the calls made so far. */
  lemma CallsAppend(start: seq<Call>, emitted: seq<Call>, added: seq<Call>)
    ensures start + emitted + added == start + (emitted + added)
  {
  }

  /** The walk so far, one call further. */
  lemma Advance(whole: Scan, emitted: seq<Call>, here: Scan, c: Call, next: Scan)
    requires whole == Prepend(emitted, here)
    requires here == Prepend([c], next)
    ensures whole == Prepend(emitted + [c], next)
  {
    assert emitted + [c] + next.calls == emitted + ([c] + next.calls);
  }

  /** One step of ScanLines at a line of each kind. */
  lemma ScanBlankStep(lines: seq<string>, counter: int, rules: RegExpSet, fileName: string)
    requires lines != [] && IsBlank(lines[0])
    ensures ScanLines(lines, counter, rules, fileName) == ScanLines(lines[1..], counter + 1, rules, fileName)
  {
    assert ScanLines(lines, counter, rules, fileName) == ScanStep(lines, counter, rules, fileName);
  }

  lemma ScanHeadingStep(lines: seq<string>, counter: int, rules: RegExpSet, fileName: string)
    requires lines != [] && !IsBlank(lines[0]) && HeadingMatches(rules.heading, lines[0])
    ensures HeadingCall(rules.heading, lines[0], fileName, counter).None? ==>
      ScanLines(lines, counter, rules, fileName) == Scan([], false, counter)
    ensures HeadingCall(rules.heading, lines[0], fileName, counter).Some? ==>
      ScanLines(lines, counter, rules, fileName) ==
      Prepend([HeadingCall(rules.heading, lines[0], fileName, counter).value], ScanLines(lines[1..], counter + 1, rules, fileName))
  {
    assert ScanLines(lines, counter, rules, fileName) == ScanStep(lines, counter, rules, fileName);
  }

  lemma ScanCommentStep(lines: seq<string>, counter: int, rules: RegExpSet, fileName: string)
    requires lines != [] && !IsBlank(lines[0]) && !HeadingMatches(rules.heading, lines[0])
    requires Matches(rules.comment, lines[0])
    ensures var n := CommentRun(lines, rules.comment);
      ScanLines(lines, counter, rules, fileName) ==
      Prepend([Call.AddComment(RunText(lines[..n]), fileName, counter + n, counter + 2 * n)],
              ScanLines(lines[n..], counter + n, rules, fileName))
  {
    assert ScanLines(lines, counter, rules, fileName) == ScanStep(lines, counter, rules, fileName);
  }

  lemma ScanCodeStep(lines: seq<string>, counter: int, rules: RegExpSet, fileName: string)
    requires lines != [] && !IsBlank(lines[0]) && !HeadingMatches(rules.heading, lines[0])
    requires !Matches(rules.comment, lines[0])
    ensures var n := CodeRun(lines, rules);
      ScanLines(lines, counter, rules, fileName) ==
      Prepend([Call.AddCode(RunText(lines[..n]), fileName, counter + n, counter + 2 * n)],
              ScanLines(lines[n..], counter + n, rules, fileName))
  {
    assert ScanLines(lines, counter, rules, fileName) == ScanStep(lines, counter, rules, fileName);
  }

  /** FileCalls of a readable file, in terms of the walk over its lines. */
  lemma FileCallsRead(name: string, data: string, rules: RegExpSet)
    ensures var s := ScanLines(Lines(data, rules), 0, rules, name);
      FileCalls(name, Some(data), rules) ==
      Trace([Call.Beginning] + s.calls + (if s.completed then [Call.Ending] else []), s.completed)
  {
  }

  /** The loop of FormatBuffer over the lines of one file, from line
      `lineCounter` on: it makes the calls of ScanLines, and panics where
      ScanLines stops, returning the line counter it reached. */
  method WalkLines(out: File, rules: RegExpSet, lines: seq<string>, fileName: string, lineCounter: int)
    returns (outcome: Outcome, counter: int)
    modifies out
    ensures out.calls == old(out.calls) + ScanLines(lines, lineCounter, rules, fileName).calls
    ensures outcome == Completed <==> ScanLines(lines, lineCounter, rules, fileName).completed
    ensures counter == ScanLines(lines, lineCounter, rules, fileName).lineCounter
  {
    var rest := lines;
    counter := lineCounter;
    ghost var emitted: seq<Call> := [];
    ghost var whole := ScanLines(lines, lineCounter, rules, fileName);
    ghost var left := whole;
    while |rest| > 0
      invariant left == ScanLines(rest, counter, rules, fileName)
      invariant whole == Prepend(emitted, left)
      invariant out.calls == old(out.calls) + emitted
      decreases |rest|
    {
      var line := rest[0];
      if IsBlank(line) {
        ScanBlankStep(rest, counter, rules, fileName);
        rest := rest[1..];
        counter := counter + 1;
        left := ScanLines(rest, counter, rules, fileName);
        continue;
      }

      if HeadingMatches(rules.heading, line) {
        ScanHeadingStep(rest, counter, rules, fileName);
        var o := DoHeading(out, rules, line, fileName, counter);
        if o == Panicked {
          return Panicked, counter;
        }
        ghost var c := HeadingCall(rules.heading, line, fileName, counter).value;
        ghost var next := ScanLines(rest[1..], counter + 1, rules, fileName);
        Advance(whole, emitted, left, c, next);
        emitted, left := emitted + [c], next;
        rest := rest[1..];
        counter := counter + 1;
      } else if Matches(rules.comment, line) {
        ScanCommentStep(rest, counter, rules, fileName);
        var n := DoComment(out, rules, rest, fileName, counter);
        ghost var c := Call.AddComment(RunText(rest[..n]), fileName, counter + n, counter + 2 * n);
        ghost var next := ScanLines(rest[n..], counter + n, rules, fileName);
        Advance(whole, emitted, left, c, next);
        emitted, left := emitted + [c], next;
        counter := counter + n;
        rest := rest[n..];
      } else {
        ScanCodeStep(rest, counter, rules, fileName);
        var n := DoCode(out, rules, rest, fileName, counter);
        ghost var c := Call.AddCode(RunText(rest[..n]), fileName, counter + n, counter + 2 * n);
        ghost var next := ScanLines(rest[n..], counter + n, rules, fileName);
        Advance(whole, emitted, left, c, next);
        emitted, left := emitted + [c], next;
        counter := counter + n;
        rest := rest[n..];
      }
    }
    outcome := Completed;
  }

  /** The body of FormatBuffer's loop for one file: nothing when the file
      cannot be read, otherwise Beginning, the walk over the lines of its
      content, and Ending unless the walk panicked. */
  method FormatFile(out: File, rules: RegExpSet, fs: string -> Option<string>, file: string) returns (outcome: Outcome)
    modifies out
    ensures out.calls == old(out.calls) + FileCalls(file, fs(file), rules).calls
    ensures outcome == Completed <==> FileCalls(file, fs(file), rules).completed
  {
    var read := fs(file);
    if read.None? {
      assert old(out.calls) + [] == old(out.calls);
      return Completed;
    }
    var data := read.value;
    assert read == Some(data);
    var content := data;
    if rules.remove.source != "" {
      content := rules.remove.strip(content);
    }
    var lines := Split(content);
    assert content == Content(data, rules);
    var lineCounter := 0;

    var linesProcessed := DoBeginning(out, file, lineCounter);
    lineCounter := lineCounter + linesProcessed;
    lines := lines[linesProcessed..];
    assert lines == Lines(data, rules) && lineCounter == 0;

    ghost var begun := out.calls;
    ghost var scan := ScanLines(lines, 0, rules, file);
    FileCallsRead(file, data, rules);
    outcome, lineCounter := WalkLines(out, rules, lines, file, lineCounter);
    if outcome == Panicked {
      assert old(out.calls) + [Call.Beginning] + scan.calls == old(out.calls) + ([Call.Beginning] + scan.calls + []);
      return;
    }
    DoEnding(out, file, lineCounter);
    assert old(out.calls) + [Call.Beginning] + scan.calls + [Call.Ending] == old(out.calls) + ([Call.Beginning] + scan.calls + [Call.Ending]);
  }

  class Book {
    const files: seq<string>
    const regExpSet: RegExpSet
    const outFile: File

    /** NewBook. */
    constructor (files: seq<string>, outFile: File, regExpSet: RegExpSet)
      ensures this.files == files && this.outFile == outFile && this.regExpSet == regExpSet
    {
      this.files := files;
      this.regExpSet := regExpSet;
      this.outFile := outFile;
    }

    /** FormatBuffer, with the file system as the function `fs` from a file
        name to its contents (None when it cannot be read).  It calls Reset
        once, then makes the calls FormatCalls describes, and completes
        unless a heading line panics. */
    method FormatBuffer(fs: string -> Option<string>) returns (outcome: Outcome)
      modifies outFile
      ensures outFile.calls == old(outFile.calls) + [Call.Reset] + FormatCalls(files, fs, regExpSet).calls
      ensures outcome == Completed <==> FormatCalls(files, fs, regExpSet).completed
    {
      outFile.Reset();
      ghost var start := old(outFile.calls) + [Call.Reset];
      ghost var whole := FormatCalls(files, fs, regExpSet);
      ghost var emitted: seq<Call> := [];
      ghost var left := whole;
      var i := 0;
      while i < |files|
        invariant 0 <= i <= |files|
        invariant left == FormatCalls(files[i..], fs, regExpSet)
        invariant whole == Trace(emitted + left.calls, left.completed)
        invariant outFile.calls == start + emitted
      {
        var file := files[i];
        ghost var added := FileCalls(file, fs(file), regExpSet);
        ghost var next := FormatCalls(files[i + 1..], fs, regExpSet);
        FormatFront(files, fs, regExpSet, i);
        TraceAdvance(whole, emitted, left, added, next);
        var o := FormatFile(outFile, regExpSet, fs, file);
        CallsAppend(start, emitted, added.calls);
        if o == Panicked {
          return Panicked;
        }
        emitted, left := emitted + added.calls, next;
        i := i + 1;
      }
      outcome := Completed;
    }
  }
}
