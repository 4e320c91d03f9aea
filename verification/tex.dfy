/** The typeset renderer of pkg/tex.go.  A TexFile embeds the plain-text
    renderer's Title, Author and Buffer (so Reset and Add are the promoted
    methods of pkg/txt.go) and adds the document style, the table-of-contents
    switch and the two lists of sectioning commands.  Every method appends
    to the buffer; the text it appends is given by a function of this
    module, and the properties of those functions are proved here. */
module Tex {
  import opened GoStrings
  import opened TexEscape

  // ---------------------------------------------------------------------------
  // min and SectioningCommand

  /** min(level, i).  It picks the smaller of the two and so does not clamp
      into an index range: the result is a valid index below `i` exactly when
      `level` already was one. */
  function Min(level: int, i: int): (r: int)
    ensures r <= level && r <= i && (r == level || r == i)
    ensures 0 <= r < i <==> 0 <= level < i
  {
    if level < i then level else i
  }

  const BookCommands: seq<string> := ["chapter", "section", "subsection", "subsubsection"]
  const ArticleCommands: seq<string> := ["section", "subsection", "subsubsection"]

  /** The levels SectioningCommand can look up without indexing out of its
      style's list. */
  predicate LevelInRange(style: string, book: seq<string>, article: seq<string>, level: int) {
    (style == "article" ==> 0 <= level < |article|) &&
    (style == "book" ==> 0 <= level < |book|)
  }

  /** SectioningCommand: the style's list indexed at min(level, len(list));
      "" for a style that is neither "article" nor "book".  Outside
      LevelInRange the source indexes out of range. */
  function SectioningCommand(style: string, book: seq<string>, article: seq<string>, level: int): (cmd: string)
    requires LevelInRange(style, book, article, level)
    ensures style == "article" ==> cmd == article[level]
    ensures style == "book" ==> cmd == book[level]
    ensures style != "article" && style != "book" ==> cmd == ""
  {
    if style == "article" then article[Min(level, |article|)]
    else if style == "book" then book[Min(level, |book|)]
    else ""
  }

  /** The guard does not help: the level one past the last command, and any
      negative level, is out of range for both styles. */
  lemma SectioningGuardNoClamp(level: int)
    ensures LevelInRange("article", BookCommands, ArticleCommands, level) <==> 0 <= level < 3
    ensures LevelInRange("book", BookCommands, ArticleCommands, level) <==> 0 <= level < 4
    ensures !(0 <= Min(3, |ArticleCommands|) < |ArticleCommands|)
    ensures !(0 <= Min(4, |BookCommands|) < |BookCommands|)
  {
  }

  // ---------------------------------------------------------------------------
  // The preamble and the end of the document

  /** The first four lines of the preamble: the document class with the
      style as given, the packages, the gray colour and the escaped title. */
  function TitleBlock(style: string, title: string): string {
    DocumentClassLine(style) + TitleLines(title)
  }

  function DocumentClassLine(style: string): string {
    "\\documentclass[notitlepage,a4paper]{" + style + "}\n"
  }

  /** The packages, the gray colour and the escaped title. */
  function TitleLines(title: string): string {
    "\\usepackage{fancyvrb,color,palatino}\n"
    + "\\definecolor{gray}{gray}{0.6}\n\\title{" + EscapeString(title) + "}\n"
  }

  lemma DocumentClassFirst(style: string, title: string)
    ensures DocumentClassLine(style) <= TitleBlock(style, title)
  {
    var line := DocumentClassLine(style);
    assert TitleBlock(style, title)[..|line|] == line;
  }

  const AuthorCommand: string := "\\author{"
  const BeginDocument: string := "\n\\begin{document}\n"
  const MakeTitle: string := "\\maketitle\n"
  const TocCommand: string := "\\tableofcontents\n"
  const EndDocument: string := "\\end{document}\n"

  function AuthorLine(author: string): string {
    if author != "" then AuthorCommand + author + "}\n" else ""
  }

  function TocLine(toc: bool): string {
    if toc then TocCommand else ""
  }

  /** The preamble text without its leading newline.  The author line is
      there exactly when the author is not empty, the table of contents
      exactly when it is asked for. */
  function PreambleBody(style: string, title: string, author: string, toc: bool): (r: string)
    ensures DocumentClassLine(style) <= r
    ensures TitleBlock(style, title) <= r
    ensures author != "" <==> AuthorCommand <= r[|TitleBlock(style, title)|..]
    ensures author != "" ==> AuthorCommand + author + "}\n" <= r[|TitleBlock(style, title)|..]
    ensures toc <==> HasSuffix(r, MakeTitle + TocCommand)
    ensures !toc ==> HasSuffix(r, MakeTitle)
  {
    var head := TitleBlock(style, title);
    PreambleShape(head, author, toc);
    DocumentClassFirst(style, title);
    head + AuthorLine(author) + BeginDocument + MakeTitle + TocLine(toc)
  }

  lemma PreambleShape(head: string, author: string, toc: bool)
    ensures var r := head + AuthorLine(author) + BeginDocument + MakeTitle + TocLine(toc);
      head <= r &&
      (author != "" <==> AuthorCommand <= r[|head|..]) &&
      (author != "" ==> AuthorCommand + author + "}\n" <= r[|head|..]) &&
      (toc <==> HasSuffix(r, MakeTitle + TocCommand)) &&
      (!toc ==> HasSuffix(r, MakeTitle))
  {
    var tail := BeginDocument + MakeTitle + TocLine(toc);
    var r := head + AuthorLine(author) + BeginDocument + MakeTitle + TocLine(toc);
    Regroup(head, AuthorLine(author), BeginDocument, MakeTitle, TocLine(toc));
    assert r[|head|..] == AuthorLine(author) + tail;
    PreambleAuthor(author, tail);
    PreambleToc(head + AuthorLine(author) + BeginDocument, toc);
  }

  lemma Regroup(a: string, b: string, c: string, d: string, e: string)
    ensures a + b + c + d + e == a + (b + (c + d + e))
  {
  }

  lemma PreambleAuthor(author: string, tail: string)
    requires tail != [] && tail[0] == '\n'
    ensures author != "" <==> AuthorCommand <= AuthorLine(author) + tail
    ensures author != "" ==> AuthorCommand + author + "}\n" <= AuthorLine(author) + tail
  {
    assert author == "" ==> AuthorLine(author) + tail == tail;
    assert AuthorCommand[0] == '\\';
  }

  lemma PreambleToc(x: string, toc: bool)
    ensures toc <==> HasSuffix(x + MakeTitle + TocLine(toc), MakeTitle + TocCommand)
    ensures !toc ==> HasSuffix(x + MakeTitle + TocLine(toc), MakeTitle)
  {
    var r := x + MakeTitle + TocLine(toc);
    if toc {
      assert r == x + (MakeTitle + TocCommand);
    } else {
      assert r == x + MakeTitle;
      assert r[|r| - 2] == 'e';
    }
  }

  // ---------------------------------------------------------------------------
  // Headings

  /** What AddHeading writes for a command and a heading: each `\s+` run
      becomes one space, the result is escaped and wrapped in the command. */
  function HeadingMarkup(cmd: string, heading: string): string {
    "\\" + cmd + "{" + EscapeString(CollapseSpace(heading)) + "}\n"
  }

  /** A heading is written on one line: every `\s` run, newlines included,
      becomes a space before escaping, so the only newline is the final one. */
  lemma HeadingMarkupOneLine(cmd: string, heading: string)
    requires '\n' !in cmd
    ensures var r := HeadingMarkup(cmd, heading);
      r[|r| - 1] == '\n' && forall i :: 0 <= i < |r| - 1 ==> r[i] != '\n'
  {
    var c := CollapseSpace(heading);
    assert forall i :: 0 <= i < |c| ==> c[i] != '\n';
    EscapeStringAvoids(c, '\n');
    var e := EscapeString(c);
    var r := HeadingMarkup(cmd, heading);
    assert r == "\\" + cmd + "{" + e + "}\n";
    forall i | 0 <= i < |r| - 1 ensures r[i] != '\n' {
      if 1 <= i < 1 + |cmd| { assert r[i] == cmd[i - 1]; }
      else if 2 + |cmd| <= i < 2 + |cmd| + |e| { assert r[i] == e[i - 2 - |cmd|]; }
    }
  }

  // ---------------------------------------------------------------------------
  // Comments: the `...' and "..." spans

  /** The replacement templates of AddComment.  Go expands `$1` in a
      template, not `\1`, so both are emitted as written. */
  const TtTemplate: string := "{\\\\tt \\1}"
  const QuoteTemplate: string := "``\\1''"

  /** Index of the first character of `s` in `stops`, or |s|. */
  function StopIndex(s: string, stops: set<char>): (n: nat)
    ensures n <= |s|
    ensures forall j :: 0 <= j < n ==> s[j] !in stops
    ensures n < |s| ==> s[n] in stops
  {
    if s == [] || s[0] in stops then 0 else 1 + StopIndex(s[1..], stops)
  }

  /** ReplaceAllString for the pattern `open([^stops]*)close` with `close` one
      of `stops`: scanning left to right, an `open` whose next stop
      character is `close` starts a span, and the span up to that `close` is
      replaced by `rep`; any other character is copied. */
  function ReplaceSpans(s: string, open: char, stops: set<char>, close: char, rep: string): string
    decreases |s|
  {
    if s == [] then []
    else if s[0] == open then
      var n := StopIndex(s[1..], stops);
      if n + 1 < |s| && s[n + 1] == close then rep + ReplaceSpans(s[n + 2..], open, stops, close, rep)
      else [s[0]] + ReplaceSpans(s[1..], open, stops, close, rep)
    else [s[0]] + ReplaceSpans(s[1..], open, stops, close, rep)
  }

  /** The `([^`']*)' substitution. */
  function CodeSpans(s: string): string {
    ReplaceSpans(s, '`', {'`', '\''}, '\'', TtTemplate)
  }

  /** The "([^"]*)" substitution. */
  function QuoteSpans(s: string): string {
    ReplaceSpans(s, '"', {'"'}, '"', QuoteTemplate)
  }

  /** What AddComment writes: the comment escaped, then both substitutions. */
  function CommentMarkup(comment: string): string {
    QuoteSpans(CodeSpans(EscapeString(comment)))
  }

  /** Text without the opening character is copied. */
  lemma {:induction false} SpansCopyPlain(a: string, b: string, open: char, stops: set<char>, close: char, rep: string)
    requires open !in a
    ensures ReplaceSpans(a + b, open, stops, close, rep) == a + ReplaceSpans(b, open, stops, close, rep)
    decreases |a|
  {
    if a != [] {
      assert a[0] in a;
      assert (a + b)[1..] == a[1..] + b;
      SpansCopyPlain(a[1..], b, open, stops, close, rep);
    } else {
      assert a + b == b;
    }
  }

  /** The first complete span is replaced by the template as a whole: the
      text it captured does not reach the output. */
  lemma SpanReplaced(a: string, mid: string, rest: string, open: char, stops: set<char>, close: char, rep: string)
    requires open !in a
    requires close in stops
    requires forall j :: 0 <= j < |mid| ==> mid[j] !in stops
    ensures ReplaceSpans(a + [open] + mid + [close] + rest, open, stops, close, rep)
         == a + rep + ReplaceSpans(rest, open, stops, close, rep)
  {
    var b := [open] + mid + [close] + rest;
    assert a + [open] + mid + [close] + rest == a + b;
    SpansCopyPlain(a, b, open, stops, close, rep);
    var n := StopIndex(b[1..], stops);
    StopIndexAt(b[1..], mid, stops);
    assert b[n + 1] == close;
    assert b[n + 2..] == rest;
  }

  lemma {:induction false} StopIndexAt(s: string, mid: string, stops: set<char>)
    requires |mid| < |s| && s[|mid|] in stops
    requires forall j :: 0 <= j < |mid| ==> mid[j] !in stops && s[j] == mid[j]
    ensures StopIndex(s, stops) == |mid|
    decreases |mid|
  {
    if mid != [] {
      StopIndexAt(s[1..], mid[1..], stops);
    }
  }

  /** An opening character with no closing one after it is kept. */
  lemma UnclosedSpanKept(mid: string, open: char, stops: set<char>, close: char, rep: string)
    requires forall j :: 0 <= j < |mid| ==> mid[j] !in stops
    ensures ReplaceSpans([open] + mid, open, stops, close, rep)
         == [open] + ReplaceSpans(mid, open, stops, close, rep)
  {
    var s := [open] + mid;
    assert s[1..] == mid;
    assert StopIndex(mid, stops) == |mid|;
  }

  /** After the quote substitution at most one double quote is left: any two
      would have formed a span. */
  lemma {:induction false} QuoteSpansLeaveOneQuote(s: string)
    ensures Count(QuoteSpans(s), '"') <= 1
    decreases |s|
  {
    var r := QuoteSpans(s);
    if s != [] {
      if s[0] == '"' {
        var n := StopIndex(s[1..], {'"'});
        if n + 1 < |s| {
          assert s[n + 1] == s[1..][n];
          QuoteSpansLeaveOneQuote(s[n + 2..]);
          CountAppend(QuoteTemplate, QuoteSpans(s[n + 2..]), '"');
          assert Count(QuoteTemplate, '"') == 0;
        } else {
          assert forall j :: 0 <= j < |s[1..]| ==> s[1..][j] != '"';
          QuoteFreeCopied(s[1..]);
          CountAppend(['"'], s[1..], '"');
          CountAbsent(s[1..], '"');
        }
      } else {
        QuoteSpansLeaveOneQuote(s[1..]);
        CountAppend([s[0]], QuoteSpans(s[1..]), '"');
      }
    }
  }

  lemma QuoteFreeCopied(s: string)
    requires forall j :: 0 <= j < |s| ==> s[j] != '"'
    ensures QuoteSpans(s) == s
  {
    assert '"' !in s;
    SpansCopyPlain(s, [], '"', {'"'}, '"', QuoteTemplate);
    assert s + [] == s;
  }

  /** A comment without backquote and without double quote is only
      escaped: neither substitution has anything to act on. */
  lemma CommentMarkupPlain(comment: string)
    requires '`' !in comment && '"' !in comment
    ensures CommentMarkup(comment) == EscapeString(comment)
  {
    var e := EscapeString(comment);
    EscapeStringAvoids(comment, '`');
    EscapeStringAvoids(comment, '"');
    SpansCopyPlain(e, [], '`', {'`', '\''}, '\'', TtTemplate);
    SpansCopyPlain(e, [], '"', {'"'}, '"', QuoteTemplate);
    assert e + [] == e;
  }

  // ---------------------------------------------------------------------------
  // Code: the Verbatim block

  const VerbatimOpen: string :=
    "\n\\begin{Verbatim}[fontsize=\\small,frame=leftline,framerule=0.9mm,rulecolor=\\color{gray},framesep=5.1mm,xleftmargin=5mm,fontfamily=cmtt]\n"
  const VerbatimClose: string := "\n\\end{Verbatim}\n"
  /** The line that would end the Verbatim environment early, and what an
      occurrence of it in the code is turned into. */
  const EndVerbatim: string := "\\end{Verbatim}"
  const GuardedEnd: string := "\\\\_end{Verbatim}"

  /** The code as AddCode writes it between the Verbatim lines: trailing
      newlines trimmed, `\end{Verbatim}` guarded, tabs expanded. */
  function VerbatimBody(code: string): string {
    ReplaceAll(ReplaceAll(TrimRight(code, {'\n'}), EndVerbatim, GuardedEnd), "\t", "   ")
  }

  /** The body holds no tab, cannot close the environment early and does
      not end with a newline. */
  lemma VerbatimBodyClean(code: string)
    ensures '\t' !in VerbatimBody(code)
    ensures !Occurs(EndVerbatim, VerbatimBody(code))
    ensures VerbatimBody(code) == [] || VerbatimBody(code)[|VerbatimBody(code)| - 1] != '\n'
  {
    var t := TrimRight(code, {'\n'});
    var g := ReplaceAll(t, EndVerbatim, GuardedEnd);
    var b := ReplaceAll(g, "\t", "   ");
    ReplaceCharRemoves(g, '\t', "   ");
    GuardRemovesEnd(t);
    TabsKeepNoEnd(g);
    if t != [] {
      ReplaceAllLast(t, EndVerbatim, GuardedEnd);
      ReplaceAllLast(g, "\t", "   ");
    }
  }

  /** No `\end{Verbatim}` survives its guarding. */
  lemma {:induction false} GuardRemovesEnd(s: string)
    ensures !Occurs(EndVerbatim, ReplaceAll(s, EndVerbatim, GuardedEnd))
    decreases |s|
  {
    if |s| >= |EndVerbatim| {
      if s[..|EndVerbatim|] == EndVerbatim {
        var t := ReplaceAll(s[|EndVerbatim|..], EndVerbatim, GuardedEnd);
        GuardRemovesEnd(s[|EndVerbatim|..]);
        NoEndAfterGuard(t);
      } else {
        var t := ReplaceAll(s[1..], EndVerbatim, GuardedEnd);
        GuardRemovesEnd(s[1..]);
        NoEndAcrossHead(s, t, GuardedEnd);
      }
    }
  }

  /** A character put in front of the rest of a replacement result starts
      no `\end{Verbatim}` unless the input already started with one. */
  lemma NoEndAcrossHead(s: string, t: string, rep: string)
    requires s != [] && (|s| >= |EndVerbatim| ==> s[..|EndVerbatim|] != EndVerbatim)
    requires rep != [] && rep[0] !in EndVerbatim[1..]
    requires t == ReplaceAll(s[1..], EndVerbatim, rep) || t == ReplaceAll(s[1..], "\t", rep)
    requires !Occurs(EndVerbatim, t)
    ensures !Occurs(EndVerbatim, [s[0]] + t)
  {
    ReplaceAllPrefix(s[1..], EndVerbatim, rep, EndVerbatim[1..]);
    ReplaceAllPrefix(s[1..], "\t", rep, EndVerbatim[1..]);
    NoOccurrenceAcrossHead(EndVerbatim, s, t);
  }

  /** The guarded form cannot start an occurrence that lies across it. */
  lemma NoEndAfterGuard(t: string)
    requires !Occurs(EndVerbatim, t)
    ensures !Occurs(EndVerbatim, GuardedEnd + t)
  {
    var w := GuardedEnd + t;
    forall i | 0 <= i < |GuardedEnd|
      ensures !StartsAt(EndVerbatim, w, i)
    {
      if i + |EndVerbatim| <= |w| {
        assert w[i..i + |EndVerbatim|][0] == w[i];
        assert w[i..i + |EndVerbatim|][1] == w[i + 1];
      }
    }
    OccursPastPrefix(EndVerbatim, GuardedEnd, t);
  }

  /** Expanding tabs into spaces creates no `\end{Verbatim}`. */
  lemma {:induction false} TabsKeepNoEnd(s: string)
    requires !Occurs(EndVerbatim, s)
    ensures !Occurs(EndVerbatim, ReplaceAll(s, "\t", "   "))
    decreases |s|
  {
    if |s| >= 1 {
      var t := ReplaceAll(s[1..], "\t", "   ");
      TabsKeepNoEnd(s[1..]);
      if s[..1] == "\t" {
        var w := "   " + t;
        forall i | 0 <= i < 3
          ensures !StartsAt(EndVerbatim, w, i)
        {
          if i + |EndVerbatim| <= |w| {
            assert w[i..i + |EndVerbatim|][0] == w[i];
          }
        }
        OccursPastPrefix(EndVerbatim, "   ", t);
      } else {
        NoEndAcrossHead(s, t, "   ");
      }
    }
  }

  // ---------------------------------------------------------------------------
  // The renderer

  class TexFile {
    var title: string
    var author: string
    var buffer: string
    var style: string
    var includeToc: bool
    var bookCommands: seq<string>
    var articleCommands: seq<string>

    /** NewTexFile: the given title, author, style and switch, the two
        default command lists and an empty buffer. */
    constructor (title: string, author: string, style: string, includeToc: bool)
      ensures this.title == title && this.author == author
      ensures this.style == style && this.includeToc == includeToc
      ensures bookCommands == BookCommands && articleCommands == ArticleCommands
      ensures buffer == ""
    {
      this.title := title;
      this.author := author;
      this.style := style;
      this.includeToc := includeToc;
      bookCommands := BookCommands;
      articleCommands := ArticleCommands;
      buffer := "";
    }

    /** Reset, promoted from the embedded TxtFile. */
    method Reset()
      modifies this`buffer
      ensures buffer == ""
    {
      buffer := "";
    }

    /** Add, promoted from the embedded TxtFile. */
    method Add(s: string)
      modifies this`buffer
      ensures buffer == old(buffer) + s
    {
      buffer := buffer + s;
    }

    method Beginning()
      modifies this`buffer
      ensures buffer == old(buffer) + "\n" + PreambleBody(style, title, author, includeToc)
    {
      var authorString := "";
      if author != "" {
        authorString := AuthorCommand + author + "}\n";
      }
      var tocString := "";
      if includeToc {
        tocString := TocCommand;
      }
      var body := TitleBlock(style, title) + authorString + BeginDocument + MakeTitle + tocString;
      assert body == PreambleBody(style, title, author, includeToc);
      buffer := buffer + "\n" + body;
    }

    method Ending()
      modifies this`buffer
      ensures buffer == old(buffer) + EndDocument
    {
      buffer := buffer + EndDocument;
    }

    method AddHeading(level: int, heading: string, fileName: string, line: int)
      requires LevelInRange(style, bookCommands, articleCommands, level)
      modifies this`buffer
      ensures buffer == old(buffer) + HeadingMarkup(SectioningCommand(style, bookCommands, articleCommands, level), heading)
    {
      var collapsed := CollapseSpace(heading);
      var sectionCmd := SectioningCommand(style, bookCommands, articleCommands, level);
      var escapedHeading := EscapeString(collapsed);
      buffer := buffer + "\\" + sectionCmd + "{" + escapedHeading + "}\n";
    }

    method AddComment(comment: string, fileName: string, startLine: int, endLine: int)
      modifies this`buffer
      ensures buffer == old(buffer) + CommentMarkup(comment)
    {
      var escapedComment := EscapeString(comment);
      var withCode := CodeSpans(escapedComment);
      buffer := buffer + QuoteSpans(withCode);
    }

    method AddCode(code: string, fileName: string, startLine: int, endLine: int)
      modifies this`buffer
      ensures buffer == old(buffer) + VerbatimOpen + VerbatimBody(code) + VerbatimClose
    {
      var c := TrimRight(code, {'\n'});
      c := ReplaceAll(c, EndVerbatim, GuardedEnd);
      c := ReplaceAll(c, "\t", "   ");
      buffer := buffer + VerbatimOpen;
      buffer := buffer + c;
      buffer := buffer + VerbatimClose;
    }
  }
}
