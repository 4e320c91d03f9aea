/** The plain-text renderer of pkg/txt.go.  A TxtFile keeps a title, an
    author and a buffer; every Add method appends to the buffer and nothing
    writes the title or the author.  The text each method appends is given
    by a function of this module whose properties are proved here. */
module Txt {
  import opened GoStrings

  // ---------------------------------------------------------------------------
  // Headings

  /** The heading line: "++ ", the heading's words joined by single spaces,
      and a newline.  Its middle has the words of the heading and nothing
      else: no leading, trailing or repeated whitespace, every
      non-whitespace character kept in order. */
  function HeadingLine(heading: string): (r: string)
    ensures |r| >= 4 && r[..3] == "++ " && r[|r| - 1] == '\n'
    ensures Fields(r[3..|r| - 1]) == Fields(heading)
    ensures Without(r[3..|r| - 1], IsSpace) == Without(heading, IsSpace)
    ensures SingleSpaced(r[3..|r| - 1])
  {
    var m := NormalizeSpace(heading);
    NormalizeSpaceMeaning(heading);
    FieldsAreWords(heading);
    FieldsOfJoin(Fields(heading));
    var r := "++ " + m + "\n";
    assert r[3..|r| - 1] == m;
    r
  }

  // ---------------------------------------------------------------------------
  // Code

  /** The characters strings.TrimRight(code, " \t\n") removes. */
  const CodeCutset: set<char> := {' ', '\t', '\n'}

  /** Spaces and tabs: what tab expansion may change. */
  predicate IsBlankChar(c: char) {
    c == ' ' || c == '\t'
  }

  /** The code as AddCode writes it: trailing spaces, tabs and newlines
      trimmed, each tab replaced by three spaces. */
  function CodeBody(code: string): string {
    ReplaceAll(TrimRight(code, CodeCutset), "\t", "   ")
  }

  /** The body holds no tab, does not end in a space, tab or newline, and
      differs from the trimmed code only in its blanks. */
  lemma CodeBodyClean(code: string)
    ensures '\t' !in CodeBody(code)
    ensures CodeBody(code) == [] || CodeBody(code)[|CodeBody(code)| - 1] !in CodeCutset
    ensures CodeBody(code) == [] <==> TrimRight(code, CodeCutset) == []
    ensures Without(CodeBody(code), IsBlankChar) == Without(TrimRight(code, CodeCutset), IsBlankChar)
  {
    var t := TrimRight(code, CodeCutset);
    ReplaceCharRemoves(t, '\t', "   ");
    if t != [] {
      ReplaceCharLast(t, '\t', "   ");
    }
    ExpandTabsKeepsText(t);
  }

  /** Tab expansion changes blanks only. */
  lemma {:induction false} ExpandTabsKeepsText(s: string)
    ensures Without(ReplaceAll(s, "\t", "   "), IsBlankChar) == Without(s, IsBlankChar)
    decreases |s|
  {
    if |s| >= 1 {
      var t := ReplaceAll(s[1..], "\t", "   ");
      ExpandTabsKeepsText(s[1..]);
      if s[..1] == "\t" {
        WithoutAppend("   ", t, IsBlankChar);
      } else {
        WithoutAppend([s[0]], t, IsBlankChar);
      }
    }
  }

  /** The line that introduces a code block: the file's base name, then the
      file name and the start line in decimal. */
  function Banner(fileName: string, startLine: int): string {
    "\n== " + Base(fileName) + " (" + fileName + ":" + Decimal(startLine) + ") ================\n"
  }

  /** For a file name without a newline the banner is a line of its own: it
      opens and closes with a newline and holds no other. */
  lemma BannerOneLine(fileName: string, startLine: int)
    requires '\n' !in fileName
    ensures var b := Banner(fileName, startLine);
      b[0] == '\n' && b[|b| - 1] == '\n' && forall i :: 0 < i < |b| - 1 ==> b[i] != '\n'
  {
    var base := Base(fileName);
    assert '\n' !in base by {
      if fileName != [] {
        var t := TrimRight(fileName, {'/'});
        if t != [] {
          var a := AfterLastSlash(t);
          assert a == t[|t| - |a|..];
          forall i | 0 <= i < |a| ensures a[i] != '\n' {
            assert a[i] == t[|t| - |a| + i] == fileName[|t| - |a| + i];
          }
        }
      }
    }
    var d := Decimal(startLine);
    assert '\n' !in d by {
      forall i | 0 <= i < |d| ensures d[i] != '\n' {
        if startLine >= 0 { assert IsDigit(d[i]); }
        else if i > 0 { assert d[i] == d[1..][i - 1]; assert IsDigit(d[1..][i - 1]); }
      }
    }
    var b := Banner(fileName, startLine);
    var p1 := "\n== " + base + " (";
    var p2 := p1 + fileName + ":";
    var p3 := p2 + d;
    assert b == p3 + ") ================\n";
    forall i | 0 < i < |b| - 1 ensures b[i] != '\n' {
      if i < 4 { }
      else if i < 4 + |base| { assert b[i] == base[i - 4]; }
      else if i < |p1| { }
      else if i < |p1| + |fileName| { assert b[i] == fileName[i - |p1|]; }
      else if i < |p2| { }
      else if i < |p3| { assert b[i] == d[i - |p2|]; }
    }
  }

  /** The separator written after every code block: a line of 57 '=' and
      a blank line. */
  function Separator(): (r: string)
    ensures |r| == 59 && r[57..] == "\n\n"
    ensures forall i :: 0 <= i < 57 ==> r[i] == '='
  {
    seq(57, _ => '=') + "\n\n"
  }

  // ---------------------------------------------------------------------------
  // The renderer

  class TxtFile {
    var title: string
    var author: string
    var buffer: string

    /** NewTxtFile: the title and the author, and an empty buffer. */
    constructor (title: string, author: string)
      ensures this.title == title && this.author == author && buffer == ""
    {
      this.title := title;
      this.author := author;
      buffer := "";
    }

    method Reset()
      modifies this`buffer
      ensures buffer == ""
    {
      buffer := "";
    }

    method Add(s: string)
      modifies this`buffer
      ensures buffer == old(buffer) + s
    {
      buffer := buffer + s;
    }

    method AddHeading(level: int, heading: string, fileName: string, line: int)
      modifies this`buffer
      ensures buffer == old(buffer) + HeadingLine(heading)
    {
      var normalized := NormalizeSpace(heading);
      buffer := buffer + "++ " + normalized + "\n";
    }

    method AddComment(comment: string, fileName: string, startLine: int, endLine: int)
      modifies this`buffer
      ensures buffer == old(buffer) + comment
    {
      buffer := buffer + comment;
    }

    method AddCode(code: string, fileName: string, startLine: int, endLine: int)
      modifies this`buffer
      ensures buffer == old(buffer) + Banner(fileName, startLine) + CodeBody(code) + "\n" + Separator()
    {
      var c := TrimRight(code, CodeCutset);
      c := ReplaceAll(c, "\t", "   ");
      buffer := buffer + Banner(fileName, startLine) + c + "\n";
      buffer := buffer + Separator();
    }

    /** Beginning writes nothing and returns the empty string. */
    function Beginning(): (r: string)
      ensures |r| == 0
    {
      ""
    }

    /** Ending writes nothing and returns the empty string. */
    function Ending(): (r: string)
      ensures |r| == 0
    {
      ""
    }
  }
}
