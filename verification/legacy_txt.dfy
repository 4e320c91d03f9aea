/** The plain-text renderer of the command package (cmd/ecrivain/txt.go).
    It writes the same text as the library's renderer, so the text of each
    method is the Txt module's function; it has no constructor, Beginning,
    Ending or Write of its own. */
module LegacyTxt {
  import opened GoStrings
  import Txt

  class TxtFile {
    var title: string
    var author: string
    var buffer: string

    method Reset()
      modifies this`buffer
      ensures buffer == ""
    {
      buffer := "";
    }

    method Add(s: string)
      modifies this`buffer
      ensures buffer == old(buffer) + s
    {
      buffer := buffer + s;
    }

    method AddHeading(level: int, heading: string, fileName: string, line: int)
      modifies this`buffer
      ensures buffer == old(buffer) + Txt.HeadingLine(heading)
    {
      var normalized := NormalizeSpace(heading);
      buffer := buffer + "++ " + normalized + "\n";
    }

    method AddComment(comment: string, fileName: string, startLine: int, endLine: int)
      modifies this`buffer
      ensures buffer == old(buffer) + comment
    {
      buffer := buffer + comment;
    }

    method AddCode(code: string, fileName: string, startLine: int, endLine: int)
      modifies this`buffer
      ensures buffer == old(buffer) + Txt.Banner(fileName, startLine) + Txt.CodeBody(code) + "\n" + Txt.Separator()
    {
      var c := TrimRight(code, Txt.CodeCutset);
      c := ReplaceAll(c, "\t", "   ");
      buffer := buffer + Txt.Banner(fileName, startLine) + c + "\n";
      buffer := buffer + Txt.Separator();
    }
  }
}
