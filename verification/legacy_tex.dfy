/** The typeset renderer of the command package (cmd/ecrivain/tex.go).
    Nothing in it writes a field: NewTexFile builds a value and Beginning
    and Ending return their text instead of appending it, so the renderer is
    a datatype with functions.  The preamble is the library's without its
    leading newline. */
module LegacyTex {
  import opened GoStrings
  import Tex

  datatype TexFile = TexFile(
    title: string,
    author: string,
    style: string,
    includeToc: bool,
    bookCommands: seq<string>,
    articleCommands: seq<string>,
    buffer: string)
  {
    /** Beginning: the preamble, returned and not stored.  It starts
        directly with the document class line, and has the author line and
        the table of contents exactly when the library's preamble has them. */
    function Beginning(): (r: string)
      ensures Tex.DocumentClassLine(style) <= r
      ensures Tex.TitleBlock(style, title) <= r
      ensures author != "" <==> Tex.AuthorCommand <= r[|Tex.TitleBlock(style, title)|..]
      ensures includeToc <==> HasSuffix(r, Tex.MakeTitle + Tex.TocCommand)
    {
      Tex.PreambleBody(style, title, author, includeToc)
    }

    /** Ending: `\end{document}` and a newline. */
    function Ending(): (r: string)
      ensures r == Tex.EndDocument
    {
      "\\end{document}\n"
    }

    /** SectioningCommand: the same lookup as the library's, with the same
        range. */
    function SectioningCommand(level: int): (cmd: string)
      requires Tex.LevelInRange(style, bookCommands, articleCommands, level)
      ensures style == "article" ==> cmd == articleCommands[level]
      ensures style == "book" ==> cmd == bookCommands[level]
      ensures style != "article" && style != "book" ==> cmd == ""
    {
      Tex.SectioningCommand(style, bookCommands, articleCommands, level)
    }
  }

  /** NewTexFile: the given title, author, style and switch, the two default
      command lists and an empty buffer. */
  function NewTexFile(title: string, author: string, style: string, includeToc: bool): (tf: TexFile)
    ensures tf.title == title && tf.author == author && tf.style == style && tf.includeToc == includeToc
    ensures tf.bookCommands == ["chapter", "section", "subsection", "subsubsection"]
    ensures tf.articleCommands == ["section", "subsection", "subsubsection"]
    ensures tf.buffer == ""
  {
    TexFile(title, author, style, includeToc, Tex.BookCommands, Tex.ArticleCommands, "")
  }
}
