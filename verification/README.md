# ecrivain weave core, modelled in Dafny

ecrivain turns source files into a document by "weaving" them. A `Book`
reads each file in turn. It strips what the language's removal pattern
matches and splits the text into lines. It then walks the lines and reports
three kinds of runs to an output `File`:

- a heading line, as `AddHeading`;
- a maximal block of comment lines, as `AddComment`;
- a maximal block of code lines, as `AddCode`.

Two renderers come with it:

- the typeset `TexFile`, which writes a LaTeX preamble, sectioning
  commands, escaped comments and `Verbatim` blocks;
- the plain-text `TxtFile`, which writes `++ heading` lines, the comments
  as they are, and banner-framed code blocks.

Only `TexFile` has the method set of `File` as written. `File` declares
`Beginning()` and `Ending()` with no result (pkg/book.go:13-14), but
`TxtFile` declares `Beginning() string` and `Ending() string`
(pkg/txt.go:47-53). So by its signatures `TxtFile` is not a `File`, although
cmd/ecrivain/main.go:131 assigns one to a `pkg.File` variable. The model keeps
the renderers as separate classes with the source's own signatures:
`Txt.TxtFile.Beginning` and `Ending` return "" and write nothing.

The command package keeps older copies of the engine (`Pbook`) and of both
renderers.

The model follows the source file by file:

| file | module | form |
|---|---|---|
| `pkg/book.go` | `Weave` | Methods with loops, proved against specification functions, plus `WeaveProps` for the properties of those functions. |
| `cmd/ecrivain/pbook.go` | `LegacyWeave` | The same, for the legacy walk. |
| `pkg/tex.go` | `Tex`, `TexEscape` | A class whose methods append to a buffer. The text each method appends is a function, and its properties are lemmas. |
| `pkg/txt.go` | `Txt` | The same. |
| `cmd/ecrivain/tex.go` | `LegacyTex` | A datatype with functions, since nothing in it writes a field. |
| `cmd/ecrivain/txt.go` | `LegacyTxt` | A class. |
| Go standard library | `GoStrings` | The string functions the core calls. |

The output `File` interface is `Weave.File`, a class that records the calls
it receives in a field `calls`. That lets every property of the engine be
stated as a property of the call sequence.

### Parameters and panics

- **Reading files.** `os.ReadFile` is the parameter `fs: string -> Option<string>`. `None` stands for a file that cannot be read.
- **Regular expressions.** They are abstract:
  - a `Pattern` answers whether it matches a line;
  - a `HeadingPattern` returns the full match and the first group;
  - a `RemovePattern` returns what `ReplaceAllString(text, "")` leaves.
- **The empty expression** matches every line and has no group. The model builds this in through `Matches` and `Find`, whatever the abstract function says.
- **Panics.** A run-time panic is the outcome `Panicked`. Nothing after it happens: `Weave.Then` drops the files that follow.
- **Where `doHeading` panics:**
  - `matches[1]` does not exist;
  - the full match is longer than the line.

### Behaviour of the code worth knowing

- **Line numbers.** The two numbers of a comment or code call are not the run's first and last line. `doComment` and `doCode` pass the counter *after* the run and that counter plus the run's length. So a run of n lines starting at line b is reported as `(b + n, b + 2n)`.
  - `WeaveProps.First` and `WeaveProps.Size` recover b and n.
  - `WeaveProps.ScanDescribes` proves that the lines there are the run's.
- **`Beginning` and `Ending`.** They are called around every readable file, not once per document (`WeaveProps.BeginningsAndEndings`).
- **Heading levels.** `min(level, len(list))` looks like a clamp but is not: for a level past the end of the sectioning list it indexes one past the end and panics (`Tex.SectioningGuardNoClamp`).
- **The escaping sentinel.** The sentinel `:\backslash:` is not unique: text that already spells it is rewritten to `$\backslash$` (`TexEscape.SentinelClash`). Escaping is proved to agree with its one-pass reference on text without a colon (`TexEscape.EscapeStringIsScan`). With a colon the sentinel can be confused with the text, as `SentinelClash` shows.
- **Headings inside comment runs.** A comment run does not stop at a heading line. A line that matches both patterns, coming after a comment line, becomes part of the comment (`WeaveProps.HeadingInsideComment`).
- **The legacy walk.** `cmd/ecrivain/pbook.go` re-slices `lines[lineCounter:]` with the *cumulative* counter after every comment or code run:
  - lines are skipped whenever the counter is not 0;
  - the walk panics when the counter passes the end.

  `LegacyWeave.LegacyRunStep` states this in general, and `LegacyWeave.LegacyDropsAndPanics` shows a four-line file on which it happens. `LegacyWeave.BookKeepsBoth` shows the library walk reporting both code lines of the same file.

## Model

| member | source | states |
|---|---|---|
| Weave.File.constructor | pkg/book.go:11-19 | A new output file has received no call. |
| Weave.File.Reset | pkg/book.go:12 | Records one Reset call and changes nothing else. |
| Weave.File.Beginning | pkg/book.go:13 | Records one Beginning call. |
| Weave.File.Ending | pkg/book.go:14 | Records one Ending call. |
| Weave.File.AddHeading | pkg/book.go:15 | Records the heading call with exactly its arguments. |
| Weave.File.AddCode | pkg/book.go:16 | Records the code call with exactly its arguments. |
| Weave.File.AddComment | pkg/book.go:17 | Records the comment call with exactly its arguments. |
| Weave.Book.constructor | pkg/book.go:27-33 | NewBook keeps the files, the output file and the patterns it is given. |
| Weave.Book.FormatBuffer | pkg/book.go:35-88 | The output receives one Reset first, then the calls FormatCalls lists for the files in order. The buffer completes exactly when no file panics. |
| Weave.FormatFile | pkg/book.go:38-87 | One turn of the file loop. An unreadable file makes no call. A readable one gives Beginning, the walk over the lines of its content, and Ending unless the walk panicked. |
| Weave.WalkLines | pkg/book.go:61-84 | The line loop makes exactly the calls of ScanLines. It panics exactly where ScanLines stops, and returns ScanLines' final counter. |
| Weave.LinesMeaning | pkg/book.go:45-54 | The lines are the content (the removal pattern applied to all the data, only when the pattern is non-empty) split at newlines. Joined with newlines they give that content back. No line holds a newline. There is one more line than there are newlines. |
| Weave.FileCallsShape | pkg/book.go:38-43 | An unreadable file is skipped with no call. A readable one starts with Beginning and, when it completes, ends with Ending. |
| Weave.ScanShape | pkg/book.go:61-84 | The walk over a file makes run calls only. When it completes, its counter has passed every line. When it panics, it stops at one of the lines. |
| Weave.DoHeading | pkg/book.go:90-96 | Completes exactly when the heading pattern's match has a first group and is no longer than the line. It then records HeadingCall's call. Otherwise it panics and records nothing. |
| Weave.HeadingCallMeaning | pkg/book.go:90-96 | Gives the exact condition for doHeading to panic. Otherwise: the level is len(group 1) − 1, which is ≥ 0 iff the group is non-empty. The heading is the line after as many characters as the full match has, and the full match followed by the heading is the line when the match is a prefix. |
| Weave.DoComment | pkg/book.go:98-116 | Returns the length of the comment run at the head of the lines. Records one AddComment with the run's lines, each followed by "\n", and the numbers (start + n, start + 2n). |
| Weave.CommentRun | pkg/book.go:103-112 | The comment run is at most the lines given, and at least one line when the first line is a comment. |
| Weave.CommentRunMaximal | pkg/book.go:103-112 | Every line of the comment run matches the comment pattern, and the line after it does not. |
| Weave.DoCode | pkg/book.go:118-138 | Returns the length of the code run at the head of the lines. Records one AddCode with the run's text and the numbers (start + n, start + 2n). |
| Weave.CodeRun | pkg/book.go:122-134 | The code run is at most the lines given, and at least one line when the first line ends no code run. |
| Weave.CodeRunMaximal | pkg/book.go:124-129 | No line of the code run matches a non-empty comment or heading pattern. The line after the run does. |
| Weave.RunTextAppend | pkg/book.go:108 | Adding a line to a run adds that line and "\n" to its text. |
| Weave.RunTextJoin | pkg/book.go:108 | A run's text is its lines joined by newlines, with a final newline. |
| Weave.RunTextSplit | pkg/book.go:130 | Splitting a run's text at newlines gives its lines back, followed by an empty piece. |
| Weave.DoBeginning | pkg/book.go:140-143 | Calls Beginning once and consumes no line. |
| Weave.DoEnding | pkg/book.go:145-147 | Calls Ending once. |
| Weave.ScanBlankStep | pkg/book.go:64-69 | A blank line makes no call and moves the counter on by one. |
| Weave.ScanHeadingStep | pkg/book.go:71-74 | A non-blank heading line makes its heading call and moves on by one line, or panics. |
| Weave.ScanCommentStep | pkg/book.go:75-78 | A comment line that is not a heading starts a comment run, and the walk goes on right after the run. |
| Weave.ScanCodeStep | pkg/book.go:79-83 | Any other non-blank line starts a code run, and the walk goes on right after the run. |
| Weave.Content | pkg/book.go:45-49 | The text that is split: the data with every match of the removal pattern deleted when that pattern is not empty, the data itself otherwise. Its meaning is proved in Weave.LinesMeaning. |
| Weave.Lines | pkg/book.go:45-54 | The lines: the content split at every newline. Weave.LinesMeaning proves they join back to the content, hold no newline and number one more than its newlines. |
| Weave.HeadingCall | pkg/book.go:90-96 | The heading call doHeading makes, or none where it panics. Weave.HeadingCallMeaning gives both cases exactly; Weave.DoHeading is proved against it. |
| Weave.EndsCode | pkg/book.go:124-129 | A line ends a code run when it matches a non-empty comment pattern or a non-empty heading pattern. Weave.CodeRunMaximal proves the code run stops at the first such line and at no other. |
| Weave.RunText | pkg/book.go:108 | A run's text: each line followed by a newline. Weave.RunTextAppend, Weave.RunTextJoin and Weave.RunTextSplit prove it adds one line at a time, equals the lines joined with a final newline, and splits back into the lines. |
| Weave.ScanLines | pkg/book.go:61-84 | The line loop of one file as a function: its calls, whether it completed, and the final counter. Weave.WalkLines is proved to make exactly these calls. Weave.ScanShape, WeaveProps.ScanDescribes, WeaveProps.ScanOrdered and WeaveProps.ScanCovers prove that its calls are runs reporting blocks of the file in order, covering every non-blank line when it completes. |
| Weave.ScanStep | pkg/book.go:62-83 | One turn of the loop: skip a blank line, or make the heading, comment or code call and go on after the lines it consumed. Weave.ScanBlankStep, ScanHeadingStep, ScanCommentStep and ScanCodeStep state each branch. WeaveProps.HeadDescribes proves each turn consumes exactly the block its call reports. |
| Weave.FileCalls | pkg/book.go:38-87 | The calls for one file: none when it is unreadable; otherwise Beginning, the walk's calls, and Ending unless the walk panicked. Weave.FileCallsShape and WeaveProps.FileNests prove that shape, and Weave.FormatFile is proved against it. |
| Weave.FormatCalls | pkg/book.go:35-88 | The calls after Reset, file after file, cut at the first panic. Weave.Book.FormatBuffer is proved against it. WeaveProps.UnreadableSkipped, WeaveProps.FormatNests and WeaveProps.BeginningsAndEndings prove that unreadable files add nothing, that calls nest, and that Beginning and Ending are counted per readable file. |
| Weave.FormatFront | pkg/book.go:38-87 | The calls from file i on are that file's calls followed, if it completed, by the calls of the files after it. |
| Weave.FileCallsRead | pkg/book.go:54-86 | A readable file's calls are Beginning, the walk over its lines from counter 0, and Ending exactly when the walk completes. |
| WeaveProps.ScanDescribes | pkg/book.go:61-138 | Every call of the walk reports a block of the file that its numbers locate. The block starts with a non-blank line. A heading is its one line and that line's HeadingCall. A comment run is a maximal block of comment lines. A code run is a maximal block of lines ending no code run. A run's text is its lines, each followed by "\n". |
| WeaveProps.HeadDescribes | pkg/book.go:71-83 | The loop consumes at least one line per turn: exactly the block that its call reports. |
| WeaveProps.HeadingDescribes | pkg/book.go:71-74 | The heading step's call reports its one line. |
| WeaveProps.CommentDescribes | pkg/book.go:75-78 | The comment step's call reports the maximal comment block. |
| WeaveProps.CodeDescribes | pkg/book.go:79-83 | The code step's call reports the maximal code block. |
| WeaveProps.DescribesShift | pkg/book.go:61-84 | A call that reports a block of the lines left also reports it in the whole file, at the same numbers. |
| WeaveProps.ScanOrdered | pkg/book.go:61-84 | The blocks of the calls come in file order and do not overlap. None starts before the walk's first line. |
| WeaveProps.ScanCovers | pkg/book.go:61-84 | When the walk completes, every non-blank line lies in the block of some call. Blank lines are the only ones no call reports. |
| WeaveProps.RunTextLines | pkg/book.go:108 | The text of a comment or code call splits back into exactly the lines of its block. |
| WeaveProps.EmptyHeadingPanics | pkg/book.go:71-74 | With an empty heading pattern the walk makes no call. It completes exactly when every line is blank: the first non-blank line matches the pattern and has no group. |
| WeaveProps.WellFormedCompletes | pkg/book.go:61-84 | With a heading pattern whose matches have a group and fit the line, the walk completes and passes every line. |
| WeaveProps.FormatCompletes | pkg/book.go:35-88 | With such a heading pattern no file panics. |
| WeaveProps.EmptyCommentTakesRest | pkg/book.go:75-78 | With an empty comment pattern, the first line that is neither blank nor a heading starts a comment run that takes the rest of the file. |
| WeaveProps.EmptyPatternsNeverEndCode | pkg/book.go:124-129 | An empty pattern never ends a code run: with both patterns empty, a code run takes every line it is given. |
| WeaveProps.HeadingInsideComment | pkg/book.go:103-112 | A line that matches both the comment and the heading pattern, after a comment line, is taken into the comment run: a heading does not end a comment. |
| WeaveProps.BlankLineInsideCode | pkg/book.go:122-134 | A blank line inside code does not end the code run: "x = 1;", "", "y = 2;" is one code call. |
| WeaveProps.Readable | pkg/book.go:39-43 | The readable files, in their order: each is among the files and can be read, every readable file is kept, and all are kept exactly when every file can be read. |
| WeaveProps.UnreadableSkipped | pkg/book.go:39-43 | The calls for a list of files are those for its readable files alone. |
| WeaveProps.FileNests | pkg/book.go:57-86 | A file's calls are Beginning, runs, then Ending, with Ending missing exactly when the file panicked. |
| WeaveProps.FormatNests | pkg/book.go:35-88 | Across files the calls nest: never a Reset, never a run outside a file, never two Beginnings without an Ending between them. Only a panicking last file is left open. |
| WeaveProps.RunsNest | pkg/book.go:61-84 | Run calls leave the output inside the file. |
| WeaveProps.BeginningsAndEndings | pkg/book.go:35-88 | When every file completes, there is one Beginning and one Ending per readable file. Otherwise there is one Ending fewer than Beginnings. |
| WeaveProps.FileBeginningsAndEndings | pkg/book.go:39-86 | A readable file makes one Beginning, and one Ending unless it panics. An unreadable one makes neither. |
| WeaveProps.FileLineCount | pkg/book.go:54-84 | When a file's walk completes, its counter equals the number of pieces the split made: the number of newlines in the content plus one. |
| LegacyWeave.Pbook.constructor | cmd/ecrivain/pbook.go:26-32 | NewPbook keeps the files, the output file and the patterns it is given. |
| LegacyWeave.Pbook.FormatBuffer | cmd/ecrivain/pbook.go:34-72 | The output receives one Reset first, then the calls LegacyFormatCalls lists. The buffer completes exactly when no heading and no re-slice panics. |
| LegacyWeave.LegacyFormatFile | cmd/ecrivain/pbook.go:37-70 | An unreadable file is skipped with no call. A readable one makes the calls of its legacy walk and nothing else. |
| LegacyWeave.LegacyWalk | cmd/ecrivain/pbook.go:56-70 | The legacy line loop makes exactly the calls of LegacyScan and panics exactly where LegacyScan stops. |
| LegacyWeave.DoRun | cmd/ecrivain/pbook.go:63-69 | A non-heading line starts a comment run (doComment) if it is a comment, a code run (doCode) otherwise. Exactly that run's call is recorded and its length returned. |
| LegacyWeave.RunLength | cmd/ecrivain/pbook.go:82-122 | The run a non-heading line starts takes at least that line and no more than there are. |
| LegacyWeave.LegacyHeadingStep | cmd/ecrivain/pbook.go:59-62 | A heading line makes its heading call and the walk moves on by one line, or panics. No blank line is skipped first. |
| LegacyWeave.LegacyRunStep | cmd/ecrivain/pbook.go:63-69 | After a run of n lines at counter c, the walk goes on at index c + n of the lines left. It skips c lines after the run, and panics when c + n passes the end. |
| LegacyWeave.ResliceMeaning | cmd/ecrivain/pbook.go:65 | `lines[lineCounter:]` panics past the end and otherwise drops exactly lineCounter lines. |
| LegacyWeave.FirstRunAgrees | cmd/ecrivain/pbook.go:63-69 | At counter 0 the two slicing rules agree: both walks make the same call and go on right after the run. |
| LegacyWeave.LegacyDropsAndPanics | cmd/ecrivain/pbook.go:63-69 | On a heading, a comment line and two code lines, the legacy walk drops the first code line, reports the second alone and panics. |
| LegacyWeave.BookKeepsBoth | pkg/book.go:75-83 | On the same four lines the library walk reports both code lines in one run and completes. |
| LegacyWeave.LegacyOnlyRuns | cmd/ecrivain/pbook.go:56-70 | The legacy walk makes run calls only: no Beginning and no Ending. |
| LegacyWeave.LegacyFormatOnlyRuns | cmd/ecrivain/pbook.go:37-71 | After its Reset the legacy FormatBuffer makes run calls only. |
| LegacyWeave.BlankLineIsCode | cmd/ecrivain/pbook.go:56-70 | The legacy walk reports a blank line as a one-line code run, where the library walk makes no call for it. |
| LegacyWeave.LegacyScan | cmd/ecrivain/pbook.go:56-70 | The legacy line loop as a function: a heading line gives its call and moves on by one; any other line gives a run call and re-slices by the new counter. LegacyWeave.LegacyWalk is proved to make exactly these calls. LegacyWeave.LegacyOnlyRuns, BlankLineIsCode and LegacyDropsAndPanics prove what it does differently from the library walk. |
| LegacyWeave.RunCall | cmd/ecrivain/pbook.go:63-69 | The comment or code call for the run a non-heading line starts. LegacyWeave.DoRun is proved against it, and LegacyWeave.RunLength bounds its length. |
| LegacyWeave.Reslice | cmd/ecrivain/pbook.go:65-68 | `lines = lines[lineCounter:]` after a run. LegacyWeave.ResliceMeaning proves it panics when the counter passes the end and otherwise drops exactly lineCounter lines. |
| LegacyWeave.LegacyRunUnfold | cmd/ecrivain/pbook.go:63-69 | A non-heading line makes its run call and then re-slices by the counter plus the run's length. |
| LegacyWeave.LegacyFileCalls | cmd/ecrivain/pbook.go:37-70 | The calls for one file: none when it is unreadable, otherwise the legacy walk's calls. LegacyWeave.LegacyFormatFile is proved against it. |
| LegacyWeave.LegacyFormatCalls | cmd/ecrivain/pbook.go:34-72 | The calls after Reset, file after file, cut at the first panic. LegacyWeave.Pbook.FormatBuffer is proved against it, and LegacyWeave.LegacyFormatOnlyRuns proves they are runs only. |
| Tex.Min | pkg/tex.go:82-87 | The result is the smaller argument, and is a valid index below i exactly when the level already was one. The same member stands for the identical `min` of cmd/ecrivain/tex.go:57-62, which `LegacyTex.TexFile.SectioningCommand` uses. |
| Tex.SectioningCommand | pkg/tex.go:89-96 | For "article" and "book", the command at the level in that style's list. For any other style, "". |
| Tex.SectioningGuardNoClamp | pkg/tex.go:82-96 | Only levels 0-2 (article) and 0-3 (book) are in range. min(len, len) is len, which is out of range, so the guard clamps nothing. |
| Tex.PreambleBody | pkg/tex.go:58-76 | The preamble starts with the document class line and the title block. It has the author line exactly when the author is not empty. It ends with \tableofcontents exactly when the switch is on, and with \maketitle otherwise. |
| Tex.DocumentClassFirst | pkg/tex.go:67-68 | The title block begins with the document class line. |
| Tex.PreambleShape | pkg/tex.go:58-75 | How the author line and the table of contents sit in the preamble, whatever the block before them. |
| Tex.PreambleAuthor | pkg/tex.go:59-62 | The author command is there exactly when the author is not empty, wrapping the author. |
| Tex.PreambleToc | pkg/tex.go:63-66 | The preamble ends with \maketitle and \tableofcontents exactly when the switch is on. |
| Tex.StopIndex | pkg/tex.go:108-110 | The first character of the text that is in the excluded class, or the length of the text: everything before it is outside the class. |
| Tex.SpanReplaced | pkg/tex.go:108-111 | A complete `...' or "..." span is replaced as a whole by its template, and the text before it is copied. |
| Tex.SpansCopyPlain | pkg/tex.go:108-111 | Text without the opening character is copied unchanged by either substitution. |
| Tex.UnclosedSpanKept | pkg/tex.go:108-111 | An opening character with no closing one after it is kept. |
| Tex.QuoteSpansLeaveOneQuote | pkg/tex.go:110-111 | After the quote substitution at most one double quote is left. |
| Tex.QuoteFreeCopied | pkg/tex.go:110-111 | Text without a double quote passes the quote substitution unchanged. |
| Tex.CommentMarkupPlain | pkg/tex.go:106-112 | A comment with no backquote and no double quote is written only escaped. |
| Tex.VerbatimBodyClean | pkg/tex.go:114-122 | The code written inside Verbatim holds no tab and no \end{Verbatim}, and does not end with a newline. |
| Tex.GuardRemovesEnd | pkg/tex.go:116 | No \end{Verbatim} survives its guarding. |
| Tex.TabsKeepNoEnd | pkg/tex.go:117 | Expanding tabs creates no \end{Verbatim}. |
| Tex.TitleBlock | pkg/tex.go:67-71 | The document class line with the style, the packages, the gray colour and the escaped title. Tex.DocumentClassFirst proves it starts with the document class line. |
| Tex.HeadingMarkup | pkg/tex.go:98-104 | The sectioning command wrapped around the escaped heading after each `\s` run became one space. Tex.TexFile.AddHeading appends it, and Tex.HeadingMarkupOneLine proves it is one line. |
| Tex.HeadingMarkupOneLine | pkg/tex.go:98-103 | For a command without a newline, a heading is written on a single line that ends in a newline, even when the heading spans lines. |
| Tex.ReplaceSpans | pkg/tex.go:108-111 | ReplaceAllString for an opening character, a closing one and an excluded class between them. Tex.SpanReplaced, Tex.SpansCopyPlain and Tex.UnclosedSpanKept prove that a complete span is replaced whole, that text without the opening character is copied, and that an unclosed opening is kept. |
| Tex.CodeSpans | pkg/tex.go:108-109 | The `...' substitution, as ReplaceSpans. Tex.SpansCopyPlain and Tex.SpanReplaced apply to it. |
| Tex.QuoteSpans | pkg/tex.go:110-111 | The "..." substitution. Tex.QuoteSpansLeaveOneQuote proves it leaves at most one double quote, and Tex.QuoteFreeCopied proves quote-free text passes unchanged. |
| Tex.CommentMarkup | pkg/tex.go:106-112 | The escaped comment after both substitutions. Tex.TexFile.AddComment appends it, and Tex.CommentMarkupPlain proves plain comments are only escaped. |
| Tex.VerbatimBody | pkg/tex.go:114-117 | The code with trailing newlines trimmed, \end{Verbatim} guarded and tabs expanded. Tex.VerbatimBodyClean proves it holds no tab and no \end{Verbatim} and does not end in a newline. |
| Tex.NoEndAfterGuard | pkg/tex.go:116 | The guarded form cannot start an \end{Verbatim} that runs across it. |
| Tex.NoEndAcrossHead | pkg/tex.go:116-117 | A character in front of a replacement result starts no \end{Verbatim} unless the input started with one. |
| Tex.TexFile.constructor | pkg/tex.go:48-56 | NewTexFile keeps title, author, style and switch, sets the two default command lists, and starts with an empty buffer. |
| Tex.TexFile.Reset | pkg/txt.go:23-25 | The promoted Reset empties the buffer. |
| Tex.TexFile.Add | pkg/txt.go:27-29 | The promoted Add appends its text. |
| Tex.TexFile.Beginning | pkg/tex.go:58-76 | Appends a newline and the preamble. |
| Tex.TexFile.Ending | pkg/tex.go:78-80 | Appends \end{document} and a newline. |
| Tex.TexFile.AddHeading | pkg/tex.go:98-104 | Appends the sectioning command with the heading: `\s` runs collapsed to one space, then escaped. |
| Tex.TexFile.AddComment | pkg/tex.go:106-112 | Appends the escaped comment after the `...' and "..." substitutions. |
| Tex.TexFile.AddCode | pkg/tex.go:114-122 | Appends the Verbatim opening line, the cleaned code and the closing line. |
| TexEscape.EscapeRepl | pkg/tex.go:17-19 | The replacement is a backslash followed by the match. |
| TexEscape.EscapeScan | pkg/tex.go:35-46 | The one-pass escaping rule. Its output starts with a special character exactly when its input starts with a backslash pair. |
| TexEscape.EscapeScanRoundTrip | pkg/tex.go:35-46 | The escaping rule only adds markers: unescaping its output gives the input back. |
| TexEscape.EscapeStringIsScan | pkg/tex.go:35-46 | On text without a colon, the three passes of escapeString compute the one-pass rule. |
| TexEscape.EscapeStringRoundTrip | pkg/tex.go:35-46 | On text without a colon, unescaping escapeString's output gives the input back. |
| TexEscape.EscapePlainText | pkg/tex.go:35-46 | Text with no special character, no backslash pair and no colon is unchanged. |
| TexEscape.EscapeString | pkg/tex.go:35-46 | escapeString's three passes as written. TexEscape.EscapeStringIsScan and TexEscape.EscapeStringRoundTrip prove it equals the one-pass rule and can be undone on text without a colon. TexEscape.SentinelClash proves that with a colon it can differ. |
| TexEscape.EscapeSpecials | pkg/tex.go:37-41 | The middle pass: a backslash before each special character. TexEscape.EscapeSpecialsAppend proves it works piece by piece, TexEscape.NoSpecialUnchanged that text without a special is unchanged, and TexEscape.EscapeSpecialsAvoids that it adds only backslashes. |
| TexEscape.EscapeSpecialsAppend | pkg/tex.go:37-41 | Escaping the specials of two texts joined is escaping each and joining. |
| TexEscape.NoSpecialUnchanged | pkg/tex.go:37-41 | Text without a special character passes the middle pass unchanged. |
| TexEscape.EscapeSpecialsAvoids | pkg/tex.go:37-41 | The middle pass outputs no character except a backslash that was not in its input. |
| TexEscape.EscapeStringAvoids | pkg/tex.go:35-46 | escapeString outputs no character that is not in its input, in a backslash, or in the sentinel or glyph text. |
| TexEscape.RestoreSkipsColonFree | pkg/tex.go:43 | Restoring the sentinel cannot start inside a piece without a colon. |
| TexEscape.EscapeStringPairStep | pkg/tex.go:36-43 | A leading backslash pair becomes $\backslash$, and the rest is escaped on its own. |
| TexEscape.EscapeStringCharStep | pkg/tex.go:36-43 | Any other leading character except a colon is escaped on its own: one backslash before a special character, nothing before the rest. |
| TexEscape.SentinelClash | pkg/tex.go:36-43 | Text that spells the sentinel is turned into $\backslash$, which the one-pass rule would not do. |
| TexEscape.EscapeStringRow | cmd/ecrivain/tex_test.go:40-45 | A test row written as pieces escapes piece by piece. |
| TexEscape.EscapeStringMixedRow | cmd/ecrivain/tex_test.go:13 | Row 1 of the escaping table. |
| TexEscape.EscapeStringPlainRows | cmd/ecrivain/tex_test.go:14-21 | The plain-text row and the empty row. |
| TexEscape.EscapeStringSpecialsRow | cmd/ecrivain/tex_test.go:15 | Row 3 of the table. |
| TexEscape.EscapeStringBracesRow | cmd/ecrivain/tex_test.go:16 | Row 4 of the table. |
| TexEscape.EscapeStringCommentRow | cmd/ecrivain/tex_test.go:17 | Row 5 of the table. |
| TexEscape.EscapeStringAllSpecialsRow | cmd/ecrivain/tex_test.go:22-25 | The row with all nine special characters and a pair. |
| TexEscape.EscapeStringRepeatRow | cmd/ecrivain/tex_test.go:26-29 | The repeated-specials row. |
| TexEscape.EscapeStringInterleavedRow | cmd/ecrivain/tex_test.go:30-33 | The interleaved letters-and-specials row. |
| TexEscape.EscapeStringPairsRow | cmd/ecrivain/tex_test.go:34-37 | The row of pairs between specials. |
| Txt.HeadingLine | pkg/txt.go:31-34 | The line is "++ ", the heading, "\n". Its middle has the heading's fields and non-whitespace characters, and is single-spaced. |
| Txt.CodeBodyClean | pkg/txt.go:40-42 | The written code holds no tab, does not end in a space, tab or newline, and is empty only when the trimmed code is. It differs from the trimmed code only in blanks. |
| Txt.ExpandTabsKeepsText | pkg/txt.go:42 | Tab expansion changes blanks only. |
| Txt.CodeBody | pkg/txt.go:40-42 | The code with trailing spaces, tabs and newlines trimmed and each tab replaced by three spaces. Txt.CodeBodyClean proves it holds no tab, does not end in a blank, and is empty only when the code was blank. |
| Txt.Banner | pkg/txt.go:43 | The line before a code block: base name, file name and start line. Txt.BannerOneLine proves it is a line of its own. |
| Txt.BannerOneLine | pkg/txt.go:43 | For a file name without a newline the banner opens and closes with a newline and holds no other, since the base name and the decimal start line hold none. |
| Txt.Separator | pkg/txt.go:44 | 57 '=' characters, then a blank line. |
| Txt.TxtFile.constructor | pkg/txt.go:16-21 | NewTxtFile keeps title and author, and starts with an empty buffer. |
| Txt.TxtFile.Reset | pkg/txt.go:23-25 | Empties the buffer. |
| Txt.TxtFile.Add | pkg/txt.go:27-29 | Appends its text. |
| Txt.TxtFile.AddHeading | pkg/txt.go:31-34 | Appends the heading line. |
| Txt.TxtFile.AddComment | pkg/txt.go:36-38 | Appends the comment unchanged. |
| Txt.TxtFile.AddCode | pkg/txt.go:40-45 | Appends the banner with base name, file name and start line, the cleaned code, a newline and the separator line. |
| Txt.TxtFile.Beginning | pkg/txt.go:47-49 | Returns the empty string and writes nothing. |
| Txt.TxtFile.Ending | pkg/txt.go:51-53 | Returns the empty string and writes nothing. |
| LegacyTex.NewTexFile | cmd/ecrivain/tex.go:14-23 | Keeps title, author, style and switch, sets the two default command lists and an empty buffer. |
| LegacyTex.TexFile.Beginning | cmd/ecrivain/tex.go:25-42 | Returns the library's preamble without its leading newline. It starts with the document class line and has the author line and the table of contents exactly when asked. |
| LegacyTex.TexFile.Ending | cmd/ecrivain/tex.go:44-46 | Returns \end{document} and a newline. |
| LegacyTex.TexFile.SectioningCommand | cmd/ecrivain/tex.go:48-55 | The same lookup as the library's: the command at the level for "article" and "book", "" otherwise. |
| LegacyTxt.TxtFile.Reset | cmd/ecrivain/txt.go:15-17 | Empties the buffer. |
| LegacyTxt.TxtFile.Add | cmd/ecrivain/txt.go:19-21 | Appends its text. |
| LegacyTxt.TxtFile.AddHeading | cmd/ecrivain/txt.go:23-26 | Appends the same heading line as the library renderer. |
| LegacyTxt.TxtFile.AddComment | cmd/ecrivain/txt.go:28-30 | Appends the comment unchanged. |
| LegacyTxt.TxtFile.AddCode | cmd/ecrivain/txt.go:32-37 | Appends the same banner, code and separator as the library renderer. |
| GoStrings.SplitJoin | pkg/book.go:54 | Splitting at newlines loses nothing: joining the pieces with "\n" gives the text back. No piece holds a newline, and there is one more piece than newlines. |
| GoStrings.JoinSplit | pkg/book.go:54 | Splitting newline-free pieces joined with "\n" gives the pieces back. |
| GoStrings.Split | pkg/book.go:54 | strings.Split with "\n" always returns at least one piece. |
| GoStrings.FieldsAreWords | pkg/txt.go:32 | Every field is non-empty and holds no whitespace. |
| GoStrings.FieldsWithout | pkg/txt.go:32 | The fields, concatenated, are the text without its whitespace. |
| GoStrings.FieldsOfJoin | pkg/txt.go:32 | The fields of words joined by single spaces are those words. |
| GoStrings.JoinWordsShape | pkg/txt.go:32 | Words joined by single spaces are single-spaced, with no whitespace at either end. |
| GoStrings.NormalizeSpaceMeaning | pkg/txt.go:32 | Join(Fields(s), " ") keeps every non-whitespace character in order and is single-spaced. |
| GoStrings.NormalizeSpaceIdempotent | pkg/txt.go:32 | Normalising twice is normalising once. |
| GoStrings.CollapseSpace | pkg/tex.go:99-100 | Each `\s` run becomes one space: the first character is kept (as a space if it was whitespace), no two whitespace characters are adjacent, and every other character is kept in order. |
| GoStrings.TrimRight | pkg/txt.go:41 | The result is a prefix of the input, does not end in a cutset character, and every character removed is in the cutset. |
| GoStrings.ReplaceAllAbsent | pkg/tex.go:116 | Text without the pattern is left alone. |
| GoStrings.ReplaceCharRemoves | pkg/tex.go:117 | Replacing a character by text that lacks it removes every occurrence. |
| GoStrings.ReplaceAllAvoids | pkg/tex.go:36-43 | A replacement introduces no character that neither the input nor the replacement holds. |
| GoStrings.ReplaceAllLast | pkg/tex.go:116-117 | The result ends like the input or like the replacement. |
| GoStrings.ReplaceCharLast | pkg/txt.go:42 | Replacing a character keeps a last character that differs from it. |
| GoStrings.AfterLastSlash | pkg/txt.go:43 | The result is a suffix with no '/', preceded by '/' or equal to the whole input. |
| GoStrings.Base | pkg/txt.go:43 | filepath.Base is never empty. It is "/" or holds no '/', and a path with no '/' is its own base. |
| GoStrings.Digits | pkg/txt.go:43 | %d writes decimal digits with no leading zero. |
| GoStrings.DigitsRoundTrip | pkg/txt.go:43 | The digits %d writes read back as the number. |
| GoStrings.Decimal | pkg/txt.go:43 | %d writes digits for a non-negative number and a minus sign before digits for a negative one; the digits read back as the number's magnitude. |
| GoStrings.IsBlank | pkg/book.go:65 | `len(strings.TrimSpace(line)) == 0`: the line holds whitespace only. Weave.ScanBlankStep proves such a line is skipped with no call. |
| GoStrings.Join | pkg/txt.go:32 | strings.Join. GoStrings.SplitJoin and GoStrings.JoinSplit prove it inverts splitting at newlines, and GoStrings.JoinWordsShape proves words joined by single spaces are single-spaced. |
| GoStrings.Fields | pkg/txt.go:32 | strings.Fields. GoStrings.FieldsAreWords, GoStrings.FieldsWithout and GoStrings.FieldsOfJoin prove its fields are non-empty words, keep every non-whitespace character in order, and are recovered from their join. |
| GoStrings.NormalizeSpace | pkg/txt.go:32 | strings.Join(strings.Fields(s), " "). GoStrings.NormalizeSpaceMeaning and GoStrings.NormalizeSpaceIdempotent prove it keeps every non-whitespace character in order, is single-spaced, and is idempotent. |
| GoStrings.ReplaceAll | pkg/tex.go:116-117 | strings.ReplaceAll for a non-empty pattern. GoStrings.ReplaceAllAbsent, ReplaceCharRemoves, ReplaceAllAvoids and ReplaceAllLast prove it leaves text without the pattern alone, removes a replaced character, adds only the replacement's characters, and ends like the input or the replacement. |
| GoStrings.ReplaceAllPrefix | pkg/tex.go:116 | A prefix of the result that avoids the first character of the replacement was already a prefix of the input. |

## Left out

- **I/O.** Reading files is the parameter `fs`, and the error message for an unreadable file is not printed. `Write`, `Buffer.String` and the `io.Writer` are not modelled: the renderers' buffers are fields of type `string`.
- **Invalid patterns.** `regexp.MustCompile` panicking on an invalid pattern is not modelled, and the patterns are assumed to compile. Regular-expression matching itself is abstract: the model states what the engine does with whatever a pattern answers.
- **Characters.** A `char` stands for a byte. The whitespace classes are ASCII (`unicode.IsSpace` and RE2's `\s` on single bytes), so multi-byte UTF-8 spaces are not modelled.
- **`filepath.Base`** is modelled for `/`-separated paths only, and `%d` for the start line only.
- **The command-line program.** Choosing the language by file extension, loading the configuration (`RegExpSet`, `FileExts`), choosing the renderer and writing the output are not part of this model.
- **The legacy `escapeString`.** cmd/ecrivain's own `escapeString` is not part of this model. The escaping table of cmd/ecrivain/tex_test.go is proved of the library's `escapeString`, which `LegacyTex.TexFile.Beginning` also uses.
- **`EscapeString` on text with a colon** is not related to the one-pass rule beyond `TexEscape.SentinelClash`, because the sentinel can be confused with the text.
- Tex.SectioningCommand: requires `LevelInRange`, the levels the source can index. For any other level `min` does not keep the index in range and the source panics; that panic is not modelled.
- Tex.TexFile.AddHeading: requires `LevelInRange` for the same reason. A heading level outside the style's list, including the level −1 of an empty first group, is a panic in the source that is not modelled.
- LegacyTex.TexFile.SectioningCommand: requires `LevelInRange` for the same reason.
- **Replacement templates.** `AddComment`'s two replacement templates are emitted as written, `\1` included, because Go expands `$1` and not `\1`.
- **The legacy `TexFile`'s own `Buffer` string field** is kept in the datatype. Nothing in the modelled code writes it.
- **Unused arguments.** The `fileName`, `startLine` and `endLine` arguments the TeX renderer ignores are accepted and not used. `doBeginning`'s and `doEnding`'s file and counter arguments are not used either.
