# Structured report formatter

A Dafny model of the report formatter of the academic-report server
(`server.js`). The formatter takes the plain text a generator produced and
turns it into a PDF document in three steps:

- `parseContent` splits the text into typed sections (title, abstract,
  introduction, main body, conclusion, references) by recognising heading
  lines.
- the `/generate-report` handler lays out a cover page, a numbered table of
  contents and one page per non-title section, each headed by the section's
  label (`main_body` becomes "Main Body").
- `addFormattedText` draws each section body. It handles paragraphs, `* `
  bullet lines, inline `**bold**` spans joined into one line with the
  `continued` option, justified text, and the vertical gaps between them.

The PDF document is modelled as a `Drawing.Sink`: a log of drawing commands
(new page, text run, vertical move) and the current font. The current font
matters because PDFKit keeps it from one call to the next, and the bullet
glyph of a bullet whose text contains `**` is drawn in whatever font is
current. Every drawing method is proved against a function that gives
the exact command sequence. The properties are then proved about those
functions.

Modules:

- `Strings`: the JavaScript string operations used, restricted to ASCII.
- `Sections`: `parseContent`.
- `Markup`: the two regular-expression splits, `/(\*\*[^*]+\*\*)/` and
  `/\n\s*\n/`, written as leftmost-match scans.
- `Drawing`: the command log and the sink.
- `Render`: `addFormattedText`.
- `Report`: section labels, title, table of contents and the assembly.

Three behaviours of `server.js` that are easy to miss, and that the model
keeps as written:

- A line that ends in a bold span leaves its bold run `continued`, because
  the split has an empty last part (`Render.BoldSpanRuns`).
- A heading with no content at the very end of the text is dropped, unless
  it is the title heading (`Sections.SectionCount`).
- Every title section is left out of the contents and the pages, not only
  the first (`Report.SectionPagesFollowToc`).

## Model

| member | source | states |
|---|---|---|
| Strings.TrimStartShape | server.js:56 | Trimming the start keeps a suffix, cuts only whitespace and leaves no leading whitespace |
| Strings.TrimEndShape | server.js:56 | Trimming the end keeps a prefix, cuts only whitespace and leaves no trailing whitespace |
| Strings.TrimIdempotent | server.js:56 | A trimmed string has no surrounding whitespace, and trimming it again changes nothing |
| Strings.ToLowerShape | server.js:62 | A lower-cased string has no upper-case letter, keeps every other character, and lower-casing it again changes nothing |
| Strings.StartsWithIgnoringCase | server.js:64-71 | The lower-cased line starts with a lower-case prefix exactly when the line's first characters equal it up to ASCII case |
| Strings.TrimKeepsCharacters | server.js:56 | Every character of a trimmed string occurs in the original |
| Strings.Split | server.js:56 | A split on one character gives at least one piece, and no piece holds the separator |
| Strings.SplitJoin | server.js:56 | Joining the pieces of a split with the separator gives back the text |
| Strings.JoinCleanLines | server.js:108 | Non-empty trimmed lines without line feeds, joined with line feeds, start and end visibly and have a visible character after every line feed |
| Strings.NatToString | server.js:319 | An entry number is printed as decimal digits without a leading zero |
| Strings.NatToStringRoundTrip | server.js:319 | Reading back the printed digits gives the number |
| Sections.NonBlank | server.js:56 | Every kept line is non-empty and already trimmed |
| Sections.NonBlankSingle | server.js:56 | One line is kept, trimmed, exactly when it is not blank |
| Sections.NonBlankAppend | server.js:56 | Filtering keeps the lines in order: the filter of two runs of lines is the two filters one after the other |
| Sections.LinesClean | server.js:56 | Every kept line is non-empty, trimmed and free of line feeds |
| Sections.ClassifyFirstMatch | server.js:64-71 | A line is a heading exactly when one of the six tests passes; its kind is the first test that passes, in the order `parseContent` tries them |
| Sections.ClassifiedAt | server.js:61-64 | Each line is paired with the outcome of the heading tests on its lower-cased text |
| Sections.StripTitleShape | server.js:81 | A line changes exactly when its first six characters are `title:` up to case; the prefix is removed together with all whitespace after it |
| Sections.ParseContent | server.js:54-113 | The loop with the open section and its lines returns exactly the sections of the splitter's specification |
| Sections.NoHeadingNoSections | server.js:58-61 | A text without heading lines has no sections |
| Sections.PreambleDropped | server.js:98-101 | Lines before the first heading are dropped |
| Sections.BodyAccumulates | server.js:98-101 | Non-heading lines after a heading go, in order, to that heading's section |
| Sections.HeadingBlock | server.js:72-110 | A heading and its body give one section of the heading's kind, whose content is the seed plus the body joined with newlines and trimmed; an empty section at the end is dropped |
| Sections.KindsFollowHeadings | server.js:72-97 | The i-th section has the kind of the i-th heading line, and there are no more sections than heading lines |
| Sections.SectionCount | server.js:72-110 | There is one section per heading line, minus one when the text ends with a heading line other than the title heading |
| Sections.ContentsTrimmed | server.js:75-108 | Every section's content is already trimmed |
| Sections.SectionsNewlinesFollowed | server.js:54-113 | No section's content holds a blank line: every line feed in it is followed by a visible character |
| Markup.SpanLen | server.js:135 | The length found is that of a `**…**` match starting there |
| Markup.SpanLenUnique | server.js:135 | At most one span starts at a position, and the scan finds it |
| Markup.BoldSplitShape | server.js:135 | The pieces concatenate back to the line and alternate span-free text and `**…**` spans |
| Markup.SplitFirstSpan | server.js:153 | Star-free text before a span gives the text, the span, then the split of the rest |
| Markup.SpanUnwraps | server.js:139-140 | A matched span passes the bold test, and removing two characters from each end leaves the non-empty text inside it |
| Markup.ScanBreak | server.js:119 | The scan finds the longest paragraph break starting at a position |
| Markup.FirstBreakAt | server.js:119 | When the first paragraph break starts at a position, the split is the text before it followed by the split of the text after the break |
| Markup.NewlinesFollowedBreakFree | server.js:119 | Text whose every line feed is followed by a visible character has no paragraph break |
| Markup.ParaSplitSingle | server.js:119 | Text without a paragraph break is a single paragraph |
| Markup.ParaSplitJoin | server.js:119 | Clean paragraphs joined by blank lines split back into the same paragraphs |
| Drawing.FontAfterAppend | server.js:141-143 | The font after two command sequences is the font after the second, started from the font the first left |
| Drawing.Sink.Write | server.js:136 | A text call appends one run in the current font and leaves the font unchanged |
| Render.PartCmdsShape | server.js:139-144 | A part draws at most one run, with the alignment and continuation it is given, and draws nothing exactly when it is empty |
| Render.RenderRuns | server.js:138-145 | Drawing the parts appends exactly the runs of the specification and leaves the font of the last run |
| Render.RenderBullet | server.js:130-150 | A bullet line draws its gaps, the glyph in the current font, its runs and the closing empty text, or one regular run |
| Render.RenderTextLine | server.js:151-174 | A non-bullet line containing `**` draws the justified runs of its split, with a gap unless the line ends in `:`; any other non-bullet line draws one justified regular run and a gap |
| Render.RenderLine | server.js:126-175 | A blank line draws nothing; a `* ` line is a bullet; any other line is a text line |
| Render.RenderParagraph | server.js:121-180 | A paragraph draws its lines in order and a gap unless it is the last; a blank paragraph draws nothing |
| Render.AddFormattedText | server.js:116-182 | Blank text draws nothing; otherwise the paragraphs are drawn in order, each starting in the font the previous one left |
| Render.FormattedTextInline | server.js:116-182 | Body text never starts a page and never underlines |
| Render.LineRunsContinuation | server.js:154-167 | In a non-bullet line every run is justified and every run but the last is continued; the last is continued exactly when the split ends in an empty part |
| Render.BulletRunsContinued | server.js:138-145 | Every run of a bullet line is continued and has no alignment |
| Render.BoldSpanRuns | server.js:153-167 | For `a**b**c`: a regular run for `a`, a continued bold run for `b`, a final regular run for `c` |
| Render.TwoParagraphs | server.js:119-180 | Two paragraphs separated by a blank line draw the first one's lines, a gap, then the second one's lines |
| Render.BulletRunsNonEmpty | server.js:133-145 | A bullet whose text contains `**` draws at least one run, and the first of its runs is a text run |
| Render.LineFontCarryOver | server.js:136-148 | A line draws the same commands whatever font is current, except the glyph of a bullet whose text contains `**`, which takes the current font; its closing empty text takes the font of its last run |
| Report.ReplaceFirstAt | server.js:318 | Only the first underscore is replaced by a space |
| Report.CapitalizeAt | server.js:318 | A word character is upper-cased exactly when it starts a word |
| Report.LabelShape | server.js:318 | A label is the type name with its first letter capitalised; `main_body` gives "Main Body" |
| Report.FindTitle | server.js:298 | Finds the first title section, or nothing when there is none |
| Report.ResolveTitle | server.js:298 | The title is the first title section's content, or the default when there is none or it is empty |
| Report.TocItems | server.js:316 | The contents hold the non-title sections and nothing else |
| Report.TocItemsAppend | server.js:316 | Filtering keeps the sections in order |
| Report.TocNumbering | server.js:316-320 | Entry i of the contents reads `i+1. Label` |
| Report.SectionPageShape | server.js:324-332 | A section page starts one page and has one underlined heading, its label |
| Report.SectionPagesFollowToc | server.js:323-333 | One page per contents entry, headed by the entries' labels in the same order |
| Report.DocumentPages | server.js:297-333 | The document starts one page per contents entry plus the contents page; its headings are "Table of Contents" and then the labels in order |
| Report.NoHeadingReport | server.js:297-321 | A text without heading lines gives the cover with the default title and an empty contents page |
| Report.CoverPlain | server.js:301-310 | The cover starts no page and underlines nothing |
| Report.TocPageShape | server.js:312-321 | The contents page starts one page and has one heading |
| Report.SectionBodyOneParagraph | server.js:331 | The body of every parsed section splits into one paragraph, itself, so `addFormattedText` never draws a paragraph gap inside a section page |
| Report.DrawCover | server.js:301-310 | The cover's runs, with the fallback note only for fallback content, and the font of the last of them |
| Report.DrawToc | server.js:312-321 | The contents heading and one numbered entry per item, in order, and the font the page leaves |
| Report.DrawSectionPage | server.js:324-332 | A new page, the underlined label and, for a non-blank body, the body in the font the label left (bold); the font the page leaves |
| Report.DrawSections | server.js:323-333 | One page per non-title section, in order, each starting in the font the previous one left |
| Report.GenerateReport | server.js:297-333 | The new document holds exactly the cover, the contents and the section pages of the parsed text, and its font is the one they leave |

## Left out

- HTTP handling, request validation, the prompt, the text generator and its retries, and the fallback template are left out. `output` and `usedFallback` are parameters of `Report.GenerateReport`.
- The date is a parameter. `toLocaleDateString` and the clock are not modelled.
- Font sizes, colours, the contents indent and page geometry are not recorded. Vertical gaps are kept in tenths of a line.
- PDFKit's layout is not modelled: line wrapping, page overflow, and which options a `continued` run passes on to the next run.
- The `pageAdded` footer hook (server.js:336-344) is not modelled. It is registered after all pages are added, so it draws nothing.
- `doc.end()`, piping to the response, and the error response are left out.
- Whitespace, letters and word characters are ASCII only. JavaScript's Unicode `trim`, `toLowerCase` and `\s` are not modelled.
- features/pageWordControl.js, test-gemini.js and the frontend are not part of this model.
