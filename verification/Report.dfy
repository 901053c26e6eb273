/** The `/generate-report` assembly: a cover page, a table of contents of the
    non-title sections, then one page per non-title section with its body
    drawn by the inline renderer. */
module Report {
  import opened Strings
  import opened Sections
  import opened Markup
  import opened Drawing
  import opened Render

  // ---------------------------------------------------------------------
  // Section labels

  /** `s.replace(c, d)` with a string pattern. */
  function ReplaceFirst(s: string, c: char, d: char): (r: string)
    ensures |r| == |s|
    decreases |s|
  {
    if s == [] then []
    else if s[0] == c then [d] + s[1..]
    else [s[0]] + ReplaceFirst(s[1..], c, d)
  }

  /** Only the first c is replaced. */
  lemma {:induction false} ReplaceFirstAt(s: string, c: char, d: char)
    ensures forall k :: 0 <= k < |s| ==>
              ReplaceFirst(s, c, d)[k] == (if s[k] == c && c !in s[..k] then d else s[k])
    decreases |s|
  {
    if s != [] {
      if s[0] == c {
        forall k | 0 < k < |s| ensures c in s[..k] {
          assert s[..k][0] == c;
        }
      } else {
        ReplaceFirstAt(s[1..], c, d);
        forall k | 0 < k < |s| ensures s[..k] == [s[0]] + s[1..][..k - 1] {
        }
      }
    }
  }

  /** `s.replace(/\b\w/g, l => l.toUpperCase())` from position k on, where
      `wordBefore` says whether the character before k is a word character. */
  function CapitalizeFrom(s: string, k: nat, wordBefore: bool): (r: string)
    requires k <= |s|
    ensures |r| == |s| - k
    decreases |s| - k
  {
    if k == |s| then []
    else
      var c := if !wordBefore && IsWordChar(s[k]) then Upper(s[k]) else s[k];
      [c] + CapitalizeFrom(s, k + 1, IsWordChar(s[k]))
  }

  /** A word character is upper-cased exactly when it starts a word. */
  lemma {:induction false} CapitalizeAt(s: string, k: nat, wordBefore: bool)
    requires k <= |s|
    requires wordBefore <==> (k > 0 && IsWordChar(s[k - 1]))
    ensures forall j :: k <= j < |s| ==>
              CapitalizeFrom(s, k, wordBefore)[j - k]
              == (if (j == 0 || !IsWordChar(s[j - 1])) && IsWordChar(s[j]) then Upper(s[j]) else s[j])
    decreases |s| - k
  {
    if k < |s| {
      CapitalizeAt(s, k + 1, IsWordChar(s[k]));
      var r := CapitalizeFrom(s, k, wordBefore);
      var rest := CapitalizeFrom(s, k + 1, IsWordChar(s[k]));
      assert forall m :: 1 <= m < |r| ==> r[m] == rest[m - 1];
    }
  }

  function CapitalizeWords(s: string): string {
    CapitalizeFrom(s, 0, false)
  }

  /** The heading shown for a section kind. */
  function Label(k: Kind): string {
    CapitalizeWords(ReplaceFirst(Name(k), '_', ' '))
  }

  predicate LowerWord(s: string) {
    forall j :: 0 <= j < |s| ==> 'a' <= s[j] <= 'z'
  }

  /** A lower-case word gets its first letter capitalised. */
  lemma CapitalizeWord(s: string)
    requires |s| >= 1 && LowerWord(s)
    ensures CapitalizeWords(s) == [Upper(s[0])] + s[1..]
  {
    var r := CapitalizeWords(s);
    CapitalizeAt(s, 0, false);
    forall j | 1 <= j < |s| ensures r[j] == s[j] {
      assert IsWordChar(s[j - 1]);
    }
  }

  /** A lower-case word without underscore is labelled with its first letter
      capitalised. */
  lemma WordLabel(k: Kind)
    requires |Name(k)| >= 1 && LowerWord(Name(k))
    ensures Label(k) == [Upper(Name(k)[0])] + Name(k)[1..]
  {
    var n := Name(k);
    var s := ReplaceFirst(n, '_', ' ');
    ReplaceFirstAt(n, '_', ' ');
    forall j | 0 <= j < |n| ensures s[j] == n[j] {
      assert n[j] != '_';
    }
    assert s == n;
    CapitalizeWord(n);
  }

  /** `main_body` has its underscore turned into a space. */
  lemma MainBodySpaced(n: string)
    requires n == "main_body"
    ensures ReplaceFirst(n, '_', ' ') == "main body"
  {
    var s := ReplaceFirst(n, '_', ' ');
    ReplaceFirstAt(n, '_', ' ');
    assert '_' !in n[..4] by {
      assert n[..4] == "main";
    }
    forall j | 0 <= j < |n| ensures s[j] == "main body"[j] {
      if j > 4 {
        assert n[..j][4] == '_';
      }
    }
  }

  /** Two lower-case words separated by a space both get capitalised. */
  lemma CapitalizeTwoWords(s: string, i: nat)
    requires 1 <= i < |s| - 1 && s[i] == ' '
    requires LowerWord(s[..i]) && LowerWord(s[i + 1..])
    ensures CapitalizeWords(s) == [Upper(s[0])] + s[1..i] + " " + [Upper(s[i + 1])] + s[i + 2..]
  {
    var r := CapitalizeWords(s);
    var want := [Upper(s[0])] + s[1..i] + " " + [Upper(s[i + 1])] + s[i + 2..];
    CapitalizeAt(s, 0, false);
    forall j | 0 <= j < |s| ensures r[j] == want[j] {
      if j == 0 {
        assert s[..i][0] == s[0];
      } else if j < i {
        assert s[..i][j - 1] == s[j - 1] && s[..i][j] == s[j];
      } else if j == i + 1 {
        assert s[i + 1..][0] == s[j];
      } else if j > i + 1 {
        assert s[i + 1..][j - i - 2] == s[j - 1] && s[i + 1..][j - i - 1] == s[j];
      }
    }
  }

  /** The label of a section type: the type name with its first letter
      capitalised, and "Main Body" for `main_body`, whose underscore becomes
      a space before both words are capitalised. */
  lemma LabelShape(k: Kind)
    ensures k != MainBody ==> Label(k) == [Upper(Name(k)[0])] + Name(k)[1..]
    ensures k == MainBody ==> Label(k) == "Main Body"
  {
    if k == MainBody {
      MainBodyLabel(k);
    } else {
      WordLabel(k);
    }
  }

  lemma MainBodyLabel(k: Kind)
    requires k == MainBody
    ensures Label(k) == "Main Body"
  {
    var n := Name(k);
    MainBodySpaced(n);
    MainBodyCapitalized(ReplaceFirst(n, '_', ' '));
  }

  lemma MainBodyCapitalized(s: string)
    requires s == "main body"
    ensures CapitalizeWords(s) == "Main Body"
  {
    assert s[..4] == "main" && s[5..] == "body";
    CapitalizeTwoWords(s, 4);
  }

  // ---------------------------------------------------------------------
  // Title and table of contents

  /** i is the position of the first title section. */
  predicate FirstTitleAt(sections: seq<Section>, i: int) {
    0 <= i < |sections| && sections[i].kind == Title
    && forall j :: 0 <= j < i ==> sections[j].kind != Title
  }

  /** `sections.find(s => s.type === 'title')`. */
  function FindTitle(sections: seq<Section>): (r: Option<Section>)
    ensures r.None? <==> forall i :: 0 <= i < |sections| ==> sections[i].kind != Title
    ensures r.Some? ==> exists i :: FirstTitleAt(sections, i) && r.value == sections[i]
    decreases |sections|
  {
    if sections == [] then None
    else if sections[0].kind == Title then
      assert FirstTitleAt(sections, 0);
      Some(sections[0])
    else
      var r := FindTitle(sections[1..]);
      if r.Some? then
        var i :| FirstTitleAt(sections[1..], i) && r.value == sections[1..][i];
        assert FirstTitleAt(sections, i + 1);
        r
      else
        assert forall i :: 1 <= i < |sections| ==> sections[i] == sections[1..][i - 1];
        r
  }

  const DefaultTitle := "Generated Report"

  /** The first title section's content, or the default title when there is
      no title section or its content is empty. */
  function ResolveTitle(sections: seq<Section>): (r: string)
    ensures (exists i :: FirstTitleAt(sections, i) && sections[i].content != [] && r == sections[i].content)
            || ((forall i :: FirstTitleAt(sections, i) ==> sections[i].content == []) && r == DefaultTitle)
  {
    var t := FindTitle(sections);
    FirstTitleUnique(sections);
    if t.Some? && t.value.content != [] then t.value.content else DefaultTitle
  }

  lemma FirstTitleUnique(sections: seq<Section>)
    ensures forall i, j :: FirstTitleAt(sections, i) && FirstTitleAt(sections, j) ==> i == j
  {
  }

  /** `sections.filter(s => s.type !== 'title')`. */
  function TocItems(sections: seq<Section>): (r: seq<Section>)
    ensures |r| <= |sections|
    ensures forall i :: 0 <= i < |r| ==> r[i].kind != Title
    ensures forall s :: s in r <==> s in sections && s.kind != Title
    decreases |sections|
  {
    if sections == [] then []
    else if sections[0].kind == Title then
      assert forall s :: s in sections <==> s == sections[0] || s in sections[1..];
      TocItems(sections[1..])
    else
      assert forall s :: s in sections <==> s == sections[0] || s in sections[1..];
      [sections[0]] + TocItems(sections[1..])
  }

  /** Filtering distributes over concatenation, so the contents keep the order
      of the sections. */
  lemma {:induction false} TocItemsAppend(a: seq<Section>, b: seq<Section>)
    ensures TocItems(a + b) == TocItems(a) + TocItems(b)
    decreases |a|
  {
    if a != [] {
      assert (a + b)[0] == a[0];
      assert (a + b)[1..] == a[1..] + b;
      TocItemsAppend(a[1..], b);
    } else {
      assert a + b == b;
    }
  }

  // ---------------------------------------------------------------------
  // Pages

  const ReportHeading := "Academic Report"
  const FallbackNote := "Note: Using fallback content"
  const ContentsHeading := "Table of Contents"

  /** The cover: heading, title, generation date and, for fallback content,
      a note in oblique. */
  function Cover(title: string, usedFallback: bool, date: string): seq<Cmd> {
    [Text(ReportHeading, Bold, Center, false, false), MoveDown(10),
     Text(title, Bold, Center, false, false), MoveDown(30),
     Text("Generated: " + date, Regular, Center, false, false), MoveDown(10)]
    + (if usedFallback then [Text(FallbackNote, Oblique, Center, false, false)] else [])
  }

  /** Entry `n. Label` of the table of contents, numbered from 1. */
  function TocEntry(n: nat, s: Section): string {
    NatToString(n) + ". " + Label(s.kind)
  }

  /** Entries for `items[k..]`. */
  function TocEntries(items: seq<Section>, k: nat): seq<Cmd>
    requires k <= |items|
    decreases |items| - k
  {
    if k == |items| then []
    else TocEntryCmds(k + 1, items[k]) + TocEntries(items, k + 1)
  }

  function TocPage(items: seq<Section>): seq<Cmd> {
    [AddPage, Text(ContentsHeading, Bold, Center, false, true), MoveDown(20)] + TocEntries(items, 0)
  }

  /** A section's page: a new page, its underlined label, and its body when
      the body is not blank. The label leaves bold current. */
  function SectionPage(s: Section): seq<Cmd> {
    SectionHead(Label(s.kind)) + PageBody(s.content)
  }

  function SectionHead(heading: string): seq<Cmd> {
    [AddPage, Text(heading, Bold, Unset, false, true), MoveDown(15)]
  }

  /** The body is drawn only when it is not blank, starting in bold: the font
      the heading leaves current. */
  function PageBody(content: string): seq<Cmd> {
    if Trim(content) != [] then FormattedText(content, Bold) else []
  }

  /** The section pages, in the order of the sections, skipping titles. */
  function SectionPages(sections: seq<Section>): seq<Cmd>
    decreases |sections|
  {
    if sections == [] then [] else PageOf(sections[0]) + SectionPages(sections[1..])
  }

  /** What one section contributes to the section pages: nothing for a
      title section, its page for the others. */
  function PageOf(s: Section): seq<Cmd> {
    if s.kind == Title then [] else SectionPage(s)
  }

  lemma SectionPagesStep(sections: seq<Section>, k: nat)
    requires k < |sections|
    ensures SectionPages(sections[k..]) == PageOf(sections[k]) + SectionPages(sections[k + 1..])
  {
    assert sections[k..][1..] == sections[k + 1..];
  }

  /** Everything drawn for parsed sections. */
  function Document(sections: seq<Section>, usedFallback: bool, date: string): seq<Cmd> {
    Cover(ResolveTitle(sections), usedFallback, date) + TocPage(TocItems(sections)) + SectionPages(sections)
  }

  // ---------------------------------------------------------------------
  // Properties of the document

  /** Number of pages started. */
  function NewPages(cmds: seq<Cmd>): nat
    decreases |cmds|
  {
    if cmds == [] then 0 else (if cmds[0].AddPage? then 1 else 0) + NewPages(cmds[1..])
  }

  /** Underlined texts, in order: the headings of the document. */
  function Underlined(cmds: seq<Cmd>): seq<string>
    decreases |cmds|
  {
    if cmds == [] then []
    else (if cmds[0].Text? && cmds[0].underline then [cmds[0].s] else []) + Underlined(cmds[1..])
  }

  lemma {:induction false} NewPagesAppend(a: seq<Cmd>, b: seq<Cmd>)
    ensures NewPages(a + b) == NewPages(a) + NewPages(b)
    ensures Underlined(a + b) == Underlined(a) + Underlined(b)
    decreases |a|
  {
    if a != [] {
      assert (a + b)[0] == a[0];
      assert (a + b)[1..] == a[1..] + b;
      NewPagesAppend(a[1..], b);
    } else {
      assert a + b == b;
    }
  }

  lemma {:induction false} InlinePlain(cmds: seq<Cmd>)
    requires Inline(cmds)
    ensures NewPages(cmds) == 0 && Underlined(cmds) == []
    decreases |cmds|
  {
    if cmds != [] {
      InlinePlain(cmds[1..]);
    }
  }

  lemma {:induction false} TocEntriesPlain(items: seq<Section>, k: nat)
    requires k <= |items|
    ensures NewPages(TocEntries(items, k)) == 0 && Underlined(TocEntries(items, k)) == []
    decreases |items| - k
  {
    if k < |items| {
      TocEntriesPlain(items, k + 1);
      var e: seq<Cmd> := [Text(TocEntry(k + 1, items[k]), Regular, Unset, false, false), MoveDown(8)];
      NewPagesAppend(e, TocEntries(items, k + 1));
    }
  }

  /** Each section page starts exactly one page and has exactly one heading,
      its label. */
  lemma SectionPageShape(s: Section)
    ensures NewPages(SectionPage(s)) == 1
    ensures Underlined(SectionPage(s)) == [Label(s.kind)]
  {
    var head := SectionHead(Label(s.kind));
    var body := PageBody(s.content);
    FormattedTextInline(s.content, Bold);
    InlinePlain(body);
    PageHead(Label(s.kind), Unset, 15);
    NewPagesAppend(head, body);
  }

  /** A new page with an underlined heading t and a gap after it. */
  lemma PageHead(t: string, align: Align, gap: nat)
    ensures NewPages([AddPage, Text(t, Bold, align, false, true), MoveDown(gap)]) == 1
    ensures Underlined([AddPage, Text(t, Bold, align, false, true), MoveDown(gap)]) == [t]
  {
    var a: seq<Cmd> := [AddPage, Text(t, Bold, align, false, true)];
    NewPagesAppend(a, [MoveDown(gap)]);
    NewPagesAppend([AddPage], [Text(t, Bold, align, false, true)]);
    assert a + [MoveDown(gap)] == [AddPage, Text(t, Bold, align, false, true), MoveDown(gap)];
  }

  function Labels(items: seq<Section>): (r: seq<string>)
    ensures |r| == |items|
    decreases |items|
  {
    if items == [] then [] else [Label(items[0].kind)] + Labels(items[1..])
  }

  /** The section pages are one page per contents entry, headed by the
      entries' labels in the same order. */
  lemma {:induction false} SectionPagesFollowToc(sections: seq<Section>)
    ensures NewPages(SectionPages(sections)) == |TocItems(sections)|
    ensures Underlined(SectionPages(sections)) == Labels(TocItems(sections))
    decreases |sections|
  {
    if sections != [] {
      SectionPagesFollowToc(sections[1..]);
      NewPagesAppend(PageOf(sections[0]), SectionPages(sections[1..]));
      if sections[0].kind != Title {
        SectionPageShape(sections[0]);
        var items := TocItems(sections);
        assert items == [sections[0]] + TocItems(sections[1..]);
        assert items[1..] == TocItems(sections[1..]);
      }
    }
  }

  /** The document starts one page for the contents and one per non-title
      section, and its headings are the contents heading followed by the
      section labels in contents order. */
  lemma DocumentPages(sections: seq<Section>, usedFallback: bool, date: string)
    ensures NewPages(Document(sections, usedFallback, date)) == 1 + |TocItems(sections)|
    ensures Underlined(Document(sections, usedFallback, date)) == [ContentsHeading] + Labels(TocItems(sections))
  {
    var cover := Cover(ResolveTitle(sections), usedFallback, date);
    var toc := TocPage(TocItems(sections));
    CoverPlain(ResolveTitle(sections), usedFallback, date);
    TocPageShape(TocItems(sections));
    SectionPagesFollowToc(sections);
    NewPagesAppend(cover, toc);
    NewPagesAppend(cover + toc, SectionPages(sections));
  }

  /** A text without any heading line gives a report of the cover with the
      default title and an empty table of contents, and nothing else. */
  lemma NoHeadingReport(output: string, usedFallback: bool, date: string)
    requires forall i :: 0 <= i < |Lines(output)| ==> HeadingOf(Lines(output)[i]).None?
    ensures Document(SectionsOf(output), usedFallback, date)
            == Cover(DefaultTitle, usedFallback, date) + [AddPage, Text(ContentsHeading, Bold, Center, false, true), MoveDown(20)]
  {
    var lines := Lines(output);
    var classified := Classified(lines);
    forall k | 0 <= k < |classified| ensures classified[k].heading.None? {
      ClassifiedAt(lines, k);
    }
    NoHeadingNoSections(classified);
    assert SectionsOf(output) == [];
  }

  /** The cover starts no page and has no underlined heading. */
  lemma CoverPlain(title: string, usedFallback: bool, date: string)
    ensures NewPages(Cover(title, usedFallback, date)) == 0
    ensures Underlined(Cover(title, usedFallback, date)) == []
  {
    var cover := Cover(title, usedFallback, date);
    assert Inline(cover);
    InlinePlain(cover);
  }

  /** The contents page starts one page and has one heading. */
  lemma TocPageShape(items: seq<Section>)
    ensures NewPages(TocPage(items)) == 1
    ensures Underlined(TocPage(items)) == [ContentsHeading]
  {
    TocEntriesPlain(items, 0);
    PageHead(ContentsHeading, Center, 20);
    NewPagesAppend([AddPage, Text(ContentsHeading, Bold, Center, false, true), MoveDown(20)], TocEntries(items, 0));
  }

  /** Entry i of the contents (from 0) reads `i+1. Label`. */
  lemma {:induction false} TocNumbering(items: seq<Section>, k: nat, i: nat)
    requires k <= i < |items|
    ensures |TocEntries(items, k)| == 2 * (|items| - k)
    ensures TocEntries(items, k)[2 * (i - k)]
            == Text(NatToString(i + 1) + ". " + Label(items[i].kind), Regular, Unset, false, false)
    decreases |items| - k
  {
    if k < i {
      TocNumbering(items, k + 1, i);
    } else if k + 1 < |items| {
      TocNumbering(items, k + 1, k + 1);
    }
  }

  /** A section's body has no blank line, so `addFormattedText` draws it as
      a single paragraph. */
  lemma SectionBodyOneParagraph(output: string)
    ensures forall s :: s in SectionsOf(output) ==> ParaSplit(s.content) == [s.content]
  {
    SectionsNewlinesFollowed(output);
    forall s | s in SectionsOf(output) ensures ParaSplit(s.content) == [s.content] {
      NewlinesFollowedBreakFree(s.content);
      ParaSplitSingle(s.content);
    }
  }

  // ---------------------------------------------------------------------
  // The handler

  /** The cover page, drawn on the first page of a new document. */
  method DrawCover(doc: Sink, title: string, usedFallback: bool, date: string)
    modifies doc
    ensures doc.log == old(doc.log) + Cover(title, usedFallback, date)
    ensures doc.font == FontAfter(Cover(title, usedFallback, date), old(doc.font))
  {
    doc.SetFont(Bold);
    doc.Write(ReportHeading, Center, false, false);
    doc.MoveDown(10);
    doc.SetFont(Bold);
    doc.Write(title, Center, false, false);
    doc.MoveDown(30);
    doc.SetFont(Regular);
    doc.Write("Generated: " + date, Center, false, false);
    doc.MoveDown(10);
    if usedFallback {
      doc.SetFont(Oblique);
      doc.Write(FallbackNote, Center, false, false);
    }
  }

  /** The contents page, one numbered entry per item. */
  method DrawToc(doc: Sink, items: seq<Section>)
    modifies doc
    ensures doc.log == old(doc.log) + TocPage(items)
    ensures doc.font == FontAfter(TocPage(items), old(doc.font))
  {
    ghost var heading := [AddPage, Text(ContentsHeading, Bold, Center, false, true), MoveDown(20)];
    DrawHeading(doc, ContentsHeading, Center, 20);
    ghost var head := doc.log;
    Assoc(old(doc.log), heading, TocEntries(items, 0));
    FontAfterAppend(heading, TocEntries(items, 0), old(doc.font));
    var index := 0;
    while index < |items|
      invariant 0 <= index <= |items|
      invariant doc.log + TocEntries(items, index) == head + TocEntries(items, 0)
      invariant FontAfter(TocEntries(items, index), doc.font) == FontAfter(TocPage(items), old(doc.font))
    {
      ghost var before := doc.log;
      ghost var font := doc.font;
      DrawTocEntry(doc, index + 1, items[index]);
      Assoc(before, TocEntryCmds(index + 1, items[index]), TocEntries(items, index + 1));
      FontAfterAppend(TocEntryCmds(index + 1, items[index]), TocEntries(items, index + 1), font);
      index := index + 1;
    }
    assert doc.log + TocEntries(items, index) == doc.log;
  }

  function TocEntryCmds(n: nat, s: Section): seq<Cmd> {
    [Text(TocEntry(n, s), Regular, Unset, false, false), MoveDown(8)]
  }

  method DrawTocEntry(doc: Sink, n: nat, s: Section)
    modifies doc
    ensures doc.log == old(doc.log) + TocEntryCmds(n, s)
    ensures doc.font == FontAfter(TocEntryCmds(n, s), old(doc.font))
  {
    doc.SetFont(Regular);
    doc.Write(TocEntry(n, s), Unset, false, false);
    doc.MoveDown(8);
  }

  /** A new page headed by `heading`, underlined in bold, followed by a gap
      of `gap` tenths of a line. */
  method DrawHeading(doc: Sink, heading: string, align: Align, gap: nat)
    modifies doc
    ensures doc.log == old(doc.log) + [AddPage, Text(heading, Bold, align, false, true), MoveDown(gap)]
    ensures doc.font == Bold
  {
    doc.AddPage();
    doc.SetFont(Bold);
    doc.Write(heading, align, false, true);
    doc.MoveDown(gap);
  }

  /** The page of one non-title section. */
  method DrawSectionPage(doc: Sink, section: Section)
    modifies doc
    ensures doc.log == old(doc.log) + SectionPage(section)
    ensures doc.font == FontAfter(SectionPage(section), old(doc.font))
  {
    ghost var head := SectionHead(Label(section.kind));
    ghost var body := PageBody(section.content);
    DrawHeading(doc, Label(section.kind), Unset, 15);
    if |Trim(section.content)| > 0 {
      AddFormattedText(doc, section.content);
    }
    assert doc.log == old(doc.log) + head + body;
    Assoc(old(doc.log), head, body);
    FontAfterAppend(head, body, old(doc.font));
  }

  /** The page of a non-title section; nothing for a title section. */
  method DrawPageOf(doc: Sink, section: Section)
    modifies doc
    ensures doc.log == old(doc.log) + PageOf(section)
    ensures doc.font == FontAfter(PageOf(section), old(doc.font))
  {
    if section.kind != Title {
      DrawSectionPage(doc, section);
    } else {
      assert old(doc.log) + [] == doc.log;
    }
  }

  /** One page per section, in order, skipping titles. */
  method DrawSections(doc: Sink, sections: seq<Section>)
    modifies doc
    ensures doc.log == old(doc.log) + SectionPages(sections)
    ensures doc.font == FontAfter(SectionPages(sections), old(doc.font))
  {
    var k := 0;
    assert sections[k..] == sections;
    while k < |sections|
      invariant 0 <= k <= |sections|
      invariant doc.log + SectionPages(sections[k..]) == old(doc.log) + SectionPages(sections)
      invariant FontAfter(SectionPages(sections[k..]), doc.font) == FontAfter(SectionPages(sections), old(doc.font))
    {
      ghost var before := doc.log;
      ghost var font := doc.font;
      SectionPagesStep(sections, k);
      DrawPageOf(doc, sections[k]);
      Assoc(before, PageOf(sections[k]), SectionPages(sections[k + 1..]));
      FontAfterAppend(PageOf(sections[k]), SectionPages(sections[k + 1..]), font);
      k := k + 1;
    }
    assert sections[k..] == [];
  }

  /** `/generate-report` once the text to lay out is known: `output` is the
      generated (or fallback) text, `date` the formatted current date. */
  method GenerateReport(output: string, usedFallback: bool, date: string) returns (doc: Sink)
    ensures fresh(doc)
    ensures doc.log == Document(SectionsOf(output), usedFallback, date)
    ensures doc.font == FontAfter(Document(SectionsOf(output), usedFallback, date), Regular)
  {
    var sections := ParseContent(output);
    var title := ResolveTitle(sections);
    var items := TocItems(sections);
    doc := new Sink();
    DrawCover(doc, title, usedFallback, date);
    ghost var cover := Cover(title, usedFallback, date);
    assert doc.log == cover;
    DrawToc(doc, items);
    ghost var toc := TocPage(items);
    DrawSections(doc, sections);
    assert doc.log == cover + toc + SectionPages(sections);
    FontAfterAppend(cover, toc, Regular);
    FontAfterAppend(cover + toc, SectionPages(sections), Regular);
  }
}
