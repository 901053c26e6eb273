/** `addFormattedText`: paragraphs, bullet lines and inline bold spans turned
    into drawing commands. The functions say which commands a text produces
    given the font in effect before it; the methods draw them on a Sink. */
module Render {
  import opened Strings
  import opened Markup
  import opened Drawing

  /** Nothing here starts a page or underlines: body text stays on the
      section's page and out of the heading style. */
  predicate Inline(cmds: seq<Cmd>) {
    forall i :: 0 <= i < |cmds| ==> !cmds[i].AddPage? && !(cmds[i].Text? && cmds[i].underline)
  }

  lemma InlineAppend(a: seq<Cmd>, b: seq<Cmd>)
    requires Inline(a) && Inline(b)
    ensures Inline(a + b)
  {
    assert forall i :: |a| <= i < |a + b| ==> (a + b)[i] == b[i - |a|];
  }

  // ---------------------------------------------------------------------
  // Specification

  /** One part of a split line: bold without its markers when it starts and
      ends with `**`, regular when it is other non-empty text, nothing when
      it is empty. */
  function PartCmds(part: string, align: Align, continued: bool): seq<Cmd> {
    if IsWrapped(part) then [Text(Unwrap(part), Bold, align, continued, false)]
    else if |part| > 0 then [Text(part, Regular, align, continued, false)]
    else []
  }

  /** The runs for `parts[k..]`. Bullet runs carry no alignment and are all
      continued; line runs are justified and continued unless they come from
      the last part. */
  function Runs(parts: seq<string>, k: nat, bullet: bool): seq<Cmd>
    requires k <= |parts|
    decreases |parts| - k
  {
    if k == |parts| then []
    else
      var align := if bullet then Unset else Justify;
      PartCmds(parts[k], align, bullet || k < |parts| - 1) + Runs(parts, k + 1, bullet)
  }

  /** One raw line of a paragraph, drawn when font `f` is current: blank
      lines draw nothing, `* ` starts a bullet. */
  function LineCmds(line: string, f: Font): seq<Cmd> {
    var t := Trim(line);
    if t == [] then []
    else if StartsWith(t, "* ") then BulletCmds(Trim(t[2..]), f)
    else TextLineCmds(t)
  }

  /** A bullet item with text b. When b contains `**`, the glyph and the
      closing empty text are drawn in whatever font is current. */
  function BulletCmds(b: string, f: Font): seq<Cmd> {
    if Includes(b, "**") then
      var runs := Runs(BoldSplit(b), 0, true);
      [MoveDown(2), Text("• ", f, Unset, true, false)] + runs
      + [Text("", FontAfter(runs, f), Unset, false, false), MoveDown(3)]
    else [MoveDown(2), Text("• " + b, Regular, Unset, false, false), MoveDown(3)]
  }

  /** A non-bullet line t; a line containing `**` that ends in a colon gets
      no gap after it. */
  function TextLineCmds(t: string): seq<Cmd> {
    if Includes(t, "**") then
      Runs(BoldSplit(t), 0, false) + (if EndsWith(t, ":") then [] else [MoveDown(5)])
    else [Text(t, Regular, Justify, false, false), MoveDown(5)]
  }

  /** The lines of one paragraph, each starting in the font the previous one
      left. */
  function LinesCmds(lines: seq<string>, f: Font): seq<Cmd>
    decreases |lines|
  {
    if lines == [] then []
    else
      var c := LineCmds(lines[0], f);
      c + LinesCmds(lines[1..], FontAfter(c, f))
  }

  /** Paragraphs `paras[k..]`: a blank paragraph draws nothing, any other one
      draws its lines and, unless it is the last, a half-line gap. */
  function ParagraphsCmds(paras: seq<string>, k: nat, f: Font): seq<Cmd>
    requires k <= |paras|
    decreases |paras| - k
  {
    if k == |paras| then []
    else
      var c := ParagraphCmds(paras, k, f);
      c + ParagraphsCmds(paras, k + 1, FontAfter(c, f))
  }

  function ParagraphCmds(paras: seq<string>, k: nat, f: Font): seq<Cmd>
    requires k < |paras|
  {
    if Trim(paras[k]) == [] then []
    else LinesCmds(Split(paras[k], '\n'), f) + (if k < |paras| - 1 then [MoveDown(5)] else [])
  }

  /** Everything `addFormattedText` draws for `text` when `f` is current. */
  function FormattedText(text: string, f: Font): seq<Cmd> {
    if Trim(text) == [] then [] else ParagraphsCmds(ParaSplit(text), 0, f)
  }

  // ---------------------------------------------------------------------
  // What the body text never does

  lemma {:induction false} RunsInline(parts: seq<string>, k: nat, bullet: bool)
    requires k <= |parts|
    ensures Inline(Runs(parts, k, bullet))
    decreases |parts| - k
  {
    if k < |parts| {
      RunsInline(parts, k + 1, bullet);
      InlineAppend(PartCmds(parts[k], if bullet then Unset else Justify, bullet || k < |parts| - 1),
                   Runs(parts, k + 1, bullet));
    }
  }

  lemma BulletInline(b: string, f: Font)
    ensures Inline(BulletCmds(b, f))
  {
    if Includes(b, "**") {
      var runs := Runs(BoldSplit(b), 0, true);
      RunsInline(BoldSplit(b), 0, true);
      var opening: seq<Cmd> := [MoveDown(2), Text("• ", f, Unset, true, false)];
      InlineAppend(opening, runs);
      InlineAppend(opening + runs, [Text("", FontAfter(runs, f), Unset, false, false), MoveDown(3)]);
    }
  }

  lemma TextLineInline(t: string)
    ensures Inline(TextLineCmds(t))
  {
    if Includes(t, "**") {
      RunsInline(BoldSplit(t), 0, false);
      InlineAppend(Runs(BoldSplit(t), 0, false), if EndsWith(t, ":") then [] else [MoveDown(5)]);
    }
  }

  lemma LineInline(line: string, f: Font)
    ensures Inline(LineCmds(line, f))
  {
    var t := Trim(line);
    if t != [] && StartsWith(t, "* ") {
      BulletInline(Trim(t[2..]), f);
    } else if t != [] {
      TextLineInline(t);
    }
  }

  lemma {:induction false} LinesInline(lines: seq<string>, f: Font)
    ensures Inline(LinesCmds(lines, f))
    decreases |lines|
  {
    if lines != [] {
      var c := LineCmds(lines[0], f);
      LineInline(lines[0], f);
      LinesInline(lines[1..], FontAfter(c, f));
      InlineAppend(c, LinesCmds(lines[1..], FontAfter(c, f)));
    }
  }

  lemma {:induction false} ParagraphsInline(paras: seq<string>, k: nat, f: Font)
    requires k <= |paras|
    ensures Inline(ParagraphsCmds(paras, k, f))
    decreases |paras| - k
  {
    if k < |paras| {
      var c := ParagraphCmds(paras, k, f);
      if Trim(paras[k]) != [] {
        LinesInline(Split(paras[k], '\n'), f);
        InlineAppend(LinesCmds(Split(paras[k], '\n'), f), if k < |paras| - 1 then [MoveDown(5)] else []);
      }
      ParagraphsInline(paras, k + 1, FontAfter(c, f));
      InlineAppend(c, ParagraphsCmds(paras, k + 1, FontAfter(c, f)));
    }
  }

  /** Formatted body text never starts a page and never underlines. */
  lemma FormattedTextInline(text: string, f: Font)
    ensures Inline(FormattedText(text, f))
  {
    if Trim(text) != [] {
      ParagraphsInline(ParaSplit(text), 0, f);
    }
  }

  // ---------------------------------------------------------------------
  // Runs of a split line

  /** A part draws one text run with the given options, or nothing when it
      is empty. */
  lemma PartCmdsShape(part: string, align: Align, continued: bool)
    ensures var c := PartCmds(part, align, continued);
            (c == [] <==> part == []) && |c| <= 1
            && (c != [] ==> c[0].Text? && c[0].align == align && c[0].continued == continued)
  {
  }

  predicate LineRun(c: Cmd) {
    c.Text? && c.align == Justify
  }

  lemma {:induction false} LineRunsFrom(parts: seq<string>, k: nat)
    requires k <= |parts|
    ensures var r := Runs(parts, k, false);
            (forall i :: 0 <= i < |r| ==> LineRun(r[i]))
            && (forall i :: 0 <= i < |r| - 1 ==> r[i].continued)
            && (r == [] <==> forall j :: k <= j < |parts| ==> parts[j] == [])
            && (r != [] ==> (r[|r| - 1].continued <==> parts[|parts| - 1] == []))
    decreases |parts| - k
  {
    if k < |parts| {
      var c := PartCmds(parts[k], Justify, k < |parts| - 1);
      var rest := Runs(parts, k + 1, false);
      LineRunsFrom(parts, k + 1);
      PartCmdsShape(parts[k], Justify, k < |parts| - 1);
      var r: seq<Cmd> := c + rest;
      assert Runs(parts, k, false) == r;
      forall i | 0 <= i < |r| ensures LineRun(r[i]) && (i < |r| - 1 ==> r[i].continued) {
        if i < |c| {
          assert r[i] == c[0];
        } else {
          assert r[i] == rest[i - |c|];
        }
      }
      if rest != [] {
        assert r[|r| - 1] == rest[|rest| - 1];
      }
    }
  }

  /** In a non-bullet line every run but the last is continued, and the last
      one is continued too exactly when the split ends in an empty part,
      which is what happens when the line ends with a bold span. Nothing is
      drawn only for an empty line. */
  lemma LineRunsContinuation(t: string)
    ensures var parts := BoldSplit(t);
            var r := Runs(parts, 0, false);
            (forall i :: 0 <= i < |r| ==> LineRun(r[i]))
            && (forall i :: 0 <= i < |r| - 1 ==> r[i].continued)
            && (r == [] <==> t == [])
            && (r != [] ==> (r[|r| - 1].continued <==> parts[|parts| - 1] == []))
  {
    var parts := BoldSplit(t);
    LineRunsFrom(parts, 0);
    BoldSplitShape(t);
    ConcatEmpty(parts);
  }

  lemma {:induction false} ConcatEmpty(xs: seq<string>)
    ensures Concat(xs) == [] <==> forall j :: 0 <= j < |xs| ==> xs[j] == []
    decreases |xs|
  {
    if xs != [] {
      ConcatEmpty(xs[1..]);
      assert forall j :: 1 <= j < |xs| ==> xs[j] == xs[1..][j - 1];
    }
  }

  /** Bullet runs are all continued and carry no alignment, and there are
      none only when every part is empty. */
  lemma {:induction false} BulletRunsContinued(parts: seq<string>, k: nat)
    requires k <= |parts|
    ensures forall i :: 0 <= i < |Runs(parts, k, true)| ==> BulletRun(Runs(parts, k, true)[i])
    ensures Runs(parts, k, true) == [] <==> forall j :: k <= j < |parts| ==> parts[j] == []
    decreases |parts| - k
  {
    if k < |parts| {
      var c := PartCmds(parts[k], Unset, true);
      var rest := Runs(parts, k + 1, true);
      BulletRunsContinued(parts, k + 1);
      PartCmdsShape(parts[k], Unset, true);
      var r: seq<Cmd> := c + rest;
      assert Runs(parts, k, true) == r;
      forall i | 0 <= i < |r| ensures BulletRun(r[i]) {
        if i < |c| {
          assert r[i] == c[0];
        } else {
          assert r[i] == rest[i - |c|];
        }
      }
    }
  }

  predicate BulletRun(c: Cmd) {
    c.Text? && c.align == Unset && c.continued
  }

  predicate StarFree(s: string) {
    forall k :: 0 <= k < |s| ==> s[k] != '*'
  }

  lemma StarFreeSplit(c: string)
    requires StarFree(c)
    ensures BoldSplit(c) == [c]
  {
    forall i | 0 <= i < |c| ensures SpanLen(c[i..]) == 0 {
      NoSpanAtNonStar(c, i);
    }
    SplitSpansSkip(c, 0, |c|);
  }

  lemma StarFreeNotWrapped(a: string)
    requires StarFree(a)
    ensures !IsWrapped(a)
  {
    if |a| >= 2 {
      assert a[..2][0] == a[0];
    }
  }

  /** `a**b**c` with no other stars: a regular run for a, a bold run for b
      without its markers, a regular run for c, leaving out empty ends. The
      bold run is continued even when nothing follows it on the line. */
  lemma BoldSpanRuns(a: string, b: string, c: string)
    requires StarFree(a) && StarFree(c)
    requires |b| >= 1 && StarFree(b)
    ensures Runs(BoldSplit(a + "**" + b + "**" + c), 0, false)
            == (if a == [] then [] else [Text(a, Regular, Justify, true, false)])
               + [Text(b, Bold, Justify, true, false)]
               + (if c == [] then [] else [Text(c, Regular, Justify, false, false)])
  {
    SplitFirstSpan(a, b, c);
    StarFreeSplit(c);
    var span := "**" + b + "**";
    var parts := [a, span, c];
    assert BoldSplit(a + "**" + b + "**" + c) == parts;
    SpanUnwraps(span);
    assert Unwrap(span) == b;
    StarFreeNotWrapped(a);
    StarFreeNotWrapped(c);
    var ra: seq<Cmd> := if a == [] then [] else [Text(a, Regular, Justify, true, false)];
    var rc: seq<Cmd> := if c == [] then [] else [Text(c, Regular, Justify, false, false)];
    assert PartCmds(a, Justify, true) == ra;
    assert PartCmds(c, Justify, false) == rc;
    assert PartCmds(span, Justify, true) == [Text(b, Bold, Justify, true, false)];
    assert Runs(parts, 3, false) == [];
    assert Runs(parts, 2, false) == rc;
    assert Runs(parts, 1, false) == [Text(b, Bold, Justify, true, false)] + rc;
    assert Runs(parts, 0, false) == ra + [Text(b, Bold, Justify, true, false)] + rc;
  }

  // ---------------------------------------------------------------------
  // Paragraphs and fonts

  /** Two clean paragraphs separated by a blank line: the first one's lines,
      a half-line gap, the second one's lines in the font the first left. */
  lemma TwoParagraphs(p: string, q: string, f: Font)
    requires CleanParagraph(p) && CleanParagraph(q)
    ensures var first := LinesCmds(Split(p, '\n'), f);
            FormattedText(p + "\n\n" + q, f)
            == first + [MoveDown(5)] + LinesCmds(Split(q, '\n'), FontAfter(first, f))
  {
    var text := p + "\n\n" + q;
    assert Join([p, q], "\n\n") == text by {
      assert [p, q][1..] == [q];
    }
    ParaSplitJoin([p, q]);
    TrimOfTrimmed(text);
    TrimOfTrimmed(p);
    TrimOfTrimmed(q);
    var first := LinesCmds(Split(p, '\n'), f);
    var c := ParagraphCmds([p, q], 0, f);
    assert c == first + [MoveDown(5)];
    FontAfterAppend(first, [MoveDown(5)], f);
    assert ParagraphsCmds([p, q], 1, FontAfter(c, f)) == LinesCmds(Split(q, '\n'), FontAfter(first, f)) + [];
  }

  /** A line draws the same thing whatever font was current, except a bullet
      whose text contains `**`, whose glyph (the second command) is drawn in the
      current font. The closing empty text of such a bullet follows its
      runs, never the current font. */
  lemma LineFontCarryOver(line: string, f: Font, g: Font)
    ensures var a := LineCmds(line, f);
            var b := LineCmds(line, g);
            |a| == |b| && forall i :: 0 <= i < |a| && i != 1 ==> a[i] == b[i]
    ensures var t := Trim(line);
            if t != [] && StartsWith(t, "* ") && Includes(Trim(t[2..]), "**")
            then LineCmds(line, f)[1] == Text("• ", f, Unset, true, false)
            else LineCmds(line, f) == LineCmds(line, g)
  {
    var t := Trim(line);
    if t != [] && StartsWith(t, "* ") && Includes(Trim(t[2..]), "**") {
      BulletFontCarryOver(Trim(t[2..]), f, g);
    }
  }

  lemma BulletFontCarryOver(b: string, f: Font, g: Font)
    requires Includes(b, "**")
    ensures var x := BulletCmds(b, f);
            var y := BulletCmds(b, g);
            |x| == |y| && forall i :: 0 <= i < |x| && i != 1 ==> x[i] == y[i]
  {
    var runs := Runs(BoldSplit(b), 0, true);
    BulletRunsNonEmpty(b);
    FontAfterText(runs, 0, f, g);
    var close := [Text("", FontAfter(runs, f), Unset, false, false), MoveDown(3)];
    var x := [MoveDown(2), Text("• ", f, Unset, true, false)] + (runs + close);
    var y := [MoveDown(2), Text("• ", g, Unset, true, false)] + (runs + close);
    assert BulletCmds(b, f) == x;
    assert BulletCmds(b, g) == y;
    forall i | 0 <= i < |x| && i != 1
      ensures x[i] == y[i]
    {
      if i >= 2 {
        assert x[i] == (runs + close)[i - 2] == y[i];
      }
    }
  }

  /** A bullet text with `**` in it draws at least one run. */
  lemma BulletRunsNonEmpty(b: string)
    requires Includes(b, "**")
    ensures var runs := Runs(BoldSplit(b), 0, true);
            runs != [] && runs[0].Text?
  {
    var parts := BoldSplit(b);
    BoldSplitShape(b);
    ConcatEmpty(parts);
    BulletRunsContinued(parts, 0);
  }

  // ---------------------------------------------------------------------
  // Drawing

  lemma Assoc(a: seq<Cmd>, b: seq<Cmd>, c: seq<Cmd>)
    ensures (a + b) + c == a + (b + c)
  {
  }

  method RenderRuns(doc: Sink, parts: seq<string>, bullet: bool)
    modifies doc
    ensures doc.log == old(doc.log) + Runs(parts, 0, bullet)
    ensures doc.font == FontAfter(Runs(parts, 0, bullet), old(doc.font))
  {
    var k := 0;
    while k < |parts|
      invariant 0 <= k <= |parts|
      invariant doc.log + Runs(parts, k, bullet) == old(doc.log) + Runs(parts, 0, bullet)
      invariant FontAfter(Runs(parts, k, bullet), doc.font) == FontAfter(Runs(parts, 0, bullet), old(doc.font))
    {
      var part := parts[k];
      var align := if bullet then Unset else Justify;
      var continued := bullet || k < |parts| - 1;
      ghost var c := PartCmds(part, align, continued);
      ghost var f := doc.font;
      ghost var log := doc.log;
      assert Runs(parts, k, bullet) == c + Runs(parts, k + 1, bullet);
      if IsWrapped(part) {
        doc.SetFont(Bold);
        doc.Write(Unwrap(part), align, continued, false);
      } else if |part| > 0 {
        doc.SetFont(Regular);
        doc.Write(part, align, continued, false);
      }
      assert doc.log == log + c;
      Assoc(log, c, Runs(parts, k + 1, bullet));
      assert FontAfter(c, f) == doc.font;
      FontAfterAppend(c, Runs(parts, k + 1, bullet), f);
      k := k + 1;
    }
  }

  method RenderLine(doc: Sink, line: string)
    modifies doc
    ensures doc.log == old(doc.log) + LineCmds(line, old(doc.font))
    ensures doc.font == FontAfter(LineCmds(line, old(doc.font)), old(doc.font))
  {
    var t := Trim(line);
    if |t| == 0 {
      return;
    }
    if StartsWith(t, "* ") {
      RenderBullet(doc, Trim(t[2..]));
    } else {
      RenderTextLine(doc, t);
    }
  }

  method RenderBullet(doc: Sink, b: string)
    modifies doc
    ensures doc.log == old(doc.log) + BulletCmds(b, old(doc.font))
    ensures doc.font == FontAfter(BulletCmds(b, old(doc.font)), old(doc.font))
  {
    ghost var f := doc.font;
    ghost var log := doc.log;
    doc.MoveDown(2);
    if Includes(b, "**") {
      var parts := BoldSplit(b);
      doc.Write("• ", Unset, true, false);
      ghost var head := doc.log;
      RenderRuns(doc, parts, true);
      ghost var runs := Runs(parts, 0, true);
      doc.Write("", Unset, false, false);
      doc.MoveDown(3);
      ghost var opening: seq<Cmd> := [MoveDown(2), Text("• ", f, Unset, true, false)];
      ghost var closing: seq<Cmd> := [Text("", FontAfter(runs, f), Unset, false, false), MoveDown(3)];
      assert doc.log == head + runs + closing;
      assert head == log + opening;
      Assoc(log + opening, runs, closing);
      Assoc(log, opening + runs, closing);
      Assoc(log, opening, runs);
      FontAfterAppend(opening + runs, closing, f);
    } else {
      doc.SetFont(Regular);
      doc.Write("• " + b, Unset, false, false);
      doc.MoveDown(3);
    }
  }

  method RenderTextLine(doc: Sink, t: string)
    modifies doc
    ensures doc.log == old(doc.log) + TextLineCmds(t)
    ensures doc.font == FontAfter(TextLineCmds(t), old(doc.font))
  {
    if Includes(t, "**") {
      ghost var f := doc.font;
      ghost var log := doc.log;
      var parts := BoldSplit(t);
      RenderRuns(doc, parts, false);
      if !EndsWith(t, ":") {
        doc.MoveDown(5);
        Assoc(log, Runs(parts, 0, false), [MoveDown(5)]);
        FontAfterAppend(Runs(parts, 0, false), [MoveDown(5)], f);
      } else {
        assert Runs(parts, 0, false) + [] == Runs(parts, 0, false);
      }
    } else {
      doc.SetFont(Regular);
      doc.Write(t, Justify, false, false);
      doc.MoveDown(5);
    }
  }

  /** `addFormattedText(doc, text)`. */
  method AddFormattedText(doc: Sink, text: string)
    modifies doc
    ensures doc.log == old(doc.log) + FormattedText(text, old(doc.font))
    ensures doc.font == FontAfter(FormattedText(text, old(doc.font)), old(doc.font))
  {
    if |Trim(text)| == 0 {
      return;
    }
    var paragraphs := ParaSplit(text);
    assert FormattedText(text, doc.font) == ParagraphsCmds(paragraphs, 0, doc.font);
    var index := 0;
    while index < |paragraphs|
      invariant 0 <= index <= |paragraphs|
      invariant doc.log + ParagraphsCmds(paragraphs, index, doc.font)
                == old(doc.log) + ParagraphsCmds(paragraphs, 0, old(doc.font))
      invariant FontAfter(ParagraphsCmds(paragraphs, index, doc.font), doc.font)
                == FontAfter(ParagraphsCmds(paragraphs, 0, old(doc.font)), old(doc.font))
    {
      ghost var f := doc.font;
      ghost var log := doc.log;
      ghost var c := ParagraphCmds(paragraphs, index, f);
      assert ParagraphsCmds(paragraphs, index, f)
             == c + ParagraphsCmds(paragraphs, index + 1, FontAfter(c, f));
      RenderParagraph(doc, paragraphs, index);
      Assoc(log, c, ParagraphsCmds(paragraphs, index + 1, doc.font));
      FontAfterAppend(c, ParagraphsCmds(paragraphs, index + 1, doc.font), f);
      index := index + 1;
    }
    assert ParagraphsCmds(paragraphs, index, doc.font) == [];
    assert doc.log + [] == doc.log;
  }

  method RenderParagraph(doc: Sink, paragraphs: seq<string>, index: nat)
    requires index < |paragraphs|
    modifies doc
    ensures doc.log == old(doc.log) + ParagraphCmds(paragraphs, index, old(doc.font))
    ensures doc.font == FontAfter(ParagraphCmds(paragraphs, index, old(doc.font)), old(doc.font))
  {
    var paragraph := paragraphs[index];
    if |Trim(paragraph)| == 0 {
      return;
    }
    var lines := Split(paragraph, '\n');
    ghost var f := doc.font;
    var j := 0;
    while j < |lines|
      invariant 0 <= j <= |lines|
      invariant doc.log + LinesCmds(lines[j..], doc.font) == old(doc.log) + LinesCmds(lines, f)
      invariant FontAfter(LinesCmds(lines[j..], doc.font), doc.font) == FontAfter(LinesCmds(lines, f), f)
    {
      ghost var g := doc.font;
      ghost var log := doc.log;
      ghost var c := LineCmds(lines[j], g);
      assert lines[j..][1..] == lines[j + 1..];
      assert LinesCmds(lines[j..], g) == c + LinesCmds(lines[j + 1..], FontAfter(c, g));
      RenderLine(doc, lines[j]);
      Assoc(log, c, LinesCmds(lines[j + 1..], doc.font));
      FontAfterAppend(c, LinesCmds(lines[j + 1..], doc.font), g);
      j := j + 1;
    }
    assert lines[j..] == [];
    if index < |paragraphs| - 1 {
      doc.MoveDown(5);
      Assoc(old(doc.log), LinesCmds(lines, f), [MoveDown(5)]);
      FontAfterAppend(LinesCmds(lines, f), [MoveDown(5)], f);
    } else {
      assert LinesCmds(lines, f) + [] == LinesCmds(lines, f);
    }
  }
}
