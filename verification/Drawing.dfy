/** The part of a PDFKit document the formatter drives, as a log of drawing
    commands plus the one piece of state that leaks from one call into the
    next: the current font. Sizes, colours and indents are not recorded;
    vertical moves are kept in tenths of a line. */
module Drawing {

  datatype Font = Regular | Bold | Oblique

  /** `align` option of a text call; Unset when the call passes none. */
  datatype Align = Unset | Center | Justify

  datatype Cmd =
    | AddPage
    | Text(s: string, font: Font, align: Align, continued: bool, underline: bool)
    | MoveDown(tenths: nat)

  /** The font in effect after `cmds` when `f` was in effect before: every
      text call records the font it was drawn in, and the formatter only
      changes the font right before drawing text. */
  function FontAfter(cmds: seq<Cmd>, f: Font): Font
    decreases |cmds|
  {
    if cmds == [] then f
    else if cmds[|cmds| - 1].Text? then cmds[|cmds| - 1].font
    else FontAfter(cmds[..|cmds| - 1], f)
  }

  lemma {:induction false} FontAfterAppend(a: seq<Cmd>, b: seq<Cmd>, f: Font)
    ensures FontAfter(a + b, f) == FontAfter(b, FontAfter(a, f))
    decreases |b|
  {
    if b == [] {
      assert a + b == a;
    } else {
      assert (a + b)[..|a + b| - 1] == a + b[..|b| - 1];
      FontAfterAppend(a, b[..|b| - 1], f);
    }
  }

  /** Once a text has been drawn, the font before it no longer matters. */
  lemma {:induction false} FontAfterText(cmds: seq<Cmd>, i: nat, f: Font, g: Font)
    requires i < |cmds| && cmds[i].Text?
    ensures FontAfter(cmds, f) == FontAfter(cmds, g)
    decreases |cmds|
  {
    if !cmds[|cmds| - 1].Text? {
      FontAfterText(cmds[..|cmds| - 1], i, f, g);
    }
  }

  /** A PDF document being written: what has been drawn so far and the font
      the next text call will use unless it sets one. */
  class Sink {
    var log: seq<Cmd>
    var font: Font

    /** A new document starts empty, in PDFKit's default Helvetica. */
    constructor ()
      ensures log == [] && font == Regular
    {
      log := [];
      font := Regular;
    }

    method AddPage()
      modifies this
      ensures log == old(log) + [Cmd.AddPage] && font == old(font)
    {
      log := log + [Cmd.AddPage];
    }

    /** `doc.font(...)`: draws nothing. */
    method SetFont(f: Font)
      modifies this
      ensures log == old(log) && font == f
    {
      font := f;
    }

    /** `doc.text(s, options)` in the current font. */
    method Write(s: string, align: Align, continued: bool, underline: bool)
      modifies this
      ensures log == old(log) + [Text(s, old(font), align, continued, underline)]
      ensures font == old(font)
    {
      log := log + [Text(s, font, align, continued, underline)];
    }

    /** `doc.moveDown(tenths / 10)`. */
    method MoveDown(tenths: nat)
      modifies this
      ensures log == old(log) + [Cmd.MoveDown(tenths)] && font == old(font)
    {
      log := log + [Cmd.MoveDown(tenths)];
    }
  }
}
