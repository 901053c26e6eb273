/** The section splitter (`parseContent` in server.js): raw text is cut into
    trimmed, non-empty lines; heading lines open typed sections and the lines
    after them become each section's content. */
module Sections {
  import opened Strings

  datatype Option<T> = None | Some(value: T)

  /** The section types, in the order the headings are tested. */
  datatype Kind = Title | Abstract | Introduction | MainBody | Conclusion | References

  datatype Section = Section(kind: Kind, content: string)

  /** The type string `parseContent` stores in a section record. */
  function Name(k: Kind): string {
    match k
    case Title => "title"
    case Abstract => "abstract"
    case Introduction => "introduction"
    case MainBody => "main_body"
    case Conclusion => "conclusion"
    case References => "references"
  }

  /** Position of a heading test in the order `parseContent` tries the tests. */
  function Rank(k: Kind): nat {
    match k
    case Title => 0
    case Abstract => 1
    case Introduction => 2
    case MainBody => 3
    case Conclusion => 4
    case References => 5
  }

  /** The heading test for one type, applied to a lower-cased line. Title and
      main body look anywhere in the line, the others only at its start. */
  predicate Matches(k: Kind, lower: string) {
    match k
    case Title => Includes(lower, "title:")
    case Abstract => StartsWith(lower, "abstract")
    case Introduction => StartsWith(lower, "introduction")
    case MainBody => Includes(lower, "main body")
    case Conclusion => StartsWith(lower, "conclusion")
    case References => StartsWith(lower, "references")
  }

  /** Which heading, if any, a lower-cased line is: the first type in the
      order of tests whose test the line passes. */
  function Classify(lower: string): Option<Kind> {
    if Includes(lower, "title:") then Some(Title)
    else if StartsWith(lower, "abstract") then Some(Abstract)
    else if StartsWith(lower, "introduction") then Some(Introduction)
    else if Includes(lower, "main body") then Some(MainBody)
    else if StartsWith(lower, "conclusion") then Some(Conclusion)
    else if StartsWith(lower, "references") then Some(References)
    else None
  }

  /** The classification is the first passing test in the order of tests;
      a line passing none is no heading. */
  lemma ClassifyFirstMatch(lower: string)
    ensures Classify(lower).None? <==> forall k :: !Matches(k, lower)
    ensures Classify(lower).Some? ==> Matches(Classify(lower).value, lower)
    ensures Classify(lower).Some? ==> forall k :: Rank(k) < Rank(Classify(lower).value) ==> !Matches(k, lower)
  {
    if forall k :: !Matches(k, lower) {
      assert !Matches(Title, lower) && !Matches(Abstract, lower) && !Matches(Introduction, lower);
      assert !Matches(MainBody, lower) && !Matches(Conclusion, lower) && !Matches(References, lower);
    }
  }

  function HeadingOf(line: string): Option<Kind> {
    Classify(ToLower(line))
  }

  /** A line of the text together with the outcome of the heading tests on
      its lower-cased form. */
  datatype Line = Line(text: string, heading: Option<Kind>)

  function Classified(lines: seq<string>): (r: seq<Line>)
    ensures |r| == |lines|
    decreases |lines|
  {
    if lines == [] then [] else [Line(lines[0], HeadingOf(lines[0]))] + Classified(lines[1..])
  }

  lemma {:induction false} ClassifiedAt(lines: seq<string>, i: nat)
    requires i < |lines|
    ensures Classified(lines)[i] == Line(lines[i], HeadingOf(lines[i]))
    decreases i
  {
    if i > 0 {
      ClassifiedAt(lines[1..], i - 1);
    }
  }

  /** `line.replace(/^title:\s*\/i, '')`. */
  function StripTitle(line: string): string {
    if StartsWith(ToLower(line), "title:") then TrimStart(line[6..]) else line
  }

  /** The result is a suffix of the line; something is removed exactly when
      the line starts with "title:" in any letter case, and then what is
      removed is those six characters followed by whitespace only, all of
      it. */
  lemma StripTitleShape(line: string)
    ensures var r := StripTitle(line);
      && |r| <= |line| && r == line[|line| - |r|..]
      && (r != line <==> StartsWith(ToLower(line), "title:"))
      && (r != line <==> |line| >= 6 && SameIgnoringCase(line[..6], "title:"))
      && (r != line ==> |line| - |r| >= 6)
      && (r != line ==> forall k :: 6 <= k < |line| - |r| ==> IsSpace(line[k]))
      && (r != line ==> r == [] || !IsSpace(r[0]))
  {
    StartsWithIgnoringCase(line, "title:");
    if StartsWith(ToLower(line), "title:") {
      var t := line[6..];
      TrimStartShape(t);
      var r := TrimStart(t);
      assert t[|t| - |r|..] == line[|line| - |r|..];
      forall k | 6 <= k < |line| - |r| ensures IsSpace(line[k]) {
        assert line[k] == t[k - 6];
      }
      if r == line {
        assert |r| <= |line| - 6;
      }
    }
  }

  /** The accumulator a heading line opens: the title heading seeds it with
      the rest of its own line, the others start empty. */
  function Seed(k: Kind, line: string): seq<string> {
    if k == Title then [StripTitle(line)] else []
  }

  /** The open section of the loop: its type and accumulated lines. */
  datatype Open = Open(kind: Kind, acc: seq<string>)

  /** Closing a section: its lines joined with newlines and trimmed. */
  function Close(o: Open): Section {
    Section(o.kind, Trim(Join(o.acc, "\n")))
  }

  function Closed(open: Option<Open>): seq<Section> {
    if open.Some? then [Close(open.value)] else []
  }

  /** The sections produced from the remaining lines `rest` when `open` is
      the open section so far. */
  function ParseFrom(open: Option<Open>, rest: seq<Line>): seq<Section>
    decreases |rest|
  {
    if rest == [] then
      if open.Some? && open.value.acc != [] then [Close(open.value)] else []
    else
      match rest[0].heading
      case Some(k) => Closed(open) + ParseFrom(Some(Open(k, Seed(k, rest[0].text))), rest[1..])
      case None => ParseFrom(Absorb(open, rest[0].text), rest[1..])
  }

  /** A non-heading line joins the open section, if there is one. */
  function Absorb(open: Option<Open>, text: string): Option<Open> {
    if open.Some? then Some(Open(open.value.kind, open.value.acc + [text])) else None
  }

  /** The sections of a sequence of classified lines. */
  function Parse(lines: seq<Line>): seq<Section> {
    ParseFrom(None, lines)
  }

  /** The sections of a text. */
  function SectionsOf(text: string): seq<Section> {
    Parse(Classified(Lines(text)))
  }

  /** Keeps the non-blank lines, trimmed. */
  function NonBlank(xs: seq<string>): (r: seq<string>)
    ensures forall k :: 0 <= k < |r| ==> r[k] != [] && Trim(r[k]) == r[k]
    decreases |xs|
  {
    if xs == [] then []
    else if Trim(xs[0]) == [] then NonBlank(xs[1..])
    else
      TrimIdempotent(xs[0]);
      [Trim(xs[0])] + NonBlank(xs[1..])
  }

  /** A single line is kept, trimmed, exactly when it is not blank. */
  lemma NonBlankSingle(x: string)
    ensures NonBlank([x]) == (if Trim(x) == [] then [] else [Trim(x)])
  {
    assert [x][1..] == [];
  }

  /** The filter works line by line, keeping the order of the lines. */
  lemma {:induction false} NonBlankAppend(a: seq<string>, b: seq<string>)
    ensures NonBlank(a + b) == NonBlank(a) + NonBlank(b)
    decreases |a|
  {
    if a == [] {
      assert a + b == b;
    } else {
      assert (a + b)[0] == a[0];
      assert (a + b)[1..] == a[1..] + b;
      NonBlankAppend(a[1..], b);
    }
  }

  /** `text.split('\n').map(line => line.trim()).filter(line => line.length > 0)`. */
  function Lines(text: string): seq<string> {
    NonBlank(Split(text, '\n'))
  }

  /** `parseContent`: one pass over the lines keeping the open section and
      its accumulated lines. */
  method ParseContent(text: string) returns (sections: seq<Section>)
    ensures sections == SectionsOf(text)
  {
    var lines := Lines(text);
    ghost var classified := Classified(lines);
    sections := [];
    var currentSection: Option<Kind> := None;
    var currentContent: seq<string> := [];
    var i := 0;
    while i < |lines|
      invariant 0 <= i <= |lines|
      invariant currentSection.None? ==> currentContent == []
      invariant sections + ParseFrom(State(currentSection, currentContent), classified[i..]) == Parse(classified)
    {
      var line := lines[i];
      var lowerLine := ToLower(line);
      var heading := Classify(lowerLine);
      ClassifiedAt(lines, i);
      ParseStep(sections, State(currentSection, currentContent), classified, i, Parse(classified));
      ghost var before := sections;
      ghost var open := State(currentSection, currentContent);
      assert classified[i] == Line(line, heading);
      if heading.Some? {
        ghost var tail := ParseFrom(Some(Open(heading.value, Seed(heading.value, line))), classified[i + 1..]);
        assert before + Closed(open) + tail == Parse(classified);
        if currentSection.Some? {
          sections := sections + [Section(currentSection.value, Trim(Join(currentContent, "\n")))];
        }
        currentSection := heading;
        currentContent := if heading.value == Title then [StripTitle(line)] else [];
        assert sections == before + Closed(open);
        assert State(currentSection, currentContent) == Some(Open(heading.value, Seed(heading.value, line)));
        assert sections + tail == Parse(classified);
      } else if currentSection.Some? {
        currentContent := currentContent + [line];
      }
      i := i + 1;
    }
    assert classified[i..] == [];
    if currentSection.Some? && |currentContent| > 0 {
      sections := sections + [Section(currentSection.value, Trim(Join(currentContent, "\n")))];
    }
  }

  /** One turn of the loop: a heading closes the open section and opens its
      own, any other line joins the open section. */
  lemma ParseStep(before: seq<Section>, open: Option<Open>, lines: seq<Line>, i: nat, total: seq<Section>)
    requires i < |lines|
    requires before + ParseFrom(open, lines[i..]) == total
    ensures var line := lines[i];
      line.heading.Some? ==>
      before + Closed(open) + ParseFrom(Some(Open(line.heading.value, Seed(line.heading.value, line.text))), lines[i + 1..]) == total
    ensures lines[i].heading.None? ==> before + ParseFrom(Absorb(open, lines[i].text), lines[i + 1..]) == total
  {
    assert lines[i..][0] == lines[i] && lines[i..][1..] == lines[i + 1..];
    ParseFromStep(open, lines[i..]);
    var line := lines[i];
    if line.heading.Some? {
      var k := line.heading.value;
      AssocSections(before, Closed(open), ParseFrom(Some(Open(k, Seed(k, line.text))), lines[i + 1..]));
    }
  }

  /** The section a heading line opens. */
  function Opened(line: Line): Option<Open>
    requires line.heading.Some?
  {
    Some(Open(line.heading.value, Seed(line.heading.value, line.text)))
  }

  lemma AssocSections(a: seq<Section>, b: seq<Section>, c: seq<Section>)
    ensures a + b + c == a + (b + c)
  {
  }

  /** ParseFrom unfolded once. */
  lemma ParseFromStep(open: Option<Open>, rest: seq<Line>)
    requires rest != []
    ensures rest[0].heading.Some? ==> ParseFrom(open, rest) == Closed(open) + ParseFrom(Opened(rest[0]), rest[1..])
    ensures rest[0].heading.None? ==> ParseFrom(open, rest) == ParseFrom(Absorb(open, rest[0].text), rest[1..])
  {
  }

  function State(current: Option<Kind>, content: seq<string>): Option<Open> {
    if current.Some? then Some(Open(current.value, content)) else None
  }

  // ---------------------------------------------------------------------
  // Properties of the splitter

  /** The types of the heading lines, in order. */
  function Headings(lines: seq<Line>): seq<Kind>
    decreases |lines|
  {
    if lines == [] then []
    else (if lines[0].heading.Some? then [lines[0].heading.value] else []) + Headings(lines[1..])
  }

  function OpenKinds(open: Option<Open>): seq<Kind> {
    if open.Some? then [open.value.kind] else []
  }

  /** Text without any heading line yields no sections: everything before
      the first heading is dropped. */
  lemma {:induction false} NoHeadingNoSections(lines: seq<Line>)
    requires forall k :: 0 <= k < |lines| ==> lines[k].heading.None?
    ensures Parse(lines) == []
  {
    PreambleDropped(lines, []);
    assert lines + [] == lines;
  }

  /** Lines before the first heading are dropped. */
  lemma {:induction false} PreambleDropped(pre: seq<Line>, rest: seq<Line>)
    requires forall k :: 0 <= k < |pre| ==> pre[k].heading.None?
    ensures Parse(pre + rest) == Parse(rest)
    decreases |pre|
  {
    if pre != [] {
      assert (pre + rest)[0] == pre[0];
      assert (pre + rest)[1..] == pre[1..] + rest;
      assert ParseFrom(None, pre + rest) == ParseFrom(None, pre[1..] + rest);
      PreambleDropped(pre[1..], rest);
    } else {
      assert pre + rest == rest;
    }
  }

  function Texts(lines: seq<Line>): (r: seq<string>)
    ensures |r| == |lines|
    ensures forall k :: 0 <= k < |r| ==> r[k] == lines[k].text
  {
    seq(|lines|, k requires 0 <= k < |lines| => lines[k].text)
  }

  /** Non-heading lines after a heading go, in order, to its accumulator. */
  lemma {:induction false} BodyAccumulates(k: Kind, acc: seq<string>, body: seq<Line>, rest: seq<Line>)
    requires forall j :: 0 <= j < |body| ==> body[j].heading.None?
    ensures ParseFrom(Some(Open(k, acc)), body + rest) == ParseFrom(Some(Open(k, acc + Texts(body))), rest)
    decreases |body|
  {
    if body != [] {
      assert (body + rest)[0] == body[0];
      assert (body + rest)[1..] == body[1..] + rest;
      assert ParseFrom(Some(Open(k, acc)), body + rest)
          == ParseFrom(Some(Open(k, acc + [body[0].text])), body[1..] + rest);
      BodyAccumulates(k, acc + [body[0].text], body[1..], rest);
      assert acc + [body[0].text] + Texts(body[1..]) == acc + Texts(body);
    } else {
      assert body + rest == rest && acc + Texts(body) == acc;
    }
  }

  /** One heading line, the non-heading lines after it, and what follows
      from the next heading on: the heading gives exactly one section of its
      type whose content is its seed and those lines, joined and trimmed (the
      heading line itself is never content), except that a section still
      empty at the end of the text is dropped. */
  lemma {:induction false} HeadingBlock(h: Line, body: seq<Line>, rest: seq<Line>)
    requires h.heading.Some?
    requires forall j :: 0 <= j < |body| ==> body[j].heading.None?
    requires rest == [] || rest[0].heading.Some?
    ensures var k := h.heading.value;
            var acc := Seed(k, h.text) + Texts(body);
            Parse([h] + body + rest)
            == (if rest == [] && acc == [] then [] else [Section(k, Trim(Join(acc, "\n")))]) + Parse(rest)
  {
    var k := h.heading.value;
    var acc := Seed(k, h.text) + Texts(body);
    var s := [h] + body + rest;
    assert s[0] == h && s[1..] == body + rest;
    ParseFromStep(None, s);
    assert Parse(s) == ParseFrom(Some(Open(k, Seed(k, h.text))), body + rest);
    BodyAccumulates(k, Seed(k, h.text), body, rest);
    if rest != [] {
      ParseFromStep(Some(Open(k, acc)), rest);
      ParseFromStep(None, rest);
    }
  }

  /** The i-th section has kind h[i], and there are no more sections than
      entries of h. */
  predicate KindsMatch(r: seq<Section>, h: seq<Kind>) {
    |r| <= |h| && forall i :: 0 <= i < |r| ==> r[i].kind == h[i]
  }

  lemma KindsMatchAppend(a: seq<Section>, b: seq<Section>, ha: seq<Kind>, hb: seq<Kind>)
    requires |a| == |ha| && KindsMatch(a, ha) && KindsMatch(b, hb)
    ensures KindsMatch(a + b, ha + hb)
  {
    forall i | 0 <= i < |a + b| ensures (a + b)[i].kind == (ha + hb)[i] {
      if i >= |a| {
        assert (a + b)[i] == b[i - |a|] && (ha + hb)[i] == hb[i - |a|];
      }
    }
  }

  /** Sections follow the heading lines: the i-th section has the type of
      the i-th heading line, and there are at most as many sections as
      heading lines (duplicate types are kept, one section per heading). */
  lemma {:induction false} KindsFollowHeadings(open: Option<Open>, rest: seq<Line>)
    ensures KindsMatch(ParseFrom(open, rest), OpenKinds(open) + Headings(rest))
    decreases |rest|
  {
    if rest == [] {
      assert OpenKinds(open) + Headings(rest) == OpenKinds(open);
    } else if rest[0].heading.Some? {
      KindsFollowHeadings(Opened(rest[0]), rest[1..]);
      KindsAfterHeading(open, rest);
    } else {
      KindsFollowHeadings(Absorb(open, rest[0].text), rest[1..]);
      KindsAfterText(open, rest);
    }
  }

  lemma KindsAfterHeading(open: Option<Open>, rest: seq<Line>)
    requires rest != [] && rest[0].heading.Some?
    requires KindsMatch(ParseFrom(Opened(rest[0]), rest[1..]), OpenKinds(Opened(rest[0])) + Headings(rest[1..]))
    ensures KindsMatch(ParseFrom(open, rest), OpenKinds(open) + Headings(rest))
  {
    var next := Opened(rest[0]);
    ParseFromStep(open, rest);
    HeadingsStep(rest);
    KindsMatchAppend(Closed(open), ParseFrom(next, rest[1..]), OpenKinds(open), OpenKinds(next) + Headings(rest[1..]));
  }

  lemma HeadingsStep(rest: seq<Line>)
    requires rest != [] && rest[0].heading.Some?
    ensures Headings(rest) == OpenKinds(Opened(rest[0])) + Headings(rest[1..])
  {
  }

  lemma KindsAfterText(open: Option<Open>, rest: seq<Line>)
    requires rest != [] && rest[0].heading.None?
    requires KindsMatch(ParseFrom(Absorb(open, rest[0].text), rest[1..]), OpenKinds(open) + Headings(rest[1..]))
    ensures KindsMatch(ParseFrom(open, rest), OpenKinds(open) + Headings(rest))
  {
    ParseFromStep(open, rest);
    assert Headings(rest) == Headings(rest[1..]);
  }

  /** A heading line that is not a title heading. */
  predicate BareHeading(line: Line) {
    line.heading.Some? && line.heading.value != Title
  }

  function Dropped(open: Option<Open>, rest: seq<Line>): nat {
    if rest == [] then (if open.Some? && open.value.acc == [] then 1 else 0)
    else if BareHeading(rest[|rest| - 1]) then 1 else 0
  }

  lemma {:induction false} SectionCountFrom(open: Option<Open>, rest: seq<Line>)
    ensures |ParseFrom(open, rest)| + Dropped(open, rest) == |OpenKinds(open)| + |Headings(rest)|
    decreases |rest|
  {
    if rest != [] {
      var tail := rest[1..];
      assert tail != [] ==> rest[|rest| - 1] == tail[|tail| - 1];
      match rest[0].heading
      case Some(k) =>
        SectionCountFrom(Some(Open(k, Seed(k, rest[0].text))), tail);
      case None =>
        var next := Absorb(open, rest[0].text);
        SectionCountFrom(next, tail);
    }
  }

  /** One section per heading line, except that a text ending in a heading
      line other than the title heading loses that last, empty section; a
      trailing title heading is always kept. */
  lemma SectionCount(lines: seq<Line>)
    ensures |Parse(lines)| == |Headings(lines)| - (if lines != [] && BareHeading(lines[|lines| - 1]) then 1 else 0)
  {
    SectionCountFrom(None, lines);
  }

  /** Every section's content is trimmed. */
  lemma {:induction false} ContentsTrimmed(open: Option<Open>, rest: seq<Line>)
    ensures forall s :: s in ParseFrom(open, rest) ==> Trim(s.content) == s.content
    decreases |rest|
  {
    if open.Some? {
      TrimIdempotent(Join(open.value.acc, "\n"));
    }
    if rest != [] {
      ParseFromStep(open, rest);
      if rest[0].heading.Some? {
        ContentsTrimmed(Opened(rest[0]), rest[1..]);
        assert forall s :: s in ParseFrom(open, rest) ==> s in Closed(open) || s in ParseFrom(Opened(rest[0]), rest[1..]);
      } else {
        ContentsTrimmed(Absorb(open, rest[0].text), rest[1..]);
      }
    }
  }

  /** An accumulator as the loop builds it: the title heading's seed may be
      empty, every other line is clean. */
  predicate AccLines(acc: seq<string>) {
    (forall k :: 1 <= k < |acc| ==> CleanLine(acc[k]))
    && (|acc| > 0 ==> acc[0] == [] || CleanLine(acc[0]))
  }

  /** The lines `parseContent` works on are clean. */
  lemma LinesClean(text: string)
    ensures forall k :: 0 <= k < |Lines(text)| ==> CleanLine(Lines(text)[k])
  {
    NonBlankClean(Split(text, '\n'));
  }

  lemma {:induction false} NonBlankClean(xs: seq<string>)
    requires forall k :: 0 <= k < |xs| ==> '\n' !in xs[k]
    ensures forall k :: 0 <= k < |NonBlank(xs)| ==> CleanLine(NonBlank(xs)[k])
    decreases |xs|
  {
    if xs != [] {
      NonBlankClean(xs[1..]);
      if Trim(xs[0]) != [] {
        TrimIdempotent(xs[0]);
        TrimKeepsCharacters(xs[0]);
        var r := NonBlank(xs);
        assert r == [Trim(xs[0])] + NonBlank(xs[1..]);
        forall k | 0 <= k < |r| ensures CleanLine(r[k]) {
          if k > 0 {
            assert r[k] == NonBlank(xs[1..])[k - 1];
          }
        }
      }
    }
  }

  /** The seed of a clean heading line is empty or clean. */
  lemma SeedLines(k: Kind, line: string)
    requires CleanLine(line)
    ensures AccLines(Seed(k, line))
  {
    if k == Title {
      var r := StripTitle(line);
      StripTitleShape(line);
      if r != [] {
        assert r[|r| - 1] == line[|line| - 1];
        forall i | 0 <= i < |r| ensures r[i] != '\n' {
          assert r[i] == line[|line| - |r| + i];
        }
      }
    }
  }

  /** A closed section's content has no blank line inside it. */
  lemma CloseNewlinesFollowed(acc: seq<string>)
    requires AccLines(acc)
    ensures NewlinesFollowed(Trim(Join(acc, "\n")))
  {
    if |acc| > 1 && acc[0] == [] {
      var r := Join(acc[1..], "\n");
      JoinCleanLines(acc[1..]);
      assert Join(acc, "\n") == "\n" + r;
      assert ("\n" + r)[1..] == r;
      TrimOfTrimmed(r);
    } else if |acc| > 0 && acc[0] != [] {
      JoinCleanLines(acc);
      TrimOfTrimmed(Join(acc, "\n"));
    }
  }

  lemma {:induction false} ContentsNewlinesFollowed(open: Option<Open>, rest: seq<Line>)
    requires open.Some? ==> AccLines(open.value.acc)
    requires forall k :: 0 <= k < |rest| ==> CleanLine(rest[k].text)
    ensures forall s :: s in ParseFrom(open, rest) ==> NewlinesFollowed(s.content)
    decreases |rest|
  {
    if open.Some? {
      CloseNewlinesFollowed(open.value.acc);
    }
    if rest != [] {
      ParseFromStep(open, rest);
      assert CleanLine(rest[0].text);
      assert forall k :: 0 <= k < |rest[1..]| ==> rest[1..][k] == rest[k + 1];
      if rest[0].heading.Some? {
        SeedLines(rest[0].heading.value, rest[0].text);
        ContentsNewlinesFollowed(Opened(rest[0]), rest[1..]);
        assert forall s :: s in ParseFrom(open, rest) ==> s in Closed(open) || s in ParseFrom(Opened(rest[0]), rest[1..]);
      } else {
        var next := Absorb(open, rest[0].text);
        if open.Some? {
          assert next.value.acc == open.value.acc + [rest[0].text];
        }
        ContentsNewlinesFollowed(next, rest[1..]);
      }
    }
  }

  /** No section of a text holds a blank line: every line feed in its
      content is followed by a visible character. */
  lemma SectionsNewlinesFollowed(text: string)
    ensures forall s :: s in SectionsOf(text) ==> NewlinesFollowed(s.content)
  {
    var lines := Lines(text);
    LinesClean(text);
    forall k | 0 <= k < |lines| ensures CleanLine(Classified(lines)[k].text) {
      ClassifiedAt(lines, k);
    }
    ContentsNewlinesFollowed(None, Classified(lines));
  }
}
