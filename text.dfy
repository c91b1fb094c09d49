/** What the text helpers of src/pdf/text.rs draw: social icons in their network's
    colour, wrapped text line by line, and underlined headings. */
module Text {
  import opened Wrappers
  import opened Colour
  import opened Shape
  import opened Canvas
  import opened Strings
  import opened Page
  import opened Fonts
  import opened FontAwesome

  const TWITTER_BLUE: Color := RgbColor(Rgb(0.11, 0.63, 0.95))
  const LINKEDIN_BLUE: Color := RgbColor(Rgb(0.0, 0.46, 0.70))
  const GITLAB_ORANGE: Color := RgbColor(Rgb(0.88, 0.26, 0.16))

  /** The brand colour of a social network; github and every other name take the
      secondary colour. */
  function SocialColour(name: string, secondary: Color): Color
  {
    if name == "twitter" then TWITTER_BLUE
    else if name == "linkedin" then LINKEDIN_BLUE
    else if name == "github" then secondary
    else if name == "gitlab" then GITLAB_ORANGE
    else secondary
  }

  /** Only twitter, linkedin and gitlab have colours of their own. */
  lemma SocialColourTable(name: string, secondary: Color)
    ensures SocialColour(name, secondary) != secondary ==> name in {"twitter", "linkedin", "gitlab"}
    ensures SocialColour("twitter", secondary) == RgbColor(Rgb(0.11, 0.63, 0.95))
    ensures SocialColour("linkedin", secondary) == RgbColor(Rgb(0.0, 0.46, 0.70))
    ensures SocialColour("gitlab", secondary) == RgbColor(Rgb(0.88, 0.26, 0.16))
    ensures SocialColour("github", secondary) == secondary
    ensures IsUnitColor(SocialColour(name, secondary)) <==> (name in {"twitter", "linkedin", "gitlab"} || IsUnitColor(secondary))
  {
  }

  /** `write_social_icon`: the icon printer's result, unchanged, with the network's colour. */
  function SocialIconOps(font: Font, name: string, fontSize: int, secondary: Color): Result<seq<Op>, UnknownFontError>
  {
    PrintIconOps(font, name, fontSize, SocialColour(name, secondary))
  }

  /** A network without a glyph fails with its own name; one with a glyph draws it in
      the network's colour. */
  lemma SocialIconCases(font: Font, name: string, fontSize: int, secondary: Color)
    ensures SocialIconOps(font, name, fontSize, secondary).Failure? <==> name !in Glyphs
    ensures name !in Glyphs ==> SocialIconOps(font, name, fontSize, secondary).error == UnknownFontError(name)
    ensures name in Glyphs ==>
      SocialIconOps(font, name, fontSize, secondary).value[0] == SetFill(SocialColour(name, secondary))
    ensures SocialIconOps(font, "mastodon", fontSize, secondary) == Failure(UnknownFontError("mastodon"))
  {
    PrintIconCases(font, name, fontSize, SocialColour(name, secondary));
  }

  /** Each line written with `font`, each followed by a line break. */
  function LinesOps(lines: seq<string>, font: Font): (ops: seq<Op>)
    ensures |ops| == 2 * |lines|
  {
    if lines == [] then []
    else LinesOps(lines[..|lines| - 1], font) + [WriteText(lines[|lines| - 1], font), LineBreak]
  }

  /** Line k is written at position 2k, and a line break follows it. */
  lemma {:induction false} LinesOpsAt(lines: seq<string>, font: Font, k: nat)
    requires k < |lines|
    ensures LinesOps(lines, font)[2 * k] == WriteText(lines[k], font)
    ensures LinesOps(lines, font)[2 * k + 1] == LineBreak
  {
    if k < |lines| - 1 {
      LinesOpsAt(lines[..|lines| - 1], font, k);
    }
  }

  /** The texts written are exactly the lines, in order, with one line break per line. */
  lemma {:induction false} LinesOpsTexts(lines: seq<string>, font: Font)
    ensures Texts(LinesOps(lines, font)) == lines
    ensures LineBreaks(LinesOps(lines, font)) == |lines|
  {
    if lines != [] {
      var init, last := lines[..|lines| - 1], lines[|lines| - 1];
      var tail := [WriteText(last, font), LineBreak];
      LinesOpsTexts(init, font);
      TextsAppend(LinesOps(init, font), tail);
      LineBreaksAppend(LinesOps(init, font), tail);
      assert tail[1..] == [LineBreak] && [LineBreak][1..] == [];
      assert Texts([LineBreak]) == [] && LineBreaks([LineBreak]) == 1;
      assert Texts(tail) == [last];
      assert LineBreaks(tail) == 1;
      assert lines == init + [last];
    }
  }

  /** Every text `LinesOps` writes uses `font`. */
  lemma LinesOpsFont(lines: seq<string>, font: Font, k: nat)
    requires k < |LinesOps(lines, font)|
    ensures LinesOps(lines, font)[k].WriteText? ==> LinesOps(lines, font)[k].font == font
  {
    LinesOpsAt(lines, font, k / 2);
  }

  /** The lines `write_bounded` draws: the wrapped text cut at each newline. */
  function BoundedLines(fill: (string, nat) -> string, text: string, width: nat): seq<string>
  {
    Split(fill(text, width), '\n')
  }

  /** `write_bounded`: always in the regular font, whatever font the caller selected. */
  function BoundedOps(fill: (string, nat) -> string, text: string, width: nat): seq<Op>
  {
    LinesOps(BoundedLines(fill, text, width), Regular)
  }

  /** The lines written, joined back with newlines, are the wrapped text; there is one
      line break per line, and no written line holds a newline. */
  lemma BoundedOpsMeaning(fill: (string, nat) -> string, text: string, width: nat)
    ensures Join(Texts(BoundedOps(fill, text, width)), "\n") == fill(text, width)
    ensures LineBreaks(BoundedOps(fill, text, width)) == |Texts(BoundedOps(fill, text, width))| >= 1
    ensures forall line :: line in Texts(BoundedOps(fill, text, width)) ==> '\n' !in line
  {
    LinesOpsTexts(BoundedLines(fill, text, width), Regular);
    JoinSplit(fill(text, width), '\n');
    SplitPiecesFree(fill(text, width), '\n');
  }

  /** The 2-point bar under a heading: from the left offset across the column, its
      bottom edge `fontSize + 2` points below the text baseline. */
  function UnderlineBar(fontSize: int, offsetX: real, offsetY: real): Line
  {
    var strokeSize := 2.0;
    Line(Polygon(RectanglePoints(MmToPt(offsetX), MmToPt(offsetY) - (fontSize as real + strokeSize),
                                 MmToPt(RIGHT_COLUMN_HEIGHT - offsetX - offsetX), strokeSize)),
         true, true, false, false)
  }

  /** `write_underlined_text`: the heading in bold at the offset, then its bar. */
  function UnderlinedOps(text: string, fontSize: int, offsetX: real, offsetY: real): seq<Op>
  {
    [SetFont(Bold, fontSize as real), SetTextCursor(offsetX, offsetY), WriteText(text, Bold),
     AddShape(UnderlineBar(fontSize, offsetX, offsetY))]
  }

  /** The heading is written once, at the offset; then exactly one filled, unstroked bar
      2 points high is added, its top edge `fontSize` points below the baseline and
      its width the column less twice the left offset. */
  lemma UnderlineGeometry(text: string, fontSize: int, offsetX: real, offsetY: real)
    requires 2.0 * offsetX <= RIGHT_COLUMN_HEIGHT
    ensures var ops := UnderlinedOps(text, fontSize, offsetX, offsetY);
      && Texts(ops) == [text]
      && ops[1] == SetTextCursor(offsetX, offsetY)
      && |Shapes(ops)| == 1
      && var bar := Shapes(ops)[0];
      && bar.hasFill && !bar.hasStroke && bar.isClosed
      && bar.path.Polygon?
      && var pts := bar.path.points;
      && |pts| == 4
      && pts[3].0 == Point(MmToPt(offsetX), MmToPt(offsetY) - (fontSize as real + 2.0))
      && pts[0].0.y == MmToPt(offsetY) - fontSize as real
      && pts[1].0.x - pts[0].0.x == MmToPt(RIGHT_COLUMN_HEIGHT - 2.0 * offsetX)
  {
    var bar := UnderlineBar(fontSize, offsetX, offsetY);
    var ops := UnderlinedOps(text, fontSize, offsetX, offsetY);
    var last := [AddShape(bar)];
    assert last[1..] == [];
    assert Texts(last) == [] && Shapes(last) == [bar];
    assert ops[1..][1..] == [WriteText(text, Bold)] + last;
    assert ops[1..][1..][1..] == last;
    assert Texts(ops[1..][1..]) == [text] && Shapes(ops[1..][1..]) == [bar];
    assert Texts(ops[1..]) == [text] && Shapes(ops[1..]) == [bar];
    assert Texts(ops) == [text];
    assert Shapes(ops) == [bar];
  }
}
