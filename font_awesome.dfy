/** The icon printer of src/pdf/font_awesome/mod.rs. */
module FontAwesome {
  import opened Wrappers
  import opened Colour
  import opened Canvas
  import opened Fonts

  /** The error for a name missing from the icon table (spelt `UnkownFontError` in the source). */
  datatype UnknownFontError = UnknownFontError(font: string)

  /** The error's display text. */
  function Message(e: UnknownFontError): string
  {
    "Unknown font: " + e.font
  }

  /** The message names the font: the name is what follows the fixed prefix, so two
      errors with the same message are the same error. */
  lemma MessageNamesFont(e1: UnknownFontError, e2: UnknownFontError)
    ensures |Message(e1)| == 14 + |e1.font| && Message(e1)[14..] == e1.font
    ensures Message(e1) == Message(e2) ==> e1 == e2
  {
    assert Message(e1)[14..] == e1.font;
    assert Message(e2)[14..] == e2.font;
  }

  /** The table lookup `FONTS.get(name).ok_or(UnkownFontError::new(name))`. */
  function Resolve(name: string): (r: Result<string, UnknownFontError>)
    ensures r.Success? <==> name in Glyphs
    ensures r.Success? ==> r.value == Glyphs[name]
    ensures r.Failure? ==> r.error == UnknownFontError(name)
  {
    if name in Glyphs then Success(Glyphs[name]) else Failure(UnknownFontError(name))
  }

  /** Every name of the table resolves; the lookup is exact and case sensitive. */
  lemma ResolveCases()
    ensures forall name :: name in Glyphs.Keys ==> Resolve(name).Success?
    ensures Resolve("github") == Success("\U{F09B}")
    ensures Resolve("GitHub") == Failure(UnknownFontError("GitHub"))
    ensures Resolve("facebook") == Failure(UnknownFontError("facebook"))
  {
  }

  /** What `print_icon` draws for a resolved glyph: fill colour, then font, then the glyph. */
  function IconOps(font: Font, glyph: string, fontSize: int, color: Color): seq<Op>
  {
    [SetFill(color), SetFont(font, fontSize as real), WriteText(glyph, font)]
  }

  /** The trace `print_icon` appends for `name`, and its outcome. */
  function PrintIconOps(font: Font, name: string, fontSize: int, color: Color): (r: Result<seq<Op>, UnknownFontError>)
  {
    match Resolve(name)
    case Success(glyph) => Success(IconOps(font, glyph, fontSize, color))
    case Failure(e) => Failure(e)
  }

  /** An unknown name fails with its own name before any drawing; a known name draws
      exactly three operations, all with the icon printer's font. */
  lemma PrintIconCases(font: Font, name: string, fontSize: int, color: Color)
    ensures name !in Glyphs ==> PrintIconOps(font, name, fontSize, color) == Failure(UnknownFontError(name))
    ensures name in Glyphs ==>
      var ops := PrintIconOps(font, name, fontSize, color).value;
      && |ops| == 3
      && ops[0] == SetFill(color)
      && ops[1] == SetFont(font, fontSize as real)
      && ops[2] == WriteText(Glyphs[name], font)
      && Texts(ops) == [Glyphs[name]]
  {
    if name in Glyphs {
      var ops := PrintIconOps(font, name, fontSize, color).value;
      assert Texts(ops) == Texts(ops[1..]) == Texts(ops[2..]);
      assert ops[2..][1..] == [];
    }
  }

  /** The icon printer, holding the font it was created with. */
  datatype FontAwesome = FontAwesome(regular: Font)
  {
    /** Looks the name up first, and only on success sets the colour and the font and
        writes the glyph. */
    method PrintIcon(layer: Layer, name: string, fontSize: int, color: Color) returns (r: Outcome<UnknownFontError>)
      modifies layer
      ensures var spec := PrintIconOps(regular, name, fontSize, color);
        && (spec.Failure? ==> r == Fail(spec.error) && layer.ops == old(layer.ops))
        && (spec.Success? ==> r == Pass && layer.ops == old(layer.ops) + spec.value)
    {
      var icon := Resolve(name);
      if icon.Failure? {
        return Fail(icon.error);
      }
      var font := regular;
      layer.Emit(SetFill(color));
      layer.Emit(SetFont(font, fontSize as real));
      layer.Emit(WriteText(icon.value, font));
      r := Pass;
    }
  }
}
