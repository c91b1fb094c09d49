/** The drawing surface the layout code writes to: printpdf's layer, seen as the
    append-only trace of the calls made on it. */
module Canvas {
  import opened Wrappers
  import opened Colour
  import opened Shape

  /** Points per millimetre (a point is 1/72 inch). */
  const PT_PER_MM: real := 72.0 / 25.4

  function MmToPt(mm: real): real { mm * PT_PER_MM }

  function PtToMm(pt: real): real { pt / PT_PER_MM }

  /** Millimetres convert to points and back without loss, and the conversion keeps order. */
  lemma UnitConversion(a: real, b: real)
    ensures PtToMm(MmToPt(a)) == a && MmToPt(PtToMm(a)) == a
    ensures a < b ==> MmToPt(a) < MmToPt(b)
  {
  }

  /** The three embedded Liberation fonts; the icon font is the regular one. */
  datatype Font = Regular | Bold | Thin

  /** The outline of a shape: explicit points, or a circle (whose points printpdf computes). */
  datatype Path = Polygon(points: seq<(Point, bool)>) | Circle(radius: real, centre: Point)

  /** printpdf's `Line`. */
  datatype Line = Line(path: Path, isClosed: bool, hasFill: bool, hasStroke: bool, isClippingPath: bool)

  /** A decoded raster picture, known here only by its size in pixels. */
  datatype Bitmap = Bitmap(width: nat, height: nat)

  datatype Image = Photo(bitmap: Bitmap) | QrCode(pixels: seq<Pixel>)

  /** One call on the layer. Text cursor positions and image offsets are in millimetres,
      font sizes and line heights in points. */
  datatype Op =
    | SetFill(color: Color)
    | SetOutline(color: Color)
    | SetFont(font: Font, size: real)
    | SetTextCursor(x: real, y: real)
    | SetLineHeight(height: real)
    | BeginTextSection
    | EndTextSection
    | WriteText(text: string, font: Font)
    | LineBreak
    | AddShape(line: Line)
    | AddImage(image: Image, left: Option<real>, bottom: Option<real>)

  /** The texts written by `ops`, in order. */
  function Texts(ops: seq<Op>): seq<string>
  {
    if ops == [] then []
    else (if ops[0].WriteText? then [ops[0].text] else []) + Texts(ops[1..])
  }

  /** The shapes added by `ops`, in order. */
  function Shapes(ops: seq<Op>): seq<Line>
  {
    if ops == [] then []
    else (if ops[0].AddShape? then [ops[0].line] else []) + Shapes(ops[1..])
  }

  /** The number of line breaks in `ops`. */
  function LineBreaks(ops: seq<Op>): nat
  {
    if ops == [] then 0
    else (if ops[0].LineBreak? then 1 else 0) + LineBreaks(ops[1..])
  }

  lemma {:induction false} TextsAppend(a: seq<Op>, b: seq<Op>)
    ensures Texts(a + b) == Texts(a) + Texts(b)
  {
    if a != [] {
      TextsAppend(a[1..], b);
      assert (a + b)[0] == a[0] && (a + b)[1..] == a[1..] + b;
    } else {
      assert a + b == b;
    }
  }

  lemma {:induction false} ShapesAppend(a: seq<Op>, b: seq<Op>)
    ensures Shapes(a + b) == Shapes(a) + Shapes(b)
  {
    if a != [] {
      ShapesAppend(a[1..], b);
      assert (a + b)[0] == a[0] && (a + b)[1..] == a[1..] + b;
    } else {
      assert a + b == b;
    }
  }

  lemma {:induction false} LineBreaksAppend(a: seq<Op>, b: seq<Op>)
    ensures LineBreaks(a + b) == LineBreaks(a) + LineBreaks(b)
  {
    if a != [] {
      LineBreaksAppend(a[1..], b);
      assert (a + b)[0] == a[0] && (a + b)[1..] == a[1..] + b;
    } else {
      assert a + b == b;
    }
  }

  /** The traces `f(0)`, ..., `f(k - 1)`, one after the other. */
  function Joined(f: nat -> seq<Op>, k: nat): seq<Op>
  {
    if k == 0 then [] else Joined(f, k - 1) + f(k - 1)
  }

  /** The first `j` parts joined are a prefix of the first `k`, for `j <= k`. */
  lemma {:induction false} JoinedPrefix(f: nat -> seq<Op>, j: nat, k: nat)
    requires j <= k
    ensures Joined(f, j) <= Joined(f, k)
    decreases k
  {
    if j < k {
      JoinedPrefix(f, j, k - 1);
      assert Joined(f, k) == Joined(f, k - 1) + f(k - 1);
    }
  }

  /** The summaries of three traces run one after the other. */
  lemma Concat3(a: seq<Op>, b: seq<Op>, c: seq<Op>)
    ensures Texts(a + b + c) == Texts(a) + Texts(b) + Texts(c)
    ensures Shapes(a + b + c) == Shapes(a) + Shapes(b) + Shapes(c)
    ensures LineBreaks(a + b + c) == LineBreaks(a) + LineBreaks(b) + LineBreaks(c)
  {
    TextsAppend(a, b); TextsAppend(a + b, c);
    ShapesAppend(a, b); ShapesAppend(a + b, c);
    LineBreaksAppend(a, b); LineBreaksAppend(a + b, c);
  }

  /** Three shapeless traces around a plain middle one write the outer traces' texts. */
  lemma PlainAround(a: seq<Op>, b: seq<Op>, c: seq<Op>)
    requires Texts(b) == [] && Shapes(a) == [] && Shapes(b) == [] && Shapes(c) == []
    ensures Texts(a + b + c) == Texts(a) + Texts(c)
    ensures Shapes(a + b + c) == []
  {
    Concat3(a, b, c);
    assert Texts(a) + [] == Texts(a);
    assert Shapes(a) + Shapes(b) + Shapes(c) == [];
  }

  /** The summaries of four traces run one after the other. */
  lemma Concat4(a: seq<Op>, b: seq<Op>, c: seq<Op>, d: seq<Op>)
    ensures Texts(a + b + c + d) == Texts(a) + Texts(b) + Texts(c) + Texts(d)
    ensures Shapes(a + b + c + d) == Shapes(a) + Shapes(b) + Shapes(c) + Shapes(d)
    ensures LineBreaks(a + b + c + d) == LineBreaks(a) + LineBreaks(b) + LineBreaks(c) + LineBreaks(d)
  {
    Concat3(a, b, c);
    TextsAppend(a + b + c, d);
    ShapesAppend(a + b + c, d);
    LineBreaksAppend(a + b + c, d);
  }

  /** A trace without text writes no text, and likewise for line breaks and shapes. */
  lemma {:induction false} NoTexts(ops: seq<Op>)
    requires forall k :: 0 <= k < |ops| ==> !ops[k].WriteText?
    ensures Texts(ops) == []
  {
    if ops != [] { NoTexts(ops[1..]); }
  }

  lemma {:induction false} NoLineBreaks(ops: seq<Op>)
    requires forall k :: 0 <= k < |ops| ==> !ops[k].LineBreak?
    ensures LineBreaks(ops) == 0
  {
    if ops != [] { NoLineBreaks(ops[1..]); }
  }

  lemma {:induction false} NoShapes(ops: seq<Op>)
    requires forall k :: 0 <= k < |ops| ==> !ops[k].AddShape?
    ensures Shapes(ops) == []
  {
    if ops != [] { NoShapes(ops[1..]); }
  }

  /** What one operation contributes ahead of the rest of a trace. */
  lemma Cons(op: Op, rest: seq<Op>)
    ensures Texts([op] + rest) == (if op.WriteText? then [op.text] else []) + Texts(rest)
    ensures LineBreaks([op] + rest) == (if op.LineBreak? then 1 else 0) + LineBreaks(rest)
    ensures Shapes([op] + rest) == (if op.AddShape? then [op.line] else []) + Shapes(rest)
  {
    assert ([op] + rest)[1..] == rest;
  }

  /** The layer: every drawing call appends one operation to its trace. */
  class Layer {
    var ops: seq<Op>

    constructor ()
      ensures ops == []
    {
      ops := [];
    }

    method Emit(op: Op)
      modifies this
      ensures ops == old(ops) + [op]
    {
      ops := ops + [op];
    }
  }
}
