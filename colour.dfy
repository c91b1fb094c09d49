/** Colour normalisation and the QR-code recolouring pass of src/pdf/image.rs. */
module Colour {

  /** An RGB colour with channels nominally in [0, 1]. */
  datatype Rgb = Rgb(r: real, g: real, b: real)

  /** printpdf's four colour models (their optional ICC profile is always absent here). */
  datatype Color =
    | RgbColor(rgb: Rgb)
    | Cmyk(c: real, m: real, y: real, k: real)
    | Greyscale(percent: real)
    | SpotColor(c: real, m: real, y: real, k: real)

  predicate InUnit(x: real) { 0.0 <= x <= 1.0 }

  predicate IsUnitRgb(rgb: Rgb) { InUnit(rgb.r) && InUnit(rgb.g) && InUnit(rgb.b) }

  /** The channels of a colour all lie in [0, 1]. */
  predicate IsUnitColor(color: Color)
  {
    match color
    case RgbColor(rgb) => IsUnitRgb(rgb)
    case Cmyk(c, m, y, k) => InUnit(c) && InUnit(m) && InUnit(y) && InUnit(k)
    case Greyscale(v) => InUnit(v)
    case SpotColor(c, m, y, k) => InUnit(c) && InUnit(m) && InUnit(y) && InUnit(k)
  }

  function CmykToRgb(c: real, m: real, y: real, k: real): Rgb
  {
    Rgb((1.0 - c) * (1.0 - k), (1.0 - m) * (1.0 - k), (1.0 - y) * (1.0 - k))
  }

  /** `to_rgb`: RGB is kept, CMYK and spot colours go through the CMYK formula, grey is
      copied to all three channels. The CMYK fields are bound by name in the source. */
  function ToRgb(color: Color): Rgb
  {
    match color
    case RgbColor(rgb) => rgb
    case Cmyk(c, m, y, k) => CmykToRgb(c, m, y, k)
    case Greyscale(v) => Rgb(v, v, v)
    case SpotColor(c, m, y, k) => CmykToRgb(c, m, y, k)
  }

  /** An RGB colour is returned as it is, a grey level fills all three channels, and a
      spot colour converts exactly as the CMYK colour with the same inks. */
  lemma ToRgbKinds(rgb: Rgb, v: real, c: real, m: real, y: real, k: real)
    ensures ToRgb(RgbColor(rgb)) == rgb
    ensures ToRgb(Greyscale(v)) == Rgb(v, v, v)
    ensures ToRgb(SpotColor(c, m, y, k)) == ToRgb(Cmyk(c, m, y, k))
  {
  }

  /** The product of two numbers in [0, 1] lies in [0, 1]. */
  lemma UnitProduct(a: real, b: real)
    requires InUnit(a) && InUnit(b)
    ensures InUnit(a * b)
  {
    assert 0.0 <= a * b;
    assert a * b <= 1.0 * b;
  }

  /** Normalisation keeps every channel in [0, 1]. */
  lemma ToRgbInUnit(color: Color)
    requires IsUnitColor(color)
    ensures IsUnitRgb(ToRgb(color))
  {
    match color
    case RgbColor(_) =>
    case Greyscale(_) =>
    case Cmyk(c, m, y, k) =>
      UnitProduct(1.0 - c, 1.0 - k);
      UnitProduct(1.0 - m, 1.0 - k);
      UnitProduct(1.0 - y, 1.0 - k);
    case SpotColor(c, m, y, k) =>
      UnitProduct(1.0 - c, 1.0 - k);
      UnitProduct(1.0 - m, 1.0 - k);
      UnitProduct(1.0 - y, 1.0 - k);
  }

  /** No ink is white, full key is black whatever the other inks, and yellow ink
      alone removes only blue (so `y` and `k` are not swapped). */
  lemma CmykCorners(c: real, m: real, y: real)
    ensures ToRgb(Cmyk(0.0, 0.0, 0.0, 0.0)) == Rgb(1.0, 1.0, 1.0)
    ensures ToRgb(Cmyk(c, m, y, 1.0)) == Rgb(0.0, 0.0, 0.0)
    ensures ToRgb(SpotColor(c, m, y, 1.0)) == Rgb(0.0, 0.0, 0.0)
    ensures ToRgb(Cmyk(0.0, 0.0, 1.0, 0.0)) == Rgb(1.0, 1.0, 0.0)
    ensures ToRgb(Greyscale(0.5)) == Rgb(0.5, 0.5, 0.5)
  {
  }

  newtype byte = x: int | 0 <= x < 256

  /** Rust's saturating `f64 as u8` cast: truncates toward zero and clamps to [0, 255]. */
  function ByteOf(x: real): (b: byte)
    ensures x <= 0.0 ==> b == 0
    ensures x >= 255.0 ==> b == 255
    ensures 0.0 < x < 255.0 ==> b as real <= x < b as real + 1.0
  {
    if x <= 0.0 then 0 else if x >= 255.0 then 255 else x.Floor as byte
  }

  /** One RGB pixel of an 8-bit image buffer. */
  datatype Pixel = Pixel(r: byte, g: byte, b: byte)

  const Black := Pixel(0, 0, 0)

  /** The accent colour scaled to the 0-255 channel range, as `qrcode` computes it. */
  function PixelOf(color: Rgb): Pixel
  {
    Pixel(ByteOf(color.r * 255.0), ByteOf(color.g * 255.0), ByteOf(color.b * 255.0))
  }

  function RecolourPixel(p: Pixel, newColor: Pixel): Pixel
  {
    if p == Black then newColor else p
  }

  /** The buffer after the recolouring pass: pure black becomes `newColor`. */
  function Recoloured(pixels: seq<Pixel>, newColor: Pixel): (r: seq<Pixel>)
    ensures |r| == |pixels|
  {
    seq(|pixels|, k requires 0 <= k < |pixels| => RecolourPixel(pixels[k], newColor))
  }

  /** Every black pixel takes the new colour and every other pixel is left as it was. */
  lemma RecolouredPixels(pixels: seq<Pixel>, newColor: Pixel, k: int)
    requires 0 <= k < |pixels|
    ensures pixels[k] == Black ==> Recoloured(pixels, newColor)[k] == newColor
    ensures pixels[k] != Black ==> Recoloured(pixels, newColor)[k] == pixels[k]
  {
  }

  /** A second pass with the same colour changes nothing. */
  lemma RecolourIdempotent(pixels: seq<Pixel>, newColor: Pixel)
    ensures Recoloured(Recoloured(pixels, newColor), newColor) == Recoloured(pixels, newColor)
  {
  }

  /** The loop of `qrcode` over `buffer.pixels_mut()`, rewriting black pixels in place. */
  method RecolourBlack(buffer: array<Pixel>, newColor: Pixel)
    modifies buffer
    ensures buffer[..] == Recoloured(old(buffer[..]), newColor)
  {
    for i := 0 to buffer.Length
      invariant forall k :: 0 <= k < i ==> buffer[k] == RecolourPixel(old(buffer[k]), newColor)
      invariant forall k :: i <= k < buffer.Length ==> buffer[k] == old(buffer[k])
    {
      if buffer[i] == Black {
        buffer[i] := newColor;
      }
    }
  }
}
