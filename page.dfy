/** The fixed page geometry and colours of src/pdf/mod.rs, and the foreign libraries the
    layout calls, which this model takes as given functions. */
module Page {
  import opened Wrappers
  import opened Colour
  import opened Canvas
  import opened Resume

  // Page and column sizes, in millimetres.
  const DOC_WIDTH: real := 210.0
  const DOC_HEIGHT: real := 297.0
  const PROFILE_SIZE: real := 74.5
  const PROFILE_X_OFFSET: real := 5.0
  const PROFILE_Y_OFFSET: real := PROFILE_SIZE
  const LEFT_COLUMN_SIZE: real := PROFILE_SIZE
  const RIGHT_COLUMN_HEIGHT: real := 74.5

  /** The radius of a timeline marker, in points. */
  const RADIUS: real := 5.0

  const DPI: real := 300.0

  const INFO: string := "Info"
  const LANGUAGES: string := "Spoken languages"
  const SOCIALS: string := "Social"
  const SKILLS: string := "Skills"

  /** The accent colour of the sidebar, the spine and the markers. */
  const PRIMARY: Color := Cmyk(0.78, 0.62, 0.66, 0.71)

  /** The contrasting colour used on the accent background. */
  const SECONDARY: Color := RgbColor(Rgb(1.0, 1.0, 1.0))

  /** The libraries and the environment the layout calls and this model does not:
      `textwrap::fill`, chrono's "%b %Y" and "%d %b %Y" date formats, today's date
      from the wall clock, `image::open` for the profile picture, and the QR-code
      generator (the pixels of a square image of the given size, or nothing when it
      fails). */
  datatype Collaborators = Collaborators(
    fill: (string, nat) -> string,
    monthYear: Date -> string,
    dayMonthYear: Date -> string,
    today: Date,
    decode: string -> Option<Bitmap>,
    qrEncode: (string, nat) -> Option<seq<Pixel>>)
}
