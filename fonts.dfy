/** The icon table of src/pdf/font_awesome/fonts.rs: icon names mapped to Font Awesome
    glyphs (private-use code points), built once and never changed. */
module Fonts {

  const Glyphs: map<string, string> := map[
    "cake" := "\U{F1FD}",
    "envelope" := "\U{F0E0}",
    "gitlab" := "\U{F296}",
    "github" := "\U{F09B}",
    "linkedin" := "\U{F08C}",
    "twitter" := "\U{F099}",
    "phone" := "\U{F095}",
    "map-marker" := "\U{F041}"
  ]

  predicate IsLowerCase(name: string)
  {
    forall k :: 0 <= k < |name| ==> !('A' <= name[k] <= 'Z')
  }

  /** The table holds exactly these eight names. */
  lemma GlyphNames()
    ensures Glyphs.Keys == {"cake", "envelope", "gitlab", "github", "linkedin", "twitter", "phone", "map-marker"}
  {
  }

  /** The eight names are distinct: the table has eight entries. */
  lemma GlyphCount()
    ensures |Glyphs| == 8
  {
    var low, high := {"cake", "envelope", "gitlab", "github"}, {"linkedin", "twitter", "phone", "map-marker"};
    GlyphNames();
    assert |low| == 4 && |high| == 4;
    assert low !! high;
    assert Glyphs.Keys == low + high;
  }

  /** Every name in the table is lower case, and every glyph is a single character. */
  lemma GlyphNamesLowerCase()
    ensures forall name :: name in Glyphs ==> IsLowerCase(name) && |Glyphs[name]| == 1
  {
  }

  /** No two names share a glyph. */
  lemma GlyphsDistinct()
    ensures forall a, b :: a in Glyphs && b in Glyphs && a != b ==> Glyphs[a] != Glyphs[b]
  {
  }

  /** Names outside the set, such as another network or a capitalised name, are absent. */
  lemma NamesOutsideTable()
    ensures "facebook" !in Glyphs && "GitHub" !in Glyphs && "" !in Glyphs
  {
  }
}
