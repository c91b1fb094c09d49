# Résumé page layout, modelled in Dafny

This project models the layout core of a résumé-to-PDF generator written in Rust: the
code that decides what the single A4 page looks like. A `Pdf` object holds the parsed
résumé and the page's drawing layer. `save` draws the left column and then the right
column. The left column holds the accent background, the profile picture, a QR code of the
website, the bio, contact details, social profiles, spoken languages and skills. The right
column holds a timeline of work and education, with a vertical spine, one marker per event
and two text blocks beside each marker.

The PDF library's layer is modelled as an append-only trace of the calls made on it
(`Canvas.Layer`, whose `Emit` appends one `Op`). The model has two halves:

- For every drawing method, a function gives the operations it appends, or the error it
  stops with (modules `Sidebar`, `TimelineLayout`, `Text`, `FontAwesome`, `Document`).
- The imperative methods of the `Pdf` class (module `Pdf`), like `Timeline.Timeline` and
  `Colour.RecolourBlack`, change the layer, the event list or the pixel buffer step by
  step. Each is proved to append exactly what its function describes.

Properties of the page are then lemmas about those functions:

- the order of the sections;
- which texts are written;
- which shapes are drawn and where;
- when drawing fails.

Modules, one per part of the source:

| module | source | form |
|---|---|---|
| `Strings` | the Rust `str` operations the layout uses | functions and lemmas |
| `Colour` | src/pdf/image.rs | functions, and an in-place array method for the recolour loop |
| `Shape` | src/pdf/shape.rs | function and lemma |
| `Canvas` | the printpdf layer | a class with an append-only trace |
| `Fonts` | src/pdf/font_awesome/fonts.rs | a constant map |
| `FontAwesome` | src/pdf/font_awesome/mod.rs | functions and the `PrintIcon` method |
| `Text` | src/pdf/text.rs | what the text helpers draw |
| `Page` | constants of src/pdf/mod.rs, plus the foreign libraries as parameters | data |
| `Resume` | record shapes of src/resume.rs | datatypes |
| `Timeline` | src/pdf/timeline.rs | a class with an event list, and an in-place stable insertion sort |
| `Sidebar` | the left column of src/pdf/mod.rs | functions and lemmas |
| `TimelineLayout` | the right column of src/pdf/mod.rs | functions and lemmas |
| `Document` | the whole page as `save` draws it | functions and lemmas |
| `Pdf` | the `Pdf` methods of src/pdf/mod.rs and src/pdf/text.rs | a class whose methods append to the layer |

The icon table of src/pdf/font_awesome/fonts.rs stores each glyph as one private-use
code point (for example U+F1FD for "cake"); read as cp1251, its UTF-8 bytes show as three
characters. The model holds the decoded code points.

Several foreign libraries and environment values are fields of
`Page.Collaborators`, which the model takes as given functions:

- `textwrap::fill`;
- chrono's date formats;
- today's date;
- image decoding;
- the QR-code generator.

## Model

| member | source | states |
|---|---|---|
| Strings.Split | src/pdf/text.rs:51 | `split('\n')` yields at least one piece |
| Strings.SplitPiecesFree | src/pdf/text.rs:51 | no piece of a split holds the separator |
| Strings.JoinSplit | src/pdf/text.rs:51 | joining the pieces of a split with the separator gives back the string |
| Strings.SplitJoin | src/pdf/text.rs:51 | splitting the join of separator-free pieces gives back the pieces |
| Strings.SplitIsSingleIff | src/pdf/text.rs:51 | a string splits into one piece exactly when it lacks the separator |
| Strings.TrimMeaning | src/pdf/mod.rs:444 | `trim` keeps an infix that neither starts nor ends with whitespace, and drops only whitespace around it |
| Strings.TrimStartShape | src/pdf/mod.rs:444 | `trim_start` keeps a suffix not starting with whitespace and drops only whitespace |
| Strings.TrimEndShape | src/pdf/mod.rs:444 | `trim_end` keeps a prefix not ending with whitespace and drops only whitespace |
| Strings.WordsShape | src/pdf/mod.rs:113 | every word of `split_whitespace` is a non-empty run without whitespace |
| Strings.WordsFrom | src/pdf/mod.rs:113 | every character of a word comes from the string |
| Strings.NoLowerAfterUpper | src/pdf/mod.rs:112 | an upper-cased string holds no ASCII lower-case letter |
| Strings.Utf8Len | src/pdf/mod.rs:252 | `len` counts UTF-8 bytes: at least the number of characters, and equal to it for ASCII |
| Strings.PadRight | src/pdf/mod.rs:264 | `{:<width$}` keeps the text, pads it with spaces, and has length max(width, len) |
| Strings.DigitsRoundTrip | src/pdf/mod.rs:201-205 | the decimal digits of the age read back as the number |
| Strings.IntToStringMeaning | src/pdf/mod.rs:201-205 | a formatted integer is a sign, for negatives only, followed by digits that denote its magnitude |
| Colour.ToRgbKinds | src/pdf/image.rs:30-42 | RGB is returned unchanged, grey fills all three channels, and a spot colour converts as the CMYK colour with the same inks |
| Colour.ToRgbInUnit | src/pdf/image.rs:30-51 | with every input channel in [0, 1], every RGB channel is in [0, 1] |
| Colour.CmykCorners | src/pdf/image.rs:44-51 | no ink gives white, full key gives black, and yellow alone removes only blue, so `y` and `k` are not swapped |
| Colour.ByteOf | src/pdf/image.rs:16-20 | the `as u8` cast clamps to [0, 255] and truncates toward zero |
| Colour.RecolouredPixels | src/pdf/image.rs:21-25 | every black pixel takes the new colour and every other pixel is unchanged |
| Colour.RecolourIdempotent | src/pdf/image.rs:21-25 | a second recolour pass with the same colour changes nothing |
| Colour.RecolourBlack | src/pdf/image.rs:21-25 | the in-place loop leaves the buffer equal to the recoloured original |
| Shape.RectanglePoints | src/pdf/shape.rs:2-24 | exactly four points |
| Shape.RectangleCorners | src/pdf/shape.rs:2-24 | the corners run top-left, top-right, bottom-right, bottom-left around a box of the given size, and none is a control point |
| Canvas.UnitConversion | src/pdf/mod.rs:315-317 | with the ideal ratio 72/25.4 (the conversion itself is printpdf's `Mm` to `Pt`), millimetres convert to points and back without loss, keeping order |
| Canvas.Layer.Emit | src/pdf/mod.rs:50 | a drawing call appends one operation and keeps the earlier ones |
| Fonts.GlyphNames | src/pdf/font_awesome/fonts.rs:6-13 | the table holds exactly the eight icon names |
| Fonts.GlyphCount | src/pdf/font_awesome/fonts.rs:6-13 | the table has eight entries |
| Fonts.GlyphNamesLowerCase | src/pdf/font_awesome/fonts.rs:6-13 | every key is lower case and every glyph is one character (the decoded private-use code point; see the note above the table) |
| Fonts.GlyphsDistinct | src/pdf/font_awesome/fonts.rs:6-13 | no two names share a glyph |
| Fonts.NamesOutsideTable | src/pdf/font_awesome/fonts.rs:3-16 | "facebook", "GitHub" and "" are absent |
| FontAwesome.MessageNamesFont | src/pdf/font_awesome/mod.rs:20-23 | the message is "Unknown font: " followed by the name, so it determines the error |
| FontAwesome.Resolve | src/pdf/font_awesome/mod.rs:51 | the lookup succeeds exactly for a table name, with its glyph, and otherwise fails with that name |
| FontAwesome.ResolveCases | src/pdf/font_awesome/mod.rs:51 | the lookup is exact and case sensitive: "github" resolves and "GitHub" does not |
| FontAwesome.PrintIconCases | src/pdf/font_awesome/mod.rs:44-57 | an unknown name fails with its name; a known name draws the fill colour, then the printer's font, then the glyph |
| FontAwesome.FontAwesome.PrintIcon | src/pdf/font_awesome/mod.rs:44-57 | looks up first: on failure the layer is unchanged, on success exactly the three operations are appended |
| Text.SocialColourTable | src/pdf/text.rs:12-18 | twitter, linkedin and gitlab have their brand colours; github and every other name take the secondary colour |
| Text.SocialIconCases | src/pdf/text.rs:7-21 | the icon fails exactly for a name missing from the table, and otherwise starts with the network's colour |
| Text.LinesOpsAt | src/pdf/text.rs:51-54 | line k is written at position 2k and followed by a line break |
| Text.LinesOpsTexts | src/pdf/text.rs:51-54 | the texts written are exactly the lines, with one line break per line |
| Text.LinesOpsFont | src/pdf/text.rs:52 | every line is written in the font given |
| Text.BoundedOpsMeaning | src/pdf/text.rs:50-55 | the written lines, joined with newlines, are the wrapped text; one line break per line, and no line holds a newline |
| Text.UnderlineGeometry | src/pdf/text.rs:23-48 | the heading is written once at the offset, then one filled, unstroked bar 2 pt high, `font_size` pt below the baseline, as wide as the column less twice the offset |
| Sidebar.BackgroundCoversColumn | src/pdf/mod.rs:486-502 | one accent rectangle from the page's bottom-left corner to the top of the left column, with no text |
| Sidebar.ProfilePicture | src/pdf/mod.rs:349-378 | the column starts 74.5 mm down exactly when the picture is given and decodes, drawn as one image at the top-left corner; otherwise 15 mm and nothing is drawn |
| Sidebar.QrCodeImage | src/pdf/mod.rs:477-484 | fails exactly when there is a website and the generator fails; otherwise draws one image whose black modules take the accent colour (16, 28, 25) |
| Sidebar.SectionsStacked | src/pdf/mod.rs:103-279 | the section baselines (bio +10, info +35, social +73, languages +110, skills +150 mm) go down the page in drawing order and stay on it |
| Sidebar.BioTexts | src/pdf/mod.rs:99-123 | the bio writes the words of the upper-cased name, one per line, then the headline |
| Sidebar.UpperWords | src/pdf/mod.rs:109-117 | no word of the name as written holds a lower-case ASCII letter |
| Sidebar.InfoIconsKnown | src/pdf/mod.rs:138-192 | the four contact icons are in the table, so the `?` after each `print_icon` never returns |
| Sidebar.AgeBounds | src/pdf/mod.rs:193-198 | the age is the number of whole 364-day years since the birthday, and 0 for a birthday less than a year ahead |
| Sidebar.OptionalRowCases | src/pdf/mod.rs:151-208 | a present contact line writes the icon's glyph and its text after one line break; an absent one draws nothing |
| Sidebar.InfoLines | src/pdf/mod.rs:125-211 | the section writes the "Info" heading, the envelope glyph and the e-mail, then in order the phone, the location when the city is known, and the birthday with the age, each after its icon's glyph; one line break per optional line after the heading's two |
| Sidebar.ContactTexts | src/pdf/mod.rs:151-208 | the optional contact lines write phone, location (city known) and birthday, in that order, each after its glyph |
| Sidebar.ProfileRowCases | src/pdf/mod.rs:223-231 | a profile line fails exactly for a network not in the table in lower case, with that name; otherwise it adds one line break |
| Sidebar.ProfilesSucceed | src/pdf/mod.rs:223-231 | the profile lines succeed exactly when every network has an icon, with one line per profile |
| Sidebar.ProfilesFirstFailure | src/pdf/mod.rs:223-231 | a failure names the first profile whose network has no icon |
| Sidebar.ProfilesPrefixFailure | src/pdf/mod.rs:223-231 | once a profile fails, no later profile is drawn |
| Sidebar.ProfilesOutcome | src/pdf/mod.rs:213-234 | the social section fails exactly when some network is unknown, naming the first one; otherwise one line per profile |
| Sidebar.NetworkCaseInsensitive | src/pdf/mod.rs:225-226 | "GitHub" gets the github icon and "Mastodon" stops the drawing with "mastodon" |
| Sidebar.MaxNameLength | src/pdf/mod.rs:248-255 | the longest language name in bytes: no name is longer, some name has that length, and 0 without languages |
| Sidebar.LanguageRowsAligned | src/pdf/mod.rs:257-271 | each padded name is as long as the column, keeps the name, and ends in at least four spaces, so the fluencies line up |
| Sidebar.LanguageRowsLines | src/pdf/mod.rs:257-271 | each language adds one line break |
| Sidebar.SkillRowTexts | src/pdf/mod.rs:287-297 | a skill writes "- name", then the lines of its joined keywords, which rejoined with newlines give the wrapped list |
| Timeline.FromWork | src/pdf/timeline.rs:49-60 | a work event takes company, position, summary, highlights and dates |
| Timeline.FromEducation | src/pdf/timeline.rs:63-74 | an education event's label is "study type in area", with no summary and the courses as highlights |
| Timeline.FromWorkLosesOnlyWebsite | src/pdf/timeline.rs:49-60 | a work event determines its record except for the website |
| Timeline.FromEducationLabelAmbiguous | src/pdf/timeline.rs:70 | two different education records can give the same label |
| Timeline.FromWorkNeverEducation | src/pdf/timeline.rs:49-74 | an event from a work record is never an event from an education record |
| Timeline.CompareIsTotalPreorder | src/pdf/timeline.rs:39-44 | the comparator is a total preorder, so the `unwrap`s never panic |
| Timeline.KeyOfMeaning | src/pdf/timeline.rs:39-44 | two events compare equal exactly when they have the same sort key |
| Timeline.Insert | src/pdf/timeline.rs:39-44 | inserting adds exactly the new event |
| Timeline.SortEvents | src/pdf/timeline.rs:39-44 | the sort is a permutation |
| Timeline.SortEventsSorted | src/pdf/timeline.rs:39-44 | the output is sorted |
| Timeline.SortEventsStable | src/pdf/timeline.rs:39-44 | events with equal keys keep their insertion order |
| Timeline.SortEventsMeaning | src/pdf/timeline.rs:39-44 | the output is sorted and stable |
| Timeline.SortedOrder | src/pdf/timeline.rs:39-44 | ongoing events come first, ongoing ones by start date and dated ones by end date, most recent first |
| Timeline.InsertLast | src/pdf/timeline.rs:39 | one insertion step in place puts the element where `Insert` does and leaves the rest of the array alone |
| Timeline.SortInPlace | src/pdf/timeline.rs:39-44 | the in-place sort leaves the array equal to the stable sort of its contents |
| Timeline.Timeline.Add | src/pdf/timeline.rs:33-35 | appends the event at the end, leaving earlier events unchanged |
| Timeline.Timeline.Events | src/pdf/timeline.rs:37-46 | returns a sorted, stable permutation of the stored events, which stay as they were |
| Timeline.SortPair | src/pdf/timeline.rs:39-44 | two events already in order stay in order |
| Timeline.SortExample | src/pdf/timeline.rs:39-44 | ongoing events by start date, then dated ones: C, A, B |
| TimelineLayout.WorkEvents | src/pdf/mod.rs:304-307 | one event per work record, in order |
| TimelineLayout.EducationEvents | src/pdf/mod.rs:309-312 | one event per education record, in order |
| TimelineLayout.TimelineEventsMeaning | src/pdf/mod.rs:302-314 | every record becomes exactly one event, in sorted order, and there are none exactly when there is neither work nor education |
| TimelineLayout.SpineLengthFromSlot | src/pdf/mod.rs:319-321 | the spine's length is (n − 1) slot heights |
| TimelineLayout.SlotGeometry | src/pdf/mod.rs:315-321 | slots go down evenly one event height apart, from the top slot to the spine's bottom end, which is one event height above the page bottom |
| TimelineLayout.MarkerShapes | src/pdf/mod.rs:399-423 | no shape when merged, outer and inner circle for work, one circle for education |
| TimelineLayout.MarkerFills | src/pdf/mod.rs:399-423 | the work ring is filled with the secondary colour, and the dot or education disc with the primary colour |
| TimelineLayout.MarkerPlain | src/pdf/mod.rs:399-423 | a marker writes no text |
| TimelineLayout.InstitutionRebuilt | src/pdf/mod.rs:438-440 | the name holds no comma, and name + "," + location rebuilds an institution that has one |
| TimelineLayout.InstitutionTexts | src/pdf/mod.rs:437-446 | an unmerged event writes the name's lines, then the trimmed location's when it is not empty |
| TimelineLayout.HeaderTexts | src/pdf/mod.rs:424-456 | the first block writes the institution unless merged, the title, then "start - end" with "Today" for an ongoing event |
| TimelineLayout.DetailShapes | src/pdf/mod.rs:458-474 | the second block draws no shape |
| TimelineLayout.EventShapes | src/pdf/mod.rs:380-475 | an event's only shapes are its marker's |
| TimelineLayout.TimelineEventAt | src/pdf/mod.rs:332-345 | within the timeline, event i follows the spine and events 0..i−1, drawn at slot i's height and merged exactly when event i − 1 has the same institution |
| TimelineLayout.EmptyTimelinePanics | src/pdf/mod.rs:321 | with neither work nor education, the timeline as written (overflow checks on) fails before drawing anything |
| TimelineLayout.TimelineOpsCorrected | src/pdf/mod.rs:301-347 | the corrected timeline draws nothing exactly for no events, and otherwise agrees with the source |
| TimelineLayout.EventsOnSpine | src/pdf/mod.rs:333-346 | every event shape is a marker centred on the spine |
| TimelineLayout.SpineClearOfColumn | src/pdf/mod.rs:315 | markers on the spine stay clear of the left column |
| TimelineLayout.TimelineShapeList | src/pdf/mod.rs:323-346 | the timeline draws the spine, then the events' shapes |
| TimelineLayout.TimelineShapes | src/pdf/mod.rs:301-347 | the first shape is the spine, and every other is a marker centred on it, between its ends |
| Document.DocumentOutcome | src/pdf/mod.rs:80-97 | the page with the corrected timeline fails exactly on a QR failure or an unknown network; the QR failure comes first, otherwise the first unknown network is named |
| Document.DocumentOutcomeAsWritten | src/pdf/mod.rs:80-97 | the page as written fails exactly on a QR failure, an unknown network, or neither work nor education; the last only after the column is drawn, and any other résumé gives the corrected page |
| Document.DocumentBegins | src/pdf/mod.rs:82 | a drawn page starts with the background, its first shape |
| Document.DocumentBioFirst | src/pdf/mod.rs:82-86 | the first texts of a page are the name's words, then the headline |
| Document.DocumentEndsWithTimeline | src/pdf/mod.rs:93 | the page ends with the corrected timeline, which is empty exactly with neither work nor education |
| Pdf.Pdf.WriteBounded | src/pdf/text.rs:50-55 | appends the wrapped text line by line |
| Pdf.Pdf.WriteLines | src/pdf/text.rs:51-54 | each loop step appends one line and one line break |
| Pdf.Pdf.WriteUnderlinedText | src/pdf/text.rs:23-48 | appends the heading and its bar |
| Pdf.Pdf.WriteSocialIcon | src/pdf/text.rs:7-21 | appends the icon in the network's colour, or returns the printer's error with the layer unchanged |
| Pdf.Pdf.DrawLeftBackground | src/pdf/mod.rs:486-502 | appends the background |
| Pdf.Pdf.AddProfilePicture | src/pdf/mod.rs:349-378 | appends the picture and returns the column's start |
| Pdf.Pdf.SocialQrCode | src/pdf/mod.rs:477-484 | appends the recoloured code, or returns the generator's failure with the layer unchanged |
| Pdf.Pdf.WriteBio | src/pdf/mod.rs:99-123 | appends the bio |
| Pdf.Pdf.WriteContact | src/pdf/mod.rs:138-149 | appends one contact line |
| Pdf.Pdf.WriteInfo | src/pdf/mod.rs:125-211 | appends the contact section |
| Pdf.Pdf.WriteProfile | src/pdf/mod.rs:223-231 | appends one profile line, or names the unknown network |
| Pdf.Pdf.WriteSocial | src/pdf/mod.rs:213-234 | appends the social section, or stops at the first unknown network |
| Pdf.Pdf.LanguageWidth | src/pdf/mod.rs:248-255 | the loop computes the longest name plus four |
| Pdf.Pdf.WriteLanguages | src/pdf/mod.rs:236-273 | appends the languages section |
| Pdf.Pdf.WriteSkills | src/pdf/mod.rs:275-299 | appends the skills section |
| Pdf.Pdf.DrawMarker | src/pdf/mod.rs:399-423 | appends the event's marker |
| Pdf.Pdf.WriteEventHeader | src/pdf/mod.rs:424-456 | appends the first text block |
| Pdf.Pdf.WriteEventDetail | src/pdf/mod.rs:458-474 | appends the second text block |
| Pdf.Pdf.WriteEvent | src/pdf/mod.rs:380-475 | appends the marker and both blocks in event i's slot |
| Pdf.Pdf.CollectEvents | src/pdf/mod.rs:302-314 | adds work then education events to a timeline and reads them back sorted |
| Pdf.Pdf.WriteTimeline | src/pdf/mod.rs:301-347 | appends the spine, then each event merged exactly when it shares the previous institution; nothing without events (the corrected behaviour) |
| Pdf.Pdf.Save | src/pdf/mod.rs:80-97 | appends the whole page (with the corrected timeline) in the source's order, or returns the QR failure or the first unknown network |

## Left out

- File output (`doc.save`, `File::create`) and logging: I/O.
- Font embedding in `Pdf::new` and its `Result`: printpdf internals. The constructor always succeeds.
- Image scaling, DPI and the circle outline points (`calculate_points_for_circle`): printpdf internals. Circles are kept as radius and centre.
- `textwrap::fill`, chrono date formatting, today's date, `image::open` and the QR-code generator: foreign code or environment. They are fields of `Page.Collaborators`.
- Sidebar.AgeBounds: models the source's 364-day year (`num_weeks() / 52`) as written, not calendar age.
- Strings.ToUpper, Strings.ToLower: map only ASCII letters. Full Unicode case mapping is not modelled.
- IEEE floating point: geometry and colour arithmetic are over `real`.
- Pdf.Pdf.WriteSocial: the source panics at `unwrap` for a network without an icon. The model returns `UnknownNetwork` instead, and does not state the layer's contents after that failure.
- Pdf.Pdf.WriteProfile: on failure the contract does not state the layer's contents.
- Pdf.Pdf.Save: on failure the contract names the error but not the partial trace. The file is not written in that case.
- Pdf.Pdf.Save: draws the page with the corrected timeline, so a résumé with neither work nor education succeeds without a timeline where the source as written panics at src/pdf/mod.rs:321 (see "Findings"; `Document.PageOpsAsWritten` and `Document.DocumentOutcomeAsWritten` model the source's outcome).
- Pdf.Pdf.WriteTimeline: returns without drawing for no events, the corrected behaviour; the source's underflow is `TimelineLayout.TimelineOpsAsWritten`.
- Document.DocumentOutcome: describes the corrected page, which does not fail for a résumé with neither work nor education; the source's outcome is `Document.DocumentOutcomeAsWritten`.
- Document.DocumentEndsWithTimeline: the empty timeline it admits is the corrected one; as written, that résumé fails instead.
- A release build of the source (no overflow checks), where `0usize - 1` wraps and the spine is drawn at non-finite coordinates: the as-written members assume overflow checks, as in a debug build.
- The `?` after each `print_icon` in `write_info`: it can never fire (`Sidebar.InfoIconsKnown`), so `WriteInfo` has no error path.
- The résumé's parsing and the CLI: the résumé is taken as already-parsed records.

## Findings

| source | as written | input that shows it | evidently intended | confidence | as-written member | corrected member |
|---|---|---|---|---|---|---|
| src/pdf/mod.rs:321 | `events.len() - 1` is a `usize` subtraction, which underflows for no events: a panic with overflow checks on (debug build); in a release build it wraps, the event height `top_y / 0` (line 319) is infinite and the spine is drawn at non-finite coordinates | a résumé with no work and no education | no timeline is drawn when there are no events | medium, not executed; the as-written member models the debug build | TimelineLayout.EmptyTimelinePanics | TimelineLayout.TimelineOpsCorrected |
