/** The left column of the page, drawn by src/pdf/mod.rs: the accent background, the
    profile picture, the website's QR code, and the bio, contact, social, language and
    skill sections stacked under the picture. Each section is given as the operations
    it appends to the layer. */
module Sidebar {
  import opened Wrappers
  import opened Colour
  import opened Shape
  import opened Canvas
  import opened Strings
  import opened Resume
  import opened Page
  import opened Fonts
  import opened FontAwesome
  import opened Text
  import opened Seqs

  /** Why drawing the page stops: the QR-code generator failed on the website (an
      error `save` returns), a profile names a network without an icon (the panic of
      `unwrap` in `write_social`), or the timeline has no event (the panic of the
      `usize` subtraction in `write_timeline`, as the source is written and built with
      overflow checks). */
  datatype LayoutError =
    | QrCodeFailure(url: string)
    | UnknownNetwork(network: string)
    | EmptyTimeline

  // ---------------------------------------------------------------- background

  /** The accent rectangle behind the whole left column, in points. */
  function BackgroundBox(): Line
  {
    Line(Polygon(RectanglePoints(0.0, 0.0, MmToPt(LEFT_COLUMN_SIZE), MmToPt(DOC_HEIGHT))), true, true, false, false)
  }

  /** `draw_left_background`. */
  function BackgroundOps(): seq<Op>
  {
    [SetFill(PRIMARY), AddShape(BackgroundBox())]
  }

  /** The background is one filled, unstroked rectangle in the accent colour covering
      the column from the page's bottom-left corner to its top, and writes no text. */
  lemma BackgroundCoversColumn()
    ensures Shapes(BackgroundOps()) == [BackgroundBox()] && Texts(BackgroundOps()) == []
    ensures BackgroundOps()[0] == SetFill(PRIMARY)
    ensures var box := BackgroundBox();
      && box.hasFill && !box.hasStroke && box.path.Polygon?
      && |box.path.points| == 4
      && box.path.points[3].0 == Point(0.0, 0.0)
      && box.path.points[1].0 == Point(MmToPt(LEFT_COLUMN_SIZE), MmToPt(DOC_HEIGHT))
  {
    var last := [AddShape(BackgroundBox())];
    assert last[1..] == [] && BackgroundOps()[1..] == last;
    assert Shapes(last) == [BackgroundBox()] && Texts(last) == [];
  }

  // ---------------------------------------------------------------- profile picture

  /** The height the picture takes at the top of the column: the picture's size when
      it is given and decodes, 15 mm otherwise. */
  function PictureStart(basics: Basics, ext: Collaborators): real
  {
    match basics.picture
    case None => 15.0
    case Some(path) => if ext.decode(path).Some? then RIGHT_COLUMN_HEIGHT else 15.0
  }

  /** `add_profile_picture`: the decoded picture, placed against the top-left corner. */
  function PictureOps(basics: Basics, ext: Collaborators): seq<Op>
  {
    match basics.picture
    case None => []
    case Some(path) =>
      match ext.decode(path)
      case None => []
      case Some(bitmap) => [AddImage(Photo(bitmap), Some(0.0), Some(DOC_HEIGHT - PROFILE_Y_OFFSET))]
  }

  /** Either the picture is drawn and the column starts below it, or nothing is drawn
      and the column starts 15 mm from the top; a drawn picture's top edge is the top
      of the page. */
  lemma ProfilePicture(basics: Basics, ext: Collaborators)
    ensures PictureStart(basics, ext) == 15.0 || PictureStart(basics, ext) == RIGHT_COLUMN_HEIGHT
    ensures PictureOps(basics, ext) != [] <==> PictureStart(basics, ext) == RIGHT_COLUMN_HEIGHT
    ensures PictureOps(basics, ext) != [] <==> basics.picture.Some? && ext.decode(basics.picture.value).Some?
    ensures PictureOps(basics, ext) != [] ==>
      && |PictureOps(basics, ext)| == 1
      && PictureOps(basics, ext)[0].AddImage?
      && PictureOps(basics, ext)[0].image == Photo(ext.decode(basics.picture.value).value)
      && PictureOps(basics, ext)[0].left == Some(0.0)
      && PictureOps(basics, ext)[0].bottom.value + PROFILE_SIZE == DOC_HEIGHT
    ensures Texts(PictureOps(basics, ext)) == [] && Shapes(PictureOps(basics, ext)) == []
  {
    var ops := PictureOps(basics, ext);
    if ops != [] {
      assert ops[1..] == [];
    }
  }

  // ---------------------------------------------------------------- QR code

  /** The size in pixels the QR code is generated at. */
  const QR_SIZE: nat := 150

  /** The accent colour as the QR code's dark modules take it. */
  function QrColour(): Pixel
  {
    PixelOf(ToRgb(PRIMARY))
  }

  /** `social_qr_code`: nothing without a website; otherwise the generated code with its
      black modules recoloured, at the layer's default position, or the generator's
      failure. */
  function QrOps(basics: Basics, ext: Collaborators): Result<seq<Op>, LayoutError>
  {
    match basics.website
    case None => Success([])
    case Some(url) =>
      match ext.qrEncode(url, QR_SIZE)
      case None => Failure(QrCodeFailure(url))
      case Some(pixels) => Success([AddImage(QrCode(Recoloured(pixels, QrColour())), None, None)])
  }

  /** The accent colour comes out as (16, 28, 25), so no module of the drawn code is
      left black, and every other pixel keeps its colour. */
  lemma QrCodeImage(basics: Basics, ext: Collaborators)
    ensures QrColour() == Pixel(16, 28, 25)
    ensures QrOps(basics, ext).Failure? <==> basics.website.Some? && ext.qrEncode(basics.website.value, QR_SIZE).None?
    ensures QrOps(basics, ext).Failure? ==> QrOps(basics, ext).error == QrCodeFailure(basics.website.value)
    ensures QrOps(basics, ext).Success? && basics.website.Some? ==>
      var pixels := ext.qrEncode(basics.website.value, QR_SIZE).value;
      && QrOps(basics, ext).value == [AddImage(QrCode(Recoloured(pixels, QrColour())), None, None)]
      && (forall k :: 0 <= k < |pixels| ==> Recoloured(pixels, QrColour())[k] != Black)
      && (forall k :: 0 <= k < |pixels| && pixels[k] != Black ==> Recoloured(pixels, QrColour())[k] == pixels[k])
  {
    var rgb := ToRgb(PRIMARY);
    assert rgb == Rgb(0.22 * 0.29, 0.38 * 0.29, 0.34 * 0.29);
    assert ByteOf(rgb.r * 255.0) == 16;
    assert ByteOf(rgb.g * 255.0) == 28;
    assert ByteOf(rgb.b * 255.0) == 25;
  }

  // ---------------------------------------------------------------- section offsets

  /** The baselines of the column's sections, in millimetres from the bottom of the page,
      for a column that starts `start` millimetres below the top. */
  function BioY(start: real): real { DOC_HEIGHT - (start + 10.0) }
  function InfoY(start: real): real { DOC_HEIGHT - (start + 35.0) }
  function SocialY(start: real): real { DOC_HEIGHT - (start + 25.0 + 48.0) }
  function LanguagesY(start: real): real { DOC_HEIGHT - (start + 25.0 + 85.0) }
  function SkillsY(start: real): real { DOC_HEIGHT - (start + 25.0 + 85.0 + 40.0) }

  /** Whatever the picture does, the sections come in order from the top of the page,
      the bio starts below the picture, and the last section is still on the page. */
  lemma SectionsStacked(basics: Basics, ext: Collaborators)
    ensures var start := PictureStart(basics, ext);
      && DOC_HEIGHT - start > BioY(start) > InfoY(start) > SocialY(start) > LanguagesY(start) > SkillsY(start) > 0.0
      && (PictureOps(basics, ext) != [] ==> BioY(start) < DOC_HEIGHT - PROFILE_SIZE)
  {
    ProfilePicture(basics, ext);
  }

  // ---------------------------------------------------------------- bio

  /** `write_bio`: the upper-cased name one word per line in bold, then the headline. */
  function BioOps(basics: Basics, start: real): seq<Op>
  {
    BioHead(start) + LinesOps(Words(ToUpper(basics.name)), Bold) + BioTail(basics.headline)
  }

  function BioHead(start: real): seq<Op>
  {
    [SetFill(RgbColor(Rgb(1.0, 1.0, 1.0))), BeginTextSection, SetFont(Bold, 20.0),
     SetTextCursor(PROFILE_X_OFFSET, BioY(start)), SetLineHeight(18.0)]
  }

  function BioTail(headline: string): seq<Op>
  {
    [SetFont(Regular, 10.0), WriteText(headline, Regular), EndTextSection]
  }

  lemma BioPieces(start: real, headline: string)
    ensures Texts(BioHead(start)) == [] && LineBreaks(BioHead(start)) == 0
    ensures Texts(BioTail(headline)) == [headline] && LineBreaks(BioTail(headline)) == 0
  {
    var tail := BioTail(headline);
    NoTexts(BioHead(start));
    NoLineBreaks(BioHead(start));
    NoLineBreaks(tail);
    Cons(tail[0], tail[1..]);
    Cons(tail[1], tail[2..]);
    NoTexts(tail[2..]);
  }

  /** The words of an upper-cased name hold no ASCII lower-case letter. */
  lemma UpperWords(name: string, k: nat, c: char)
    requires k < |Words(ToUpper(name))| && c in Words(ToUpper(name))[k]
    ensures !('a' <= c <= 'z')
  {
    WordsFrom(ToUpper(name), k, c);
    NoLowerAfterUpper(name, c);
  }

  /** The bio writes exactly the words of the name, each a line of its own, and then
      the headline. */
  lemma BioTexts(basics: Basics, start: real)
    ensures var words := Words(ToUpper(basics.name));
      && Texts(BioOps(basics, start)) == words + [basics.headline]
      && LineBreaks(BioOps(basics, start)) == |words|
  {
    var words := Words(ToUpper(basics.name));
    var head, lines, tail := BioHead(start), LinesOps(words, Bold), BioTail(basics.headline);
    BioPieces(start, basics.headline);
    LinesOpsTexts(words, Bold);
    TextsAppend(head, lines);
    TextsAppend(head + lines, tail);
    LineBreaksAppend(head, lines);
    LineBreaksAppend(head + lines, tail);
  }

  // ---------------------------------------------------------------- contact details

  /** The four icons the contact section prints. */
  const INFO_ICONS: seq<string> := ["envelope", "phone", "map-marker", "cake"]

  /** Every icon of the contact section is in the table, so its `?`s never fire. */
  lemma InfoIconsKnown()
    ensures forall k :: 0 <= k < |INFO_ICONS| ==> PrintIconOps(Regular, INFO_ICONS[k], 12, SECONDARY).Success?
  {
    GlyphNames();
  }

  /** One contact line: the icon in the secondary colour, then the text in 9-point
      regular. */
  function InfoRow(icon: string, text: string): seq<Op>
    requires icon in Glyphs
  {
    IconOps(Regular, Glyphs[icon], 12, SECONDARY) + [SetFont(Regular, 9.0), WriteText(text, Regular)]
  }

  /** `signed_duration_since(..).num_weeks() / 52`: whole weeks, then whole 52-week
      years, both rounded toward zero as Rust's integer division does. */
  function Age(birthday: Date, today: Date): int
  {
    TruncDiv(TruncDiv(today - birthday, 7), 52)
  }

  function TruncDiv(a: int, b: nat): int
    requires b > 0
  {
    if a >= 0 then a / b else -((-a) / b)
  }

  /** The age counts 364-day years: it is the number of whole such years since the
      birthday, and zero for a birthday less than a year ahead. */
  lemma AgeBounds(birthday: Date, today: Date)
    ensures today >= birthday ==>
      Age(birthday, today) >= 0 && Age(birthday, today) * 364 <= today - birthday < (Age(birthday, today) + 1) * 364
    ensures today < birthday ==> Age(birthday, today) <= 0
    ensures birthday - 364 < today < birthday ==> Age(birthday, today) == 0
  {
    var d := today - birthday;
    var weeks := TruncDiv(d, 7);
    if d >= 0 {
      assert weeks * 7 <= d < weeks * 7 + 7;
      assert Age(birthday, today) * 52 <= weeks < Age(birthday, today) * 52 + 52;
    }
  }

  /** The birthday line: the date, then the age in years. */
  function BirthdayText(birthday: Date, ext: Collaborators): string
  {
    "    " + ext.dayMonthYear(birthday) + " (" + IntToString(Age(birthday, ext.today)) + "yo)"
  }

  /** The location line: the city, and the country code after a comma when there is one;
      nothing without a city. */
  function LocationText(location: Option<Location>): Option<string>
  {
    match location
    case Some(Location(Some(city), code)) =>
      Some("   " + city + (match code case None => "" case Some(code) => ", " + code))
    case _ => None
  }

  /** An optional contact line: a line break, then the row, when there is a text. */
  function OptionalRow(icon: string, text: Option<string>): seq<Op>
    requires icon in Glyphs
  {
    match text
    case None => []
    case Some(text) => [LineBreak] + InfoRow(icon, text)
  }

  /** The contact lines after the e-mail: phone, location and birthday, each when present. */
  function ContactRows(basics: Basics, ext: Collaborators): seq<Op>
  {
    InfoIconsKnown();
    assert INFO_ICONS[1] in Glyphs && INFO_ICONS[2] in Glyphs && INFO_ICONS[3] in Glyphs;
    OptionalRow("phone", match basics.phone case None => None case Some(phone) => Some("   " + phone))
    + OptionalRow("map-marker", LocationText(basics.location))
    + OptionalRow("cake", match basics.birthday case None => None case Some(day) => Some(BirthdayText(day, ext)))
  }

  /** `write_info`: the underlined heading, the e-mail line, then the optional lines. */
  function InfoOps(basics: Basics, start: real, ext: Collaborators): seq<Op>
  {
    InfoIconsKnown();
    assert INFO_ICONS[0] in Glyphs;
    InfoHead(start) + InfoRow("envelope", "   " + basics.email) + ContactRows(basics, ext) + [EndTextSection]
  }

  function InfoHead(start: real): seq<Op>
  {
    [SetFill(SECONDARY), BeginTextSection, SetLineHeight(18.0)]
    + UnderlinedOps(INFO, 12, PROFILE_X_OFFSET, InfoY(start))
    + [LineBreak, SetLineHeight(16.0), LineBreak]
  }

  lemma InfoHeadLines(start: real)
    ensures LineBreaks(InfoHead(start)) == 2
  {
    var a := [SetFill(SECONDARY), BeginTextSection, SetLineHeight(18.0)];
    var b := UnderlinedOps(INFO, 12, PROFILE_X_OFFSET, InfoY(start));
    var c := [LineBreak, SetLineHeight(16.0), LineBreak];
    NoLineBreaks(a);
    NoLineBreaks(b);
    Cons(c[0], c[1..]);
    Cons(c[1], c[2..]);
    Cons(c[2], c[3..]);
    assert c[3..] == [];
    LineBreaksAppend(a, b);
    LineBreaksAppend(a + b, c);
  }

  /** A contact line writes the icon's glyph, then its text. */
  lemma InfoRowTexts(icon: string, text: string)
    requires icon in Glyphs
    ensures Texts(InfoRow(icon, text)) == [Glyphs[icon], text]
  {
    var tail := [SetFont(Regular, 9.0), WriteText(text, Regular)];
    PrintIconCases(Regular, icon, 12, SECONDARY);
    TextsAppend(IconOps(Regular, Glyphs[icon], 12, SECONDARY), tail);
    Cons(tail[0], tail[1..]);
    Cons(tail[1], tail[2..]);
    assert tail[2..] == [];
  }

  /** A present contact line writes the icon's glyph and the text after one line break;
      an absent one draws nothing. */
  lemma OptionalRowCases(icon: string, text: Option<string>)
    requires icon in Glyphs
    ensures LineBreaks(OptionalRow(icon, text)) == if text.Some? then 1 else 0
    ensures Texts(OptionalRow(icon, text)) == if text.Some? then [Glyphs[icon], text.value] else []
  {
    if text.Some? {
      var row := InfoRow(icon, text.value);
      NoLineBreaks(row);
      Cons(LineBreak, row);
      InfoRowTexts(icon, text.value);
    }
  }

  /** The heading writes only its title. */
  lemma InfoHeadTexts(start: real)
    ensures Texts(InfoHead(start)) == [INFO]
  {
    var a := [SetFill(SECONDARY), BeginTextSection, SetLineHeight(18.0)];
    var b := UnderlinedOps(INFO, 12, PROFILE_X_OFFSET, InfoY(start));
    var c := [LineBreak, SetLineHeight(16.0), LineBreak];
    NoTexts(a);
    NoTexts(c);
    UnderlineGeometry(INFO, 12, PROFILE_X_OFFSET, InfoY(start));
    Concat3(a, b, c);
  }

  /** The contact section writes one line per detail present: the e-mail always, then
      the phone, the location when the city is known, and the birthday. Its line breaks
      are the two after the heading and one before each optional line. */
  lemma InfoLines(basics: Basics, start: real, ext: Collaborators)
    ensures LineBreaks(InfoOps(basics, start, ext)) ==
      2 + (if basics.phone.Some? then 1 else 0)
        + (if basics.location.Some? && basics.location.value.city.Some? then 1 else 0)
        + (if basics.birthday.Some? then 1 else 0)
    ensures Texts(InfoOps(basics, start, ext)) ==
      [INFO, Glyphs["envelope"], "   " + basics.email]
      + (if basics.phone.Some? then [Glyphs["phone"], "   " + basics.phone.value] else [])
      + (if basics.location.Some? && basics.location.value.city.Some?
         then [Glyphs["map-marker"], LocationText(basics.location).value] else [])
      + (if basics.birthday.Some? then [Glyphs["cake"], BirthdayText(basics.birthday.value, ext)] else [])
  {
    InfoIconsKnown();
    assert INFO_ICONS[0] in Glyphs;
    var head, email, contact, end := InfoHead(start), InfoRow("envelope", "   " + basics.email), ContactRows(basics, ext), [EndTextSection];
    InfoHeadLines(start);
    InfoHeadTexts(start);
    NoLineBreaks(email);
    NoLineBreaks(end);
    NoTexts(end);
    InfoRowTexts("envelope", "   " + basics.email);
    ContactLines(basics, ext);
    ContactTexts(basics, ext);
    InfoParts(head, email, contact, end, Glyphs["envelope"], "   " + basics.email,
      if basics.phone.Some? then [Glyphs["phone"], "   " + basics.phone.value] else [],
      if basics.location.Some? && basics.location.value.city.Some?
      then [Glyphs["map-marker"], LocationText(basics.location).value] else [],
      if basics.birthday.Some? then [Glyphs["cake"], BirthdayText(basics.birthday.value, ext)] else []);
  }

  /** The heading, the e-mail line, the optional lines and the section's end, put together. */
  lemma InfoParts(head: seq<Op>, email: seq<Op>, contact: seq<Op>, end: seq<Op>, glyph: string, address: string,
                  phone: seq<string>, location: seq<string>, birthday: seq<string>)
    requires Texts(head) == [INFO] && LineBreaks(head) == 2
    requires Texts(email) == [glyph, address] && LineBreaks(email) == 0
    requires Texts(contact) == phone + location + birthday
    requires Texts(end) == [] && LineBreaks(end) == 0
    ensures Texts(head + email + contact + end) == [INFO, glyph, address] + phone + location + birthday
    ensures LineBreaks(head + email + contact + end) == 2 + LineBreaks(contact)
  {
    Concat4(head, email, contact, end);
    assert [INFO] + [glyph, address] == [INFO, glyph, address];
    AppendAssoc([INFO, glyph, address], phone + location, birthday);
    AppendAssoc([INFO, glyph, address], phone, location);
  }

  /** One line break before each optional contact line present. */
  lemma ContactLines(basics: Basics, ext: Collaborators)
    ensures LineBreaks(ContactRows(basics, ext)) ==
      (if basics.phone.Some? then 1 else 0)
        + (if basics.location.Some? && basics.location.value.city.Some? then 1 else 0)
        + (if basics.birthday.Some? then 1 else 0)
  {
    InfoIconsKnown();
    assert INFO_ICONS[1] in Glyphs && INFO_ICONS[2] in Glyphs && INFO_ICONS[3] in Glyphs;
    var phone := match basics.phone case None => None case Some(phone) => Some("   " + phone);
    var location := LocationText(basics.location);
    var birthday := match basics.birthday case None => None case Some(day) => Some(BirthdayText(day, ext));
    assert location.Some? <==> basics.location.Some? && basics.location.value.city.Some?;
    OptionalRowCases("phone", phone);
    OptionalRowCases("map-marker", location);
    OptionalRowCases("cake", birthday);
    Concat3(OptionalRow("phone", phone), OptionalRow("map-marker", location), OptionalRow("cake", birthday));
  }

  /** The optional contact lines write, in order, the phone, the location when the city
      is known, and the birthday, each after its icon's glyph. */
  lemma ContactTexts(basics: Basics, ext: Collaborators)
    ensures Texts(ContactRows(basics, ext)) ==
      (if basics.phone.Some? then [Glyphs["phone"], "   " + basics.phone.value] else [])
      + (if basics.location.Some? && basics.location.value.city.Some?
         then [Glyphs["map-marker"], LocationText(basics.location).value] else [])
      + (if basics.birthday.Some? then [Glyphs["cake"], BirthdayText(basics.birthday.value, ext)] else [])
  {
    InfoIconsKnown();
    assert INFO_ICONS[1] in Glyphs && INFO_ICONS[2] in Glyphs && INFO_ICONS[3] in Glyphs;
    var phone := match basics.phone case None => None case Some(phone) => Some("   " + phone);
    var location := LocationText(basics.location);
    var birthday := match basics.birthday case None => None case Some(day) => Some(BirthdayText(day, ext));
    assert location.Some? <==> basics.location.Some? && basics.location.value.city.Some?;
    OptionalRowCases("phone", phone);
    OptionalRowCases("map-marker", location);
    OptionalRowCases("cake", birthday);
    Concat3(OptionalRow("phone", phone), OptionalRow("map-marker", location), OptionalRow("cake", birthday));
  }

  // ---------------------------------------------------------------- social profiles

  /** One profile line: a line break, the network's icon in its colour (the network
      name lower-cased), then the user name in 10-point regular; a network without an
      icon stops the drawing. */
  function ProfileRowOps(profile: Profile): Result<seq<Op>, LayoutError>
  {
    var network := ToLower(profile.network);
    match SocialIconOps(Regular, network, 12, SECONDARY)
    case Failure(_) => Failure(UnknownNetwork(network))
    case Success(icon) =>
      Success([LineBreak] + icon + [SetFill(SECONDARY), SetFont(Regular, 10.0), WriteText("   " + profile.username, Regular)])
  }

  /** The profile lines, in order, stopping at the first unknown network. */
  function ProfilesOps(profiles: seq<Profile>): Result<seq<Op>, LayoutError>
  {
    if profiles == [] then Success([])
    else
      match ProfilesOps(profiles[..|profiles| - 1])
      case Failure(e) => Failure(e)
      case Success(ops) =>
        match ProfileRowOps(profiles[|profiles| - 1])
        case Failure(e) => Failure(e)
        case Success(row) => Success(ops + row)
  }

  /** `write_social`: the underlined heading, then one line per profile. */
  function SocialOps(basics: Basics, start: real): Result<seq<Op>, LayoutError>
  {
    match ProfilesOps(basics.profiles)
    case Failure(e) => Failure(e)
    case Success(rows) =>
      Success([BeginTextSection, SetFill(SECONDARY), SetLineHeight(18.0)]
              + UnderlinedOps(SOCIALS, 12, PROFILE_X_OFFSET, SocialY(start))
              + [LineBreak, SetLineHeight(16.0)] + rows + [EndTextSection])
  }

  predicate KnownNetwork(profile: Profile)
  {
    ToLower(profile.network) in Glyphs
  }

  /** A profile line fails exactly for a network outside the icon table (compared in
      lower case), and otherwise adds one line break. */
  lemma ProfileRowCases(profile: Profile)
    ensures ProfileRowOps(profile).Failure? <==> !KnownNetwork(profile)
    ensures ProfileRowOps(profile).Failure? ==> ProfileRowOps(profile).error == UnknownNetwork(ToLower(profile.network))
    ensures ProfileRowOps(profile).Success? ==> LineBreaks(ProfileRowOps(profile).value) == 1
  {
    var network := ToLower(profile.network);
    SocialIconCases(Regular, network, 12, SECONDARY);
    if network in Glyphs {
      var icon := SocialIconOps(Regular, network, 12, SECONDARY).value;
      PrintIconCases(Regular, network, 12, SocialColour(network, SECONDARY));
      var tail := [SetFill(SECONDARY), SetFont(Regular, 10.0), WriteText("   " + profile.username, Regular)];
      NoLineBreaks(icon);
      NoLineBreaks(tail);
      Cons(LineBreak, icon);
      LineBreaksAppend([LineBreak], icon);
      LineBreaksAppend([LineBreak] + icon, tail);
    }
  }

  /** The profile lines succeed exactly when every network has an icon, and then there
      is one line per profile. */
  lemma {:induction false} ProfilesSucceed(profiles: seq<Profile>)
    ensures ProfilesOps(profiles).Success? <==> forall k :: 0 <= k < |profiles| ==> KnownNetwork(profiles[k])
    ensures ProfilesOps(profiles).Success? ==> LineBreaks(ProfilesOps(profiles).value) == |profiles|
  {
    if profiles != [] {
      var n := |profiles|;
      var init, last := profiles[..n - 1], profiles[n - 1];
      ProfilesSucceed(init);
      ProfileRowCases(last);
      assert forall k :: 0 <= k < n - 1 ==> init[k] == profiles[k];
      if ProfilesOps(init).Success? && ProfileRowOps(last).Success? {
        LineBreaksAppend(ProfilesOps(init).value, ProfileRowOps(last).value);
      }
    }
  }

  /** A failure names the first profile whose network has no icon. */
  lemma {:induction false} ProfilesFirstFailure(profiles: seq<Profile>)
    requires ProfilesOps(profiles).Failure?
    ensures exists k :: 0 <= k < |profiles| && !KnownNetwork(profiles[k])
                        && (forall j :: 0 <= j < k ==> KnownNetwork(profiles[j]))
                        && ProfilesOps(profiles).error == UnknownNetwork(ToLower(profiles[k].network))
  {
    var n := |profiles|;
    var init, last := profiles[..n - 1], profiles[n - 1];
    assert forall k :: 0 <= k < n - 1 ==> init[k] == profiles[k];
    if ProfilesOps(init).Failure? {
      ProfilesFirstFailure(init);
      var k :| 0 <= k < n - 1 && !KnownNetwork(init[k]) && (forall j :: 0 <= j < k ==> KnownNetwork(init[j]))
        && ProfilesOps(init).error == UnknownNetwork(ToLower(init[k].network));
      assert !KnownNetwork(profiles[k]) && forall j :: 0 <= j < k ==> KnownNetwork(profiles[j]);
    } else {
      ProfilesSucceed(init);
      ProfileRowCases(last);
      assert !KnownNetwork(profiles[n - 1]) && forall j :: 0 <= j < n - 1 ==> KnownNetwork(profiles[j]);
    }
  }

  /** Once the first `i` profiles fail, all of them fail with the same error: no profile
      after the failing one is looked at. */
  lemma {:induction false} ProfilesPrefixFailure(profiles: seq<Profile>, i: nat)
    requires i <= |profiles| && ProfilesOps(profiles[..i]).Failure?
    ensures ProfilesOps(profiles) == ProfilesOps(profiles[..i])
  {
    var n := |profiles|;
    if i < n {
      assert profiles[..n - 1][..i] == profiles[..i];
      ProfilesPrefixFailure(profiles[..n - 1], i);
    } else {
      assert profiles[..i] == profiles;
    }
  }

  /** The social section fails exactly when some profile's network has no icon, and then
      with the first such network; otherwise it writes one line per profile. */
  lemma ProfilesOutcome(profiles: seq<Profile>)
    ensures ProfilesOps(profiles).Failure? <==> exists k :: 0 <= k < |profiles| && !KnownNetwork(profiles[k])
    ensures ProfilesOps(profiles).Failure? ==>
      exists k :: 0 <= k < |profiles| && !KnownNetwork(profiles[k])
        && (forall j :: 0 <= j < k ==> KnownNetwork(profiles[j]))
        && ProfilesOps(profiles).error == UnknownNetwork(ToLower(profiles[k].network))
    ensures ProfilesOps(profiles).Success? ==> LineBreaks(ProfilesOps(profiles).value) == |profiles|
  {
    ProfilesSucceed(profiles);
    if ProfilesOps(profiles).Failure? {
      ProfilesFirstFailure(profiles);
    }
  }

  /** Network names are compared in lower case: a "GitHub" profile gets the GitHub icon,
      and a "Mastodon" one stops the drawing. */
  lemma NetworkCaseInsensitive(username: string, url: string)
    ensures ProfileRowOps(Profile("GitHub", username, url)).Success?
    ensures ProfileRowOps(Profile("Mastodon", username, url)) == Failure(UnknownNetwork("mastodon"))
  {
    assert ToLower("GitHub") == "github";
    assert ToLower("Mastodon") == "mastodon";
  }

  // ---------------------------------------------------------------- languages

  /** The longest language name, in bytes of UTF-8; 0 without languages. */
  function MaxNameLength(languages: seq<Language>): (m: nat)
    ensures forall k :: 0 <= k < |languages| ==> Utf8Len(languages[k].language) <= m
    ensures languages != [] ==> exists k :: 0 <= k < |languages| && Utf8Len(languages[k].language) == m
    ensures languages == [] ==> m == 0
  {
    if languages == [] then 0
    else
      var rest := MaxNameLength(languages[..|languages| - 1]);
      var last := Utf8Len(languages[|languages| - 1].language);
      if last > rest then last else rest
  }

  /** The width every language name is padded to: the longest name plus four. */
  function LanguageColumnWidth(languages: seq<Language>): nat
  {
    MaxNameLength(languages) + 4
  }

  /** One language line: a line break, the padded name in bold, and the fluency in thin
      when given. */
  function LanguageRowOps(language: Language, width: nat): seq<Op>
  {
    [LineBreak, SetFont(Bold, 10.0), WriteText("- " + PadRight(language.language, width), Bold)]
    + (match language.fluency
       case None => []
       case Some(fluency) => [SetFont(Thin, 10.0), WriteText(fluency, Thin)])
  }

  function LanguageRowsOps(languages: seq<Language>, width: nat): seq<Op>
  {
    if languages == [] then []
    else LanguageRowsOps(languages[..|languages| - 1], width) + LanguageRowOps(languages[|languages| - 1], width)
  }

  /** `write_languages`. */
  function LanguagesOps(languages: seq<Language>, start: real): seq<Op>
  {
    [BeginTextSection, SetFill(SECONDARY), SetLineHeight(18.0)]
    + UnderlinedOps(LANGUAGES, 12, PROFILE_X_OFFSET, LanguagesY(start))
    + [LineBreak, SetLineHeight(16.0)]
    + LanguageRowsOps(languages, LanguageColumnWidth(languages))
    + [EndTextSection]
  }

  /** Padded to the column width, every language name takes exactly that many characters
      and is followed by at least four spaces, so the fluencies line up. */
  lemma LanguageRowsAligned(languages: seq<Language>, k: nat)
    requires k < |languages|
    ensures var width := LanguageColumnWidth(languages);
      var padded := PadRight(languages[k].language, width);
      && |padded| == width
      && padded[..|languages[k].language|] == languages[k].language
      && |languages[k].language| + 4 <= width
      && (forall j :: |languages[k].language| <= j < width ==> padded[j] == ' ')
  {
  }

  /** Each language adds one line break, and a language is written as its own line. */
  lemma {:induction false} LanguageRowsLines(languages: seq<Language>, width: nat)
    ensures LineBreaks(LanguageRowsOps(languages, width)) == |languages|
  {
    if languages != [] {
      var last := languages[|languages| - 1];
      LanguageRowsLines(languages[..|languages| - 1], width);
      LineBreaksAppend(LanguageRowsOps(languages[..|languages| - 1], width), LanguageRowOps(last, width));
      var head := [LineBreak, SetFont(Bold, 10.0), WriteText("- " + PadRight(last.language, width), Bold)];
      var tail := match last.fluency case None => [] case Some(f) => [SetFont(Thin, 10.0), WriteText(f, Thin)];
      Cons(LineBreak, head[1..]);
      assert head == [LineBreak] + head[1..];
      NoLineBreaks(head[1..]);
      NoLineBreaks(tail);
      LineBreaksAppend(head, tail);
    }
  }

  // ---------------------------------------------------------------- skills

  /** One skill: its name in bold on a line, then its keywords wrapped at 36 columns. */
  function SkillRowOps(skill: Skill, fill: (string, nat) -> string): seq<Op>
  {
    [SetFont(Bold, 10.0), WriteText("- " + skill.name, Bold), LineBreak, SetFont(Thin, 10.0)]
    + BoundedOps(fill, Join(skill.keywords, "  -  "), 36)
  }

  function SkillRowsOps(skills: seq<Skill>, fill: (string, nat) -> string): seq<Op>
  {
    if skills == [] then []
    else SkillRowsOps(skills[..|skills| - 1], fill) + SkillRowOps(skills[|skills| - 1], fill)
  }

  /** `write_skills`. */
  function SkillsOps(skills: seq<Skill>, start: real, fill: (string, nat) -> string): seq<Op>
  {
    [BeginTextSection, SetFill(SECONDARY), SetLineHeight(18.0)]
    + UnderlinedOps(SKILLS, 12, PROFILE_X_OFFSET, SkillsY(start))
    + [LineBreak, SetLineHeight(14.0), LineBreak]
    + SkillRowsOps(skills, fill)
    + [EndTextSection]
  }

  /** A skill writes its name, then the lines of its wrapped keyword list, which joined
      with newlines give back the wrapped list. */
  lemma SkillRowTexts(skill: Skill, fill: (string, nat) -> string)
    ensures var keywords := Join(skill.keywords, "  -  ");
      && Texts(SkillRowOps(skill, fill)) == ["- " + skill.name] + BoundedLines(fill, keywords, 36)
      && Join(Texts(SkillRowOps(skill, fill))[1..], "\n") == fill(keywords, 36)
  {
    var keywords := Join(skill.keywords, "  -  ");
    var head := [SetFont(Bold, 10.0), WriteText("- " + skill.name, Bold), LineBreak, SetFont(Thin, 10.0)];
    Cons(head[0], head[1..]);
    Cons(head[1], head[2..]);
    NoTexts(head[2..]);
    assert head == [head[0]] + head[1..] && head[1..] == [head[1]] + head[2..];
    TextsAppend(head, BoundedOps(fill, keywords, 36));
    LinesOpsTexts(BoundedLines(fill, keywords, 36), Regular);
    BoundedOpsMeaning(fill, keywords, 36);
  }
}
