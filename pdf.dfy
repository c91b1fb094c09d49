/** The page writer of src/pdf/mod.rs and src/pdf/text.rs: a `Pdf` holds the résumé and
    the page's layer, and each of its methods appends one part of the page to the
    layer, exactly the operations the matching function of the layout describes. */
module Pdf {
  import opened Wrappers
  import opened Colour
  import opened Shape
  import opened Canvas
  import opened Strings
  import opened Seqs
  import opened Page
  import opened Fonts
  import FA = FontAwesome
  import opened Text
  import opened Sidebar
  import opened Document
  import R = Resume
  import T = Timeline
  import TL = TimelineLayout

  /** The writer: the résumé, the libraries it calls, the icon printer (made with the
      regular font) and the layer of the page's single page. The two colours are the
      constants `PRIMARY` and `SECONDARY`. */
  class Pdf {
    const resume: R.Resume
    const ext: Collaborators
    const fontAwesome: FA.FontAwesome := FA.FontAwesome(Regular)
    const layer: Layer

    /** `Pdf::new`: an empty page for the résumé. */
    constructor (resume: R.Resume, ext: Collaborators)
      ensures this.resume == resume && this.ext == ext
      ensures fresh(layer) && layer.ops == []
    {
      this.resume := resume;
      this.ext := ext;
      layer := new Layer();
    }

    // -------------------------------------------------------------- text helpers

    /** `write_bounded`: the text wrapped at `width` columns, each line in the regular
        font followed by a line break. */
    method WriteBounded(text: string, width: nat)
      modifies layer
      ensures layer.ops == old(layer.ops) + BoundedOps(ext.fill, text, width)
    {
      var lines := Split(ext.fill(text, width), '\n');
      WriteLines(lines, Regular);
    }

    /** Each line in `font`, followed by a line break. */
    method WriteLines(lines: seq<string>, font: Font)
      modifies layer
      ensures layer.ops == old(layer.ops) + LinesOps(lines, font)
    {
      for i := 0 to |lines|
        invariant layer.ops == old(layer.ops) + LinesOps(lines[..i], font)
      {
        assert lines[..i + 1][..i] == lines[..i];
        layer.Emit(WriteText(lines[i], font));
        layer.Emit(LineBreak);
      }
      assert lines[..|lines|] == lines;
    }

    /** `write_underlined_text`: the heading in bold at the offset, then the bar under it. */
    method WriteUnderlinedText(text: string, fontSize: int, offsetX: real, offsetY: real)
      modifies layer
      ensures layer.ops == old(layer.ops) + UnderlinedOps(text, fontSize, offsetX, offsetY)
    {
      layer.Emit(SetFont(Bold, fontSize as real));
      layer.Emit(SetTextCursor(offsetX, offsetY));
      layer.Emit(WriteText(text, Bold));
      var offsetYPt := MmToPt(offsetY);
      var strokeSize := 2.0;
      var line := Line(Polygon(RectanglePoints(MmToPt(offsetX), offsetYPt - (fontSize as real + strokeSize),
                                               MmToPt(RIGHT_COLUMN_HEIGHT - offsetX - offsetX), strokeSize)),
                       true, true, false, false);
      layer.Emit(AddShape(line));
    }

    /** `write_social_icon`: the network's icon in its brand colour; a name without an
        icon draws nothing and returns the icon printer's error. */
    method WriteSocialIcon(name: string, fontSize: int) returns (r: Outcome<FA.UnknownFontError>)
      modifies layer
      ensures var spec := SocialIconOps(Regular, name, fontSize, SECONDARY);
        && (spec.Failure? ==> r == Fail(spec.error) && layer.ops == old(layer.ops))
        && (spec.Success? ==> r == Pass && layer.ops == old(layer.ops) + spec.value)
    {
      var color := SocialColour(name, SECONDARY);
      r := fontAwesome.PrintIcon(layer, name, fontSize, color);
    }

    // -------------------------------------------------------------- left column

    /** `draw_left_background`. */
    method DrawLeftBackground()
      modifies layer
      ensures layer.ops == old(layer.ops) + BackgroundOps()
    {
      var line := Line(Polygon(RectanglePoints(0.0, 0.0, MmToPt(LEFT_COLUMN_SIZE), MmToPt(DOC_HEIGHT))),
                       true, true, false, false);
      layer.Emit(SetFill(PRIMARY));
      layer.Emit(AddShape(line));
    }

    /** `add_profile_picture`: draws the picture when it is given and decodes, and
        returns how far below the top of the page the column's text starts. */
    method AddProfilePicture() returns (start: real)
      modifies layer
      ensures start == PictureStart(resume.basics, ext)
      ensures layer.ops == old(layer.ops) + PictureOps(resume.basics, ext)
    {
      start := 15.0;
      if resume.basics.picture.Some? {
        var image := ext.decode(resume.basics.picture.value);
        if image.Some? {
          layer.Emit(AddImage(Photo(image.value), Some(0.0), Some(DOC_HEIGHT - PROFILE_Y_OFFSET)));
          start := RIGHT_COLUMN_HEIGHT;
        }
      }
    }

    /** `social_qr_code`: the website's QR code, its black modules recoloured in place
        with the accent colour; the generator's failure is returned before anything
        is drawn. */
    method SocialQrCode() returns (r: Outcome<LayoutError>)
      modifies layer
      ensures QrOps(resume.basics, ext).Failure? ==>
        r == Fail(QrOps(resume.basics, ext).error) && layer.ops == old(layer.ops)
      ensures QrOps(resume.basics, ext).Success? ==>
        r == Pass && layer.ops == old(layer.ops) + QrOps(resume.basics, ext).value
    {
      r := Pass;
      if resume.basics.website.Some? {
        var url := resume.basics.website.value;
        var code := ext.qrEncode(url, QR_SIZE);
        if code.None? {
          return Fail(QrCodeFailure(url));
        }
        var pixels := code.value;
        var buffer := new Pixel[|pixels|](k requires 0 <= k < |pixels| => pixels[k]);
        assert buffer[..] == pixels;
        RecolourBlack(buffer, QrColour());
        layer.Emit(AddImage(QrCode(buffer[..]), None, None));
      }
    }

    /** `write_bio`: the upper-cased name one word per line, then the headline. */
    method WriteBio(start: real)
      modifies layer
      ensures layer.ops == old(layer.ops) + BioOps(resume.basics, start)
    {
      layer.Emit(SetFill(RgbColor(Rgb(1.0, 1.0, 1.0))));
      var offsetX := PROFILE_X_OFFSET;
      var offsetY := DOC_HEIGHT - (start + 10.0);
      layer.Emit(BeginTextSection);
      layer.Emit(SetFont(Bold, 20.0));
      layer.Emit(SetTextCursor(offsetX, offsetY));
      layer.Emit(SetLineHeight(18.0));
      ghost var head := layer.ops;
      assert head == old(layer.ops) + BioHead(start);
      var words := Words(ToUpper(resume.basics.name));
      WriteLines(words, Bold);
      ghost var lines := layer.ops;
      layer.Emit(SetFont(Regular, 10.0));
      layer.Emit(WriteText(resume.basics.headline, Regular));
      layer.Emit(EndTextSection);
      assert layer.ops == lines + BioTail(resume.basics.headline);
      AppendAssoc(old(layer.ops), BioHead(start), LinesOps(words, Bold));
      AppendAssoc(old(layer.ops), BioHead(start) + LinesOps(words, Bold), BioTail(resume.basics.headline));
    }

    /** One contact line of `write_info`: the icon in the secondary colour, then the text
        in 9-point regular. The icon is in the table, so the `?` after `print_icon`
        never returns early. */
    method WriteContact(icon: string, text: string)
      requires icon in Glyphs
      modifies layer
      ensures layer.ops == old(layer.ops) + InfoRow(icon, text)
    {
      var printed := fontAwesome.PrintIcon(layer, icon, 12, SECONDARY);
      assert printed == Pass;
      layer.Emit(SetFont(Regular, 9.0));
      layer.Emit(WriteText(text, Regular));
      AppendAssoc(old(layer.ops), FA.IconOps(Regular, Glyphs[icon], 12, SECONDARY), [SetFont(Regular, 9.0), WriteText(text, Regular)]);
    }

    /** An optional contact line: a line break, then the line. */
    method WriteOptionalContact(icon: string, text: string)
      requires icon in Glyphs
      modifies layer
      ensures layer.ops == old(layer.ops) + OptionalRow(icon, Some(text))
    {
      layer.Emit(LineBreak);
      WriteContact(icon, text);
      AppendAssoc(old(layer.ops), [LineBreak], InfoRow(icon, text));
    }

    /** `write_info`: the heading, the e-mail line, then the phone, the location (when
        the city is known) and the birthday with the age, each on a line of its own. */
    method WriteInfo(start: real)
      modifies layer
      ensures layer.ops == old(layer.ops) + InfoOps(resume.basics, start, ext)
    {
      var basics := resume.basics;
      InfoIconsKnown();
      assert INFO_ICONS == ["envelope", "phone", "map-marker", "cake"];
      layer.Emit(SetFill(SECONDARY));
      var offsetX := PROFILE_X_OFFSET;
      var offsetY := DOC_HEIGHT - (start + 35.0);
      layer.Emit(BeginTextSection);
      layer.Emit(SetLineHeight(18.0));
      WriteUnderlinedText(INFO, 12, offsetX, offsetY);
      layer.Emit(LineBreak);
      layer.Emit(SetLineHeight(16.0));
      layer.Emit(LineBreak);
      ghost var head := layer.ops;
      InfoHeadSteps(old(layer.ops), start, head);

      WriteContact("envelope", "   " + basics.email);
      ghost var email := layer.ops;

      ghost var phoneText := match basics.phone case None => None case Some(phone) => Some("   " + phone);
      if basics.phone.Some? {
        WriteOptionalContact("phone", "   " + basics.phone.value);
      }
      ghost var phone := layer.ops;
      assert phone == email + OptionalRow("phone", phoneText);

      if basics.location.Some? && basics.location.value.city.Some? {
        var city := basics.location.value.city.value;
        var text := match basics.location.value.countryCode case None => "" case Some(code) => ", " + code;
        assert LocationText(basics.location) == Some("   " + city + text);
        WriteOptionalContact("map-marker", "   " + city + text);
      }
      ghost var location := layer.ops;
      assert location == phone + OptionalRow("map-marker", LocationText(basics.location));

      ghost var birthdayText := match basics.birthday case None => None case Some(day) => Some(BirthdayText(day, ext));
      if basics.birthday.Some? {
        var birthday := basics.birthday.value;
        var age := Age(birthday, ext.today);
        WriteOptionalContact("cake", "    " + ext.dayMonthYear(birthday) + " (" + IntToString(age) + "yo)");
      }
      ghost var birthday := layer.ops;
      assert birthday == location + OptionalRow("cake", birthdayText);
      layer.Emit(EndTextSection);
      InfoSteps(old(layer.ops), head, email, phone, location, birthday, layer.ops, start, phoneText, birthdayText);
    }

    /** The heading of `write_info` adds up to its operations. */
    lemma InfoHeadSteps(before: seq<Op>, start: real, head: seq<Op>)
      requires head == before + [SetFill(SECONDARY), BeginTextSection, SetLineHeight(18.0)]
        + UnderlinedOps(INFO, 12, PROFILE_X_OFFSET, DOC_HEIGHT - (start + 35.0)) + [LineBreak] + [SetLineHeight(16.0)] + [LineBreak]
      ensures head == before + InfoHead(start)
    {
      var a := [SetFill(SECONDARY), BeginTextSection, SetLineHeight(18.0)];
      var b := UnderlinedOps(INFO, 12, PROFILE_X_OFFSET, InfoY(start));
      AppendAssoc(before, a, b);
      AppendAssoc(before, a + b, [LineBreak, SetLineHeight(16.0), LineBreak]);
    }

    /** The checkpoints of `write_info` add up to its operations. */
    lemma InfoSteps(before: seq<Op>, head: seq<Op>, email: seq<Op>, phone: seq<Op>, location: seq<Op>,
                    birthday: seq<Op>, done: seq<Op>, start: real,
                    phoneText: Option<string>, birthdayText: Option<string>)
      requires phoneText == match resume.basics.phone case None => None case Some(phone) => Some("   " + phone)
      requires birthdayText == match resume.basics.birthday case None => None case Some(day) => Some(BirthdayText(day, ext))
      requires head == before + InfoHead(start)
      requires "envelope" in Glyphs && "phone" in Glyphs && "map-marker" in Glyphs && "cake" in Glyphs
      requires email == head + InfoRow("envelope", "   " + resume.basics.email)
      requires phone == email + OptionalRow("phone", phoneText)
      requires location == phone + OptionalRow("map-marker", LocationText(resume.basics.location))
      requires birthday == location + OptionalRow("cake", birthdayText)
      requires done == birthday + [EndTextSection]
      ensures done == before + InfoOps(resume.basics, start, ext)
    {
      var a, b := InfoHead(start), InfoRow("envelope", "   " + resume.basics.email);
      var p, l, c := OptionalRow("phone", phoneText), OptionalRow("map-marker", LocationText(resume.basics.location)),
                     OptionalRow("cake", birthdayText);
      assert ContactRows(resume.basics, ext) == p + l + c;
      AppendAssoc(email, p, l);
      AppendAssoc(email, p + l, c);
      AppendAssoc(before, a, b);
      AppendAssoc(before, a + b, p + l + c);
      AppendAssoc(before, a + b + (p + l + c), [EndTextSection]);
    }

    /** One profile line of `write_social`: a line break, the network's icon (the network
        name lower-cased), then the user name. A network without an icon panics at the
        `unwrap` in the source; here it returns that network's name. */
    method WriteProfile(profile: R.Profile) returns (r: Outcome<LayoutError>)
      modifies layer
      ensures ProfileRowOps(profile).Failure? ==> r == Fail(ProfileRowOps(profile).error)
      ensures ProfileRowOps(profile).Success? ==> r == Pass && layer.ops == old(layer.ops) + ProfileRowOps(profile).value
    {
      layer.Emit(LineBreak);
      var network := ToLower(profile.network);
      var icon := WriteSocialIcon(network, 12);
      if icon.Fail? {
        return Fail(UnknownNetwork(network));
      }
      ghost var iconOps := SocialIconOps(Regular, network, 12, SECONDARY).value;
      layer.Emit(SetFill(SECONDARY));
      layer.Emit(SetFont(Regular, 10.0));
      layer.Emit(WriteText("   " + profile.username, Regular));
      r := Pass;
      ghost var tail := [SetFill(SECONDARY), SetFont(Regular, 10.0), WriteText("   " + profile.username, Regular)];
      AppendAssoc(old(layer.ops), [LineBreak], iconOps);
      AppendAssoc(old(layer.ops), [LineBreak] + iconOps, tail);
    }

    /** `write_social`: the heading, then one line per profile. A network without an icon
        stops the drawing with that network's name. */
    method WriteSocial(start: real) returns (r: Outcome<LayoutError>)
      modifies layer
      ensures SocialOps(resume.basics, start).Success? ==>
        r == Pass && layer.ops == old(layer.ops) + SocialOps(resume.basics, start).value
      ensures SocialOps(resume.basics, start).Failure? ==> r == Fail(SocialOps(resume.basics, start).error)
    {
      layer.Emit(BeginTextSection);
      layer.Emit(SetFill(SECONDARY));
      var offsetX := PROFILE_X_OFFSET;
      var offsetY := DOC_HEIGHT - (start + 25.0 + 48.0);
      layer.Emit(SetLineHeight(18.0));
      WriteUnderlinedText(SOCIALS, 12, offsetX, offsetY);
      layer.Emit(LineBreak);
      layer.Emit(SetLineHeight(16.0));
      ghost var a, b, c := [BeginTextSection, SetFill(SECONDARY), SetLineHeight(18.0)],
        UnderlinedOps(SOCIALS, 12, PROFILE_X_OFFSET, SocialY(start)), [LineBreak, SetLineHeight(16.0)];
      ghost var headOps := a + b + c;
      ghost var head := layer.ops;
      assert head == old(layer.ops) + a + b + c;
      AppendAssoc(old(layer.ops), a, b);
      AppendAssoc(old(layer.ops), a + b, c);
      var profiles := resume.basics.profiles;
      for i := 0 to |profiles|
        invariant ProfilesOps(profiles[..i]).Success?
        invariant layer.ops == head + ProfilesOps(profiles[..i]).value
      {
        assert profiles[..i + 1][..i] == profiles[..i];
        ghost var rows := ProfilesOps(profiles[..i]).value;
        var row := WriteProfile(profiles[i]);
        if row.Fail? {
          ProfilesPrefixFailure(profiles, i + 1);
          return row;
        }
        AppendAssoc(head, rows, ProfileRowOps(profiles[i]).value);
      }
      assert profiles[..|profiles|] == profiles;
      layer.Emit(EndTextSection);
      r := Pass;
      AppendAssoc(old(layer.ops), headOps, ProfilesOps(profiles).value);
    }

    /** The width of the language column: the longest name, in bytes, plus four. */
    method LanguageWidth(languages: seq<R.Language>) returns (width: nat)
      ensures width == LanguageColumnWidth(languages)
    {
      var longest := 0;
      for i := 0 to |languages|
        invariant longest == MaxNameLength(languages[..i])
      {
        assert languages[..i + 1][..i] == languages[..i];
        var length := Utf8Len(languages[i].language);
        if length > longest {
          longest := length;
        }
      }
      assert languages[..|languages|] == languages;
      width := longest + 4;
    }

    /** One language line of `write_languages`: a line break, the name padded to the
        column width in bold, then the fluency in thin when given. */
    method WriteLanguage(language: R.Language, width: nat)
      modifies layer
      ensures layer.ops == old(layer.ops) + LanguageRowOps(language, width)
    {
      layer.Emit(LineBreak);
      layer.Emit(SetFont(Bold, 10.0));
      layer.Emit(WriteText("- " + PadRight(language.language, width), Bold));
      if language.fluency.Some? {
        layer.Emit(SetFont(Thin, 10.0));
        layer.Emit(WriteText(language.fluency.value, Thin));
      }
    }

    /** `write_languages`: the heading, then each language padded to the column width. */
    method WriteLanguages(start: real)
      modifies layer
      ensures layer.ops == old(layer.ops) + LanguagesOps(resume.languages, start)
    {
      WriteLanguagesHeading(start);
      var languages := resume.languages;
      var width := LanguageWidth(languages);
      ghost var head := layer.ops;
      for i := 0 to |languages|
        invariant layer.ops == head + LanguageRowsOps(languages[..i], width)
      {
        assert languages[..i + 1][..i] == languages[..i];
        ghost var rows := LanguageRowsOps(languages[..i], width);
        WriteLanguage(languages[i], width);
        AppendAssoc(head, rows, LanguageRowOps(languages[i], width));
      }
      assert languages[..|languages|] == languages;
      layer.Emit(EndTextSection);
      AppendFour(old(layer.ops), [BeginTextSection, SetFill(SECONDARY), SetLineHeight(18.0)],
        UnderlinedOps(LANGUAGES, 12, PROFILE_X_OFFSET, LanguagesY(start)), [LineBreak, SetLineHeight(16.0)],
        LanguageRowsOps(languages, width));
      AppendAssoc(old(layer.ops), [BeginTextSection, SetFill(SECONDARY), SetLineHeight(18.0)]
        + UnderlinedOps(LANGUAGES, 12, PROFILE_X_OFFSET, LanguagesY(start)) + [LineBreak, SetLineHeight(16.0)]
        + LanguageRowsOps(languages, width), [EndTextSection]);
    }

    /** The languages heading, underlined, 25 mm below the contact details' top. */
    method WriteLanguagesHeading(start: real)
      modifies layer
      ensures layer.ops == old(layer.ops) + [BeginTextSection, SetFill(SECONDARY), SetLineHeight(18.0)]
        + UnderlinedOps(LANGUAGES, 12, PROFILE_X_OFFSET, LanguagesY(start)) + [LineBreak, SetLineHeight(16.0)]
    {
      layer.Emit(BeginTextSection);
      layer.Emit(SetFill(SECONDARY));
      var offsetX := PROFILE_X_OFFSET;
      var offsetY := DOC_HEIGHT - (start + 25.0 + 85.0);
      layer.Emit(SetLineHeight(18.0));
      WriteUnderlinedText(LANGUAGES, 12, offsetX, offsetY);
      layer.Emit(LineBreak);
      layer.Emit(SetLineHeight(16.0));
      ghost var a, b, c := [BeginTextSection, SetFill(SECONDARY), SetLineHeight(18.0)],
        UnderlinedOps(LANGUAGES, 12, PROFILE_X_OFFSET, LanguagesY(start)), [LineBreak, SetLineHeight(16.0)];
      assert layer.ops == old(layer.ops) + a + b + c;
      AppendAssoc(old(layer.ops), a, b);
      AppendAssoc(old(layer.ops), a + b, c);
    }

    /** One skill of `write_skills`: its name in bold on a line, then its keywords joined
        and wrapped at 36 columns. */
    method WriteSkill(skill: R.Skill)
      modifies layer
      ensures layer.ops == old(layer.ops) + SkillRowOps(skill, ext.fill)
    {
      layer.Emit(SetFont(Bold, 10.0));
      layer.Emit(WriteText("- " + skill.name, Bold));
      layer.Emit(LineBreak);
      layer.Emit(SetFont(Thin, 10.0));
      WriteBounded(Join(skill.keywords, "  -  "), 36);
      AppendAssoc(old(layer.ops), [SetFont(Bold, 10.0), WriteText("- " + skill.name, Bold), LineBreak, SetFont(Thin, 10.0)],
                  BoundedOps(ext.fill, Join(skill.keywords, "  -  "), 36));
    }

    /** `write_skills`: the heading, then each skill. */
    method WriteSkills(start: real)
      modifies layer
      ensures layer.ops == old(layer.ops) + SkillsOps(resume.skills, start, ext.fill)
    {
      WriteSkillsHeading(start);
      ghost var head := layer.ops;
      var skills := resume.skills;
      for i := 0 to |skills|
        invariant layer.ops == head + SkillRowsOps(skills[..i], ext.fill)
      {
        assert skills[..i + 1][..i] == skills[..i];
        ghost var rows := SkillRowsOps(skills[..i], ext.fill);
        WriteSkill(skills[i]);
        AppendAssoc(head, rows, SkillRowOps(skills[i], ext.fill));
      }
      assert skills[..|skills|] == skills;
      layer.Emit(EndTextSection);
      AppendFour(old(layer.ops), [BeginTextSection, SetFill(SECONDARY), SetLineHeight(18.0)],
        UnderlinedOps(SKILLS, 12, PROFILE_X_OFFSET, SkillsY(start)), [LineBreak, SetLineHeight(14.0), LineBreak],
        SkillRowsOps(skills, ext.fill));
      AppendAssoc(old(layer.ops), [BeginTextSection, SetFill(SECONDARY), SetLineHeight(18.0)]
        + UnderlinedOps(SKILLS, 12, PROFILE_X_OFFSET, SkillsY(start)) + [LineBreak, SetLineHeight(14.0), LineBreak]
        + SkillRowsOps(skills, ext.fill), [EndTextSection]);
    }

    /** The skills heading, underlined, 40 mm below the languages heading. */
    method WriteSkillsHeading(start: real)
      modifies layer
      ensures layer.ops == old(layer.ops) + [BeginTextSection, SetFill(SECONDARY), SetLineHeight(18.0)]
        + UnderlinedOps(SKILLS, 12, PROFILE_X_OFFSET, SkillsY(start)) + [LineBreak, SetLineHeight(14.0), LineBreak]
    {
      layer.Emit(BeginTextSection);
      layer.Emit(SetFill(SECONDARY));
      var offsetX := PROFILE_X_OFFSET;
      var offsetY := DOC_HEIGHT - (start + 25.0 + 85.0 + 40.0);
      layer.Emit(SetLineHeight(18.0));
      WriteUnderlinedText(SKILLS, 12, offsetX, offsetY);
      layer.Emit(LineBreak);
      layer.Emit(SetLineHeight(14.0));
      layer.Emit(LineBreak);
      ghost var a, b, c := [BeginTextSection, SetFill(SECONDARY), SetLineHeight(18.0)],
        UnderlinedOps(SKILLS, 12, PROFILE_X_OFFSET, SkillsY(start)), [LineBreak, SetLineHeight(14.0), LineBreak];
      assert layer.ops == old(layer.ops) + a + b + c;
      AppendAssoc(old(layer.ops), a, b);
      AppendAssoc(old(layer.ops), a + b, c);
    }

    // -------------------------------------------------------------- timeline

    /** The marker of `write_event`: nothing for an event merged with the one before it,
        a ring for work and a disc for education, centred on the spine at height `y`. */
    method DrawMarker(eventType: T.EventType, merged: bool, x: real, y: real)
      modifies layer
      ensures layer.ops == old(layer.ops) + TL.MarkerOps(eventType, merged, x, y)
    {
      var outer := Line(Circle(RADIUS, Point(x + 1.0, y)), true, true, true, false);
      layer.Emit(SetOutline(PRIMARY));
      if merged {
        layer.Emit(SetFill(PRIMARY));
      } else {
        match eventType {
          case Work =>
            layer.Emit(SetFill(SECONDARY));
            layer.Emit(AddShape(outer));
            var inner := Line(Circle(1.0, Point(x + 1.0, y)), true, true, true, false);
            layer.Emit(SetFill(PRIMARY));
            layer.Emit(AddShape(inner));
          case Education =>
            layer.Emit(SetFill(PRIMARY));
            layer.Emit(AddShape(outer));
        }
      }
    }

    /** The institution part of `write_event`'s first text block: the name before the
        first comma, then the rest, trimmed, when it is not empty. */
    method WriteInstitution(institution: string)
      modifies layer
      ensures layer.ops == old(layer.ops) + TL.InstitutionOps(ext.fill, institution)
    {
      var (name, location) := TL.InstitutionParts(institution);
      WriteBounded(name, 30);
      layer.Emit(SetFont(Regular, 9.0));
      ghost var named := layer.ops;
      if location != "" {
        WriteBounded(Trim(location), 30);
      }
      assert layer.ops == named + TL.LocationOps(ext.fill, location);
      AppendAssoc(old(layer.ops), BoundedOps(ext.fill, name, 30), [SetFont(Regular, 9.0)]);
      AppendAssoc(old(layer.ops), BoundedOps(ext.fill, name, 30) + [SetFont(Regular, 9.0)], TL.LocationOps(ext.fill, location));
    }

    /** The first text block of `write_event`, left of the spine: the institution unless
        merged, the title, then the date range. */
    method WriteEventHeader(event: T.Event, merged: bool, y: real)
      modifies layer
      ensures layer.ops == old(layer.ops) + TL.HeaderOps(ext, event, merged, y)
    {
      OpenHeader(y);
      ghost var started := layer.ops;
      if !merged {
        WriteInstitution(event.institution);
      }
      ghost var institution := layer.ops;
      assert institution == started + (if merged then [] else TL.InstitutionOps(ext.fill, event.institution));
      layer.Emit(SetFont(Regular, 9.0));
      WriteBounded(event.title, 30);
      ghost var title := layer.ops;
      AppendAssoc(institution, [SetFont(Regular, 9.0)], BoundedOps(ext.fill, event.title, 30));
      WriteDates(event);
      HeaderSteps(old(layer.ops), started, institution, title, layer.ops, event, merged, y);
    }

    /** The start of the first block: a text section in 12-point bold, with the cursor
        5 mm right of the left column and 20 points below the slot. */
    method OpenHeader(y: real)
      modifies layer
      ensures layer.ops == old(layer.ops) + TL.HeaderOpen(y)
    {
      layer.Emit(BeginTextSection);
      layer.Emit(SetFont(Bold, 12.0));
      layer.Emit(SetLineHeight(12.0));
      layer.Emit(SetTextCursor(LEFT_COLUMN_SIZE + 5.0, PtToMm(y - 20.0)));
    }

    /** The date range closing the first block: the start month, then the end month or
        "Today" while the event is ongoing. */
    method WriteDates(event: T.Event)
      modifies layer
      ensures layer.ops == old(layer.ops) + TL.DateOps(TL.DateRange(ext, event))
    {
      var endDate := match event.endDate case None => "Today" case Some(date) => ext.monthYear(date);
      assert endDate == TL.EndDateText(ext.monthYear, event.endDate);
      layer.Emit(SetFont(Thin, 9.0));
      layer.Emit(WriteText(ext.monthYear(event.startDate) + " - " + endDate, Regular));
      layer.Emit(EndTextSection);
    }

    /** The checkpoints of `WriteEventHeader` add up to its operations. */
    lemma HeaderSteps(before: seq<Op>, started: seq<Op>, institution: seq<Op>, title: seq<Op>, header: seq<Op>,
                      event: T.Event, merged: bool, y: real)
      requires started == before + TL.HeaderOpen(y)
      requires institution == started + (if merged then [] else TL.InstitutionOps(ext.fill, event.institution))
      requires title == institution + TL.TitleOps(ext.fill, event.title)
      requires header == title + TL.DateOps(TL.DateRange(ext, event))
      ensures header == before + TL.HeaderOps(ext, event, merged, y)
    {
      var a, b := TL.HeaderOpen(y), if merged then [] else TL.InstitutionOps(ext.fill, event.institution);
      var c, d := TL.TitleOps(ext.fill, event.title), TL.DateOps(TL.DateRange(ext, event));
      AppendAssoc(before, a, b);
      AppendAssoc(before, a + b, c);
      AppendAssoc(before, a + b + c, d);
    }

    /** The second text block of `write_event`, right of the spine: the summary wrapped at
        36 columns, then the highlights joined and wrapped at 35 in bold. */
    method WriteEventDetail(event: T.Event, x: real, y: real)
      modifies layer
      ensures layer.ops == old(layer.ops) + TL.DetailOps(ext.fill, event, x, y)
    {
      layer.Emit(BeginTextSection);
      var offset := PtToMm(x);
      layer.Emit(SetTextCursor(offset + 7.0, PtToMm(y - 20.0)));
      layer.Emit(SetFont(Regular, 9.0));
      ghost var started := layer.ops;
      if event.summary.Some? {
        WriteBounded(event.summary.value, 36);
      }
      ghost var summary := layer.ops;
      WriteHighlights(event.highlights);
      ghost var highlights := layer.ops;
      layer.Emit(EndTextSection);
      DetailSteps(old(layer.ops), started, summary, highlights, layer.ops, event, x, y);
    }

    /** The highlights, when there are any: a line break, then the list joined and
        wrapped at 35 columns in bold. */
    method WriteHighlights(highlights: seq<string>)
      modifies layer
      ensures layer.ops == old(layer.ops) + (if highlights == [] then []
        else [LineBreak, SetFont(Bold, 9.0)] + BoundedOps(ext.fill, Join(highlights, "  -  "), 35))
    {
      if highlights != [] {
        layer.Emit(LineBreak);
        layer.Emit(SetFont(Bold, 9.0));
        WriteBounded(Join(highlights, "  -  "), 35);
        AppendAssoc(old(layer.ops), [LineBreak, SetFont(Bold, 9.0)], BoundedOps(ext.fill, Join(highlights, "  -  "), 35));
      }
    }

    /** The checkpoints of `WriteEventDetail` add up to its operations. */
    lemma DetailSteps(before: seq<Op>, started: seq<Op>, summary: seq<Op>, highlights: seq<Op>, done: seq<Op>,
                      event: T.Event, x: real, y: real)
      requires started == before + [BeginTextSection, SetTextCursor(PtToMm(x) + 7.0, PtToMm(y - 20.0)), SetFont(Regular, 9.0)]
      requires summary == started + (match event.summary case None => [] case Some(summary) => BoundedOps(ext.fill, summary, 36))
      requires highlights == summary + (if event.highlights == [] then []
                                        else [LineBreak, SetFont(Bold, 9.0)] + BoundedOps(ext.fill, Join(event.highlights, "  -  "), 35))
      requires done == highlights + [EndTextSection]
      ensures done == before + TL.DetailOps(ext.fill, event, x, y)
    {
      var a := [BeginTextSection, SetTextCursor(PtToMm(x) + 7.0, PtToMm(y - 20.0)), SetFont(Regular, 9.0)];
      var b := match event.summary case None => [] case Some(summary) => BoundedOps(ext.fill, summary, 36);
      var c := if event.highlights == [] then []
               else [LineBreak, SetFont(Bold, 9.0)] + BoundedOps(ext.fill, Join(event.highlights, "  -  "), 35);
      AppendAssoc(before, a, b);
      AppendAssoc(before, a + b, c);
      AppendAssoc(before, a + b + c, [EndTextSection]);
    }

    /** `write_event`: the marker of event `i` on the spine at `x`, then its two text
        blocks, in the slot `i` slots of `height` below `top`. */
    method WriteEvent(i: nat, event: T.Event, merged: bool, x: real, top: real, height: real)
      modifies layer
      ensures layer.ops == old(layer.ops) + TL.EventOps(ext, i, event, merged, x, top, height)
    {
      var y := top - i as real * height;
      DrawMarker(event.eventType, merged, x, y);
      WriteEventHeader(event, merged, y);
      WriteEventDetail(event, x, y);
      ghost var m, h, d := TL.MarkerOps(event.eventType, merged, x, y), TL.HeaderOps(ext, event, merged, y), TL.DetailOps(ext.fill, event, x, y);
      AppendAssoc(old(layer.ops), m, h);
      AppendAssoc(old(layer.ops), m + h, d);
    }

    /** The events of `write_timeline`: the work records, then the education records, added
        to a timeline and read back in its order. */
    method CollectEvents() returns (events: seq<T.Event>)
      ensures events == TL.TimelineEvents(resume)
    {
      var timeline := new T.Timeline();
      var work := resume.work;
      for k := 0 to |work|
        invariant timeline.events == TL.WorkEvents(work)[..k]
      {
        timeline.Add(T.FromWork(work[k]));
      }
      assert TL.WorkEvents(work)[..|work|] == TL.WorkEvents(work);
      var education := resume.education;
      for k := 0 to |education|
        invariant timeline.events == TL.WorkEvents(work) + TL.EducationEvents(education)[..k]
      {
        timeline.Add(T.FromEducation(education[k]));
      }
      assert TL.EducationEvents(education)[..|education|] == TL.EducationEvents(education);
      events := timeline.Events();
    }

    /** `write_timeline`: the spine, then each event in its slot, merged with the event
        before it when they share the institution. With no event nothing is drawn (the
        source's `events.len() - 1` underflows there). */
    method WriteTimeline()
      modifies layer
      ensures layer.ops == old(layer.ops) + TL.TimelineOps(ext, TL.TimelineEvents(resume))
    {
      var events := CollectEvents();
      var offsetX := MmToPt(LEFT_COLUMN_SIZE + (DOC_WIDTH - LEFT_COLUMN_SIZE) / 2.0);
      var topY := MmToPt(DOC_HEIGHT) - 20.0;
      var n := |events|;
      if n == 0 {
        assert events == [];
        assert layer.ops == old(layer.ops);
        assert TL.TimelineOps(ext, events) == [];
        return;
      }
      var eventHeight := topY / n as real;
      var lineHeight := (n - 1) as real * eventHeight;
      var line := Line(Polygon(RectanglePoints(offsetX, topY - lineHeight, 2.0, lineHeight)), true, true, false, false);
      assert offsetX == TL.TIMELINE_X && topY == TL.TOP_Y;
      assert eventHeight == TL.EventHeight(n);
      TL.SpineLengthFromSlot(n, eventHeight);
      assert line == TL.Spine(n);
      layer.Emit(SetFill(PRIMARY));
      layer.Emit(AddShape(line));
      ghost var headOps := [SetFill(PRIMARY), AddShape(TL.Spine(n))];
      ghost var head := layer.ops;
      assert head == old(layer.ops) + headOps;
      ghost var slot := TL.EventInTimeline(ext, events);
      var previous: Option<string> := None;
      for i := 0 to n
        invariant layer.ops == head + Joined(slot, i)
        invariant previous == if i == 0 then None else Some(events[i - 1].institution)
      {
        var merged := previous.Some? && previous.value == events[i].institution;
        ghost var drawn := Joined(slot, i);
        TL.EventInTimelineAt(ext, events, i, merged);
        WriteEvent(i, events[i], merged, offsetX, topY, eventHeight);
        AppendAssoc(head, drawn, slot(i));
        previous := Some(events[i].institution);
      }
      TimelineSteps(old(layer.ops), head, layer.ops, events);
    }

    /** The spine and the events drawn after it add up to the timeline's operations. */
    lemma TimelineSteps(before: seq<Op>, head: seq<Op>, done: seq<Op>, events: seq<T.Event>)
      requires events != []
      requires head == before + [SetFill(PRIMARY), AddShape(TL.Spine(|events|))]
      requires done == head + Joined(TL.EventInTimeline(ext, events), |events|)
      ensures done == before + TL.TimelineOps(ext, events)
    {
      AppendAssoc(before, [SetFill(PRIMARY), AddShape(TL.Spine(|events|))], TL.EventsOps(ext, events, |events|));
    }

    // -------------------------------------------------------------- the page

    /** `save` up to writing the file: the sections in order, stopping at the QR code's
        failure or at the first network without an icon. */
    method Save() returns (r: Outcome<LayoutError>)
      modifies layer
      ensures PageOps(resume, ext).Success? ==>
        r == Pass && layer.ops == old(layer.ops) + PageOps(resume, ext).value
      ensures PageOps(resume, ext).Failure? ==> r == Fail(PageOps(resume, ext).error)
    {
      var basics := resume.basics;
      DrawLeftBackground();
      var start := AddProfilePicture();
      r := SocialQrCode();
      if r.Fail? {
        return;
      }
      ghost var qr := QrOps(basics, ext).value;
      ghost var top := layer.ops;
      AppendAssoc(old(layer.ops), BackgroundOps(), PictureOps(basics, ext));
      AppendAssoc(old(layer.ops), BackgroundOps() + PictureOps(basics, ext), qr);
      assert top == old(layer.ops) + Top(basics, ext, qr);
      WriteBio(start);
      ghost var bio := layer.ops;
      WriteInfo(start);
      r := WriteSocial(start);
      if r.Fail? {
        return;
      }
      ghost var social := SocialOps(basics, start).value;
      ghost var info := InfoOps(basics, start, ext);
      assert layer.ops == bio + info + social;
      WriteLanguages(start);
      ghost var languages := LanguagesOps(resume.languages, start);
      WriteSkills(start);
      ghost var skills := SkillsOps(resume.skills, start, ext.fill);
      WriteTimeline();
      ghost var timeline := TL.TimelineOps(ext, TL.TimelineEvents(resume));
      SaveSteps(old(layer.ops), top, bio, layer.ops, Top(basics, ext, qr), BioOps(basics, start),
                info, social, languages, skills, timeline);
      assert Rest(resume, ext, social) == info + social + languages + skills + timeline;
    }

    /** The checkpoints of `Save` add up to the page. */
    lemma SaveSteps(before: seq<Op>, top: seq<Op>, bio: seq<Op>, done: seq<Op>,
                    topOps: seq<Op>, bioOps: seq<Op>, info: seq<Op>, social: seq<Op>,
                    languages: seq<Op>, skills: seq<Op>, timeline: seq<Op>)
      requires top == before + topOps && bio == top + bioOps
      requires done == bio + info + social + languages + skills + timeline
      ensures done == before + (topOps + bioOps + (info + social + languages + skills + timeline))
    {
    }
  }
}
