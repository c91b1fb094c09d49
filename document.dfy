/** The whole page as `save` in src/pdf/mod.rs draws it: the left column section by
    section, then the timeline, each appended to the layer in that order. */
module Document {
  import opened Wrappers
  import opened Canvas
  import opened Strings
  import opened Page
  import opened Sidebar
  import R = Resume
  import TL = TimelineLayout

  /** The page for the given QR code and profile lines: the column's top, the bio,
      then the rest of the column and the timeline. */
  function Assembled(resume: R.Resume, ext: Collaborators, qr: seq<Op>, social: seq<Op>): seq<Op>
  {
    Top(resume.basics, ext, qr) + BioOps(resume.basics, PictureStart(resume.basics, ext)) + Rest(resume, ext, social)
  }

  /** Background, picture and QR code. */
  function Top(basics: R.Basics, ext: Collaborators, qr: seq<Op>): seq<Op>
  {
    BackgroundOps() + PictureOps(basics, ext) + qr
  }

  /** Contact details, profiles, languages, skills, then the timeline. */
  function Rest(resume: R.Resume, ext: Collaborators, social: seq<Op>): seq<Op>
  {
    var start := PictureStart(resume.basics, ext);
    InfoOps(resume.basics, start, ext) + social
    + LanguagesOps(resume.languages, start) + SkillsOps(resume.skills, start, ext.fill)
    + TL.TimelineOps(ext, TL.TimelineEvents(resume))
  }

  /** `save` up to writing the file: the QR code's failure is returned first, then an
      unknown network stops the social section. */
  function PageOps(resume: R.Resume, ext: Collaborators): Result<seq<Op>, LayoutError>
  {
    var basics := resume.basics;
    match QrOps(basics, ext)
    case Failure(e) => Failure(e)
    case Success(qr) =>
      match SocialOps(basics, PictureStart(basics, ext))
      case Failure(e) => Failure(e)
      case Success(social) => Success(Assembled(resume, ext, qr, social))
  }

  /** The page fails exactly when the website's QR code cannot be generated or some
      profile names a network without an icon; the QR code's failure comes first, and
      otherwise the error names the first unknown network. */
  lemma DocumentOutcome(resume: R.Resume, ext: Collaborators)
    ensures var basics := resume.basics;
      PageOps(resume, ext).Failure? <==>
        (basics.website.Some? && ext.qrEncode(basics.website.value, QR_SIZE).None?)
        || exists k :: 0 <= k < |basics.profiles| && !KnownNetwork(basics.profiles[k])
    ensures var basics := resume.basics;
      basics.website.Some? && ext.qrEncode(basics.website.value, QR_SIZE).None? ==>
        PageOps(resume, ext) == Failure(QrCodeFailure(basics.website.value))
    ensures var basics := resume.basics;
      PageOps(resume, ext).Failure? && QrOps(basics, ext).Success? ==>
        exists k :: 0 <= k < |basics.profiles| && !KnownNetwork(basics.profiles[k])
          && (forall j :: 0 <= j < k ==> KnownNetwork(basics.profiles[j]))
          && PageOps(resume, ext).error == UnknownNetwork(ToLower(basics.profiles[k].network))
  {
    QrCodeImage(resume.basics, ext);
    ProfilesOutcome(resume.basics.profiles);
  }

  /** `save` as the source is written: the page of `PageOps`, except that once the
      column is drawn, `write_timeline`'s `events.len() - 1` underflows for a résumé
      without work and without education (a panic with overflow checks on). */
  function PageOpsAsWritten(resume: R.Resume, ext: Collaborators): Result<seq<Op>, LayoutError>
  {
    match PageOps(resume, ext)
    case Failure(e) => Failure(e)
    case Success(page) =>
      match TL.TimelineOpsAsWritten(ext, TL.TimelineEvents(resume))
      case Failure(e) => Failure(e)
      case Success(_) => Success(page)
  }

  /** The page as written fails exactly on a QR-code failure, an unknown network, or a
      résumé with neither work nor education; the last is reported only when the first
      two do not happen, and on every other résumé it draws the page of `PageOps`. */
  lemma DocumentOutcomeAsWritten(resume: R.Resume, ext: Collaborators)
    ensures var basics := resume.basics;
      PageOpsAsWritten(resume, ext).Failure? <==>
        (basics.website.Some? && ext.qrEncode(basics.website.value, QR_SIZE).None?)
        || (exists k :: 0 <= k < |basics.profiles| && !KnownNetwork(basics.profiles[k]))
        || (resume.work == [] && resume.education == [])
    ensures resume.work == [] && resume.education == [] && PageOps(resume, ext).Success? ==>
      PageOpsAsWritten(resume, ext) == Failure(EmptyTimeline)
    ensures resume.work != [] || resume.education != [] ==> PageOpsAsWritten(resume, ext) == PageOps(resume, ext)
  {
    DocumentOutcome(resume, ext);
    TL.TimelineEventsMeaning(resume);
    TL.TimelineOpsCorrected(ext, TL.TimelineEvents(resume));
  }

  /** The QR code is an image, so it writes no text and adds no shape. */
  lemma QrPlain(basics: R.Basics, ext: Collaborators)
    requires QrOps(basics, ext).Success?
    ensures Texts(QrOps(basics, ext).value) == [] && Shapes(QrOps(basics, ext).value) == []
  {
    var ops := QrOps(basics, ext).value;
    if ops != [] {
      assert ops[1..] == [];
    }
  }

  /** A drawn page starts with the accent background, which is its first shape. */
  lemma DocumentBegins(resume: R.Resume, ext: Collaborators)
    requires PageOps(resume, ext).Success?
    ensures var page := PageOps(resume, ext).value;
      && |page| >= 2 && page[..2] == BackgroundOps()
      && Shapes(page) != [] && Shapes(page)[0] == BackgroundBox()
  {
    var basics := resume.basics;
    var start := PictureStart(basics, ext);
    var qr := QrOps(basics, ext).value;
    var bio := BioOps(basics, start);
    var rest := Rest(resume, ext, SocialOps(basics, start).value);
    assert PageOps(resume, ext).value == BackgroundOps() + PictureOps(basics, ext) + qr + bio + rest;
    BackgroundCoversColumn();
    StartsWith(BackgroundOps(), PictureOps(basics, ext) + qr + bio + rest, PictureOps(basics, ext), qr, bio, rest);
  }

  /** A page assembled from parts starts with its first part, whose shapes come first. */
  lemma StartsWith(first: seq<Op>, after: seq<Op>, picture: seq<Op>, qr: seq<Op>, bio: seq<Op>, rest: seq<Op>)
    requires after == picture + qr + bio + rest
    ensures var page := first + picture + qr + bio + rest;
      && page[..|first|] == first && Shapes(page) == Shapes(first) + Shapes(after)
  {
    var page := first + picture + qr + bio + rest;
    assert page == first + after;
    ShapesAppend(first, after);
  }

  /** The top of the column writes no text: background, picture and QR code are shapes
      and images. */
  lemma TopPlain(basics: R.Basics, ext: Collaborators)
    requires QrOps(basics, ext).Success?
    ensures Texts(Top(basics, ext, QrOps(basics, ext).value)) == []
  {
    var qr := QrOps(basics, ext).value;
    BackgroundCoversColumn();
    ProfilePicture(basics, ext);
    QrPlain(basics, ext);
    Concat3(BackgroundOps(), PictureOps(basics, ext), qr);
  }

  /** The first texts of a drawn page are the words of the upper-cased name, then the
      headline: background, picture and QR code write nothing. */
  lemma DocumentBioFirst(resume: R.Resume, ext: Collaborators)
    requires PageOps(resume, ext).Success?
    ensures var words := Words(ToUpper(resume.basics.name));
      var texts := Texts(PageOps(resume, ext).value);
      |texts| > |words| && texts[..|words| + 1] == words + [resume.basics.headline]
  {
    var basics := resume.basics;
    var start := PictureStart(basics, ext);
    var top := Top(basics, ext, QrOps(basics, ext).value);
    var bio := BioOps(basics, start);
    var rest := Rest(resume, ext, SocialOps(basics, start).value);
    assert PageOps(resume, ext).value == top + bio + rest;
    TopPlain(basics, ext);
    BioTexts(basics, start);
    TextsAfterPlain(top, bio, rest);
  }

  /** Texts behind a part that writes none start with the next part's texts. */
  lemma TextsAfterPlain(top: seq<Op>, bio: seq<Op>, rest: seq<Op>)
    requires Texts(top) == []
    ensures Texts(top + bio + rest) == Texts(bio) + Texts(rest)
    ensures Texts(top + bio + rest)[..|Texts(bio)|] == Texts(bio)
  {
    Concat3(top, bio, rest);
  }

  /** A drawn page ends with the timeline, which is empty exactly when the résumé has
      neither work nor education. */
  lemma DocumentEndsWithTimeline(resume: R.Resume, ext: Collaborators)
    requires PageOps(resume, ext).Success?
    ensures var page := PageOps(resume, ext).value;
      var timeline := TL.TimelineOps(ext, TL.TimelineEvents(resume));
      && |timeline| <= |page| && page[|page| - |timeline|..] == timeline
      && (timeline == [] <==> resume.work == [] && resume.education == [])
  {
    var basics := resume.basics;
    var start := PictureStart(basics, ext);
    var social := SocialOps(basics, start).value;
    var timeline := TL.TimelineOps(ext, TL.TimelineEvents(resume));
    var column := InfoOps(basics, start, ext) + social + LanguagesOps(resume.languages, start) + SkillsOps(resume.skills, start, ext.fill);
    var front := Top(basics, ext, QrOps(basics, ext).value) + BioOps(basics, start);
    assert Rest(resume, ext, social) == column + timeline;
    assert PageOps(resume, ext).value == front + (column + timeline);
    EndsWith(front, column, timeline);
    TL.NoTimelineExactly(ext, resume);
  }

  /** A page assembled from a front, a column and a last part ends with that part. */
  lemma EndsWith(front: seq<Op>, column: seq<Op>, last: seq<Op>)
    ensures var page := front + (column + last);
      |last| <= |page| && page[|page| - |last|..] == last
  {
  }
}
