/** The right column of the page, drawn by `write_timeline` and `write_event` in
    src/pdf/mod.rs: a vertical spine with one slot per event, most recent at the top,
    and for each event a marker on the spine and two text blocks beside it. */
module TimelineLayout {
  import opened Wrappers
  import opened Colour
  import opened Shape
  import opened Canvas
  import opened Strings
  import opened Seqs
  import opened Page
  import opened Text
  import opened Sidebar
  import R = Resume
  import T = Timeline

  // ---------------------------------------------------------------- events

  /** The work records' events, in the résumé's order. */
  function WorkEvents(work: seq<R.Work>): (r: seq<T.Event>)
    ensures |r| == |work| && forall k :: 0 <= k < |work| ==> r[k] == T.FromWork(work[k])
  {
    seq(|work|, k requires 0 <= k < |work| => T.FromWork(work[k]))
  }

  /** The education records' events, in the résumé's order. */
  function EducationEvents(education: seq<R.Education>): (r: seq<T.Event>)
    ensures |r| == |education| && forall k :: 0 <= k < |education| ==> r[k] == T.FromEducation(education[k])
  {
    seq(|education|, k requires 0 <= k < |education| => T.FromEducation(education[k]))
  }

  /** The events the timeline draws: work first, then education, added to a timeline and
      read back in its order. */
  function TimelineEvents(resume: R.Resume): seq<T.Event>
  {
    T.SortEvents(WorkEvents(resume.work) + EducationEvents(resume.education))
  }

  /** Every work and every education record becomes exactly one event, and the events
      come out ongoing first, then most recent first. */
  lemma TimelineEventsMeaning(resume: R.Resume)
    ensures multiset(TimelineEvents(resume)) == multiset(WorkEvents(resume.work) + EducationEvents(resume.education))
    ensures |TimelineEvents(resume)| == |resume.work| + |resume.education|
    ensures T.Sorted(TimelineEvents(resume))
    ensures TimelineEvents(resume) == [] <==> resume.work == [] && resume.education == []
  {
    var all := WorkEvents(resume.work) + EducationEvents(resume.education);
    T.SortEventsSorted(all);
    assert |multiset(TimelineEvents(resume))| == |multiset(all)|;
  }

  // ---------------------------------------------------------------- geometry

  /** The spine's x position, in points: the middle of the right column. */
  const TIMELINE_X: real := MmToPt(LEFT_COLUMN_SIZE + (DOC_WIDTH - LEFT_COLUMN_SIZE) / 2.0)

  /** The first slot's y position, in points: 20 points below the top of the page. */
  const TOP_Y: real := MmToPt(DOC_HEIGHT) - 20.0

  /** The vertical space per event: the height above the bottom of the page shared evenly. */
  function EventHeight(n: nat): real
    requires n > 0
  {
    TOP_Y / n as real
  }

  /** The spine runs from the first slot down to the last. */
  function SpineLength(n: nat): real
    requires n > 0
  {
    (n - 1) as real * EventHeight(n)
  }

  /** The spine's length computed from the slot height, as `write_timeline` does. */
  lemma SpineLengthFromSlot(n: nat, slot: real)
    requires n > 0 && slot == EventHeight(n)
    ensures (n - 1) as real * slot == SpineLength(n)
  {
  }

  /** The y position of the spine's bottom end, in points. */
  function SpineBottom(n: nat): real
    requires n > 0
  {
    TOP_Y - SpineLength(n)
  }

  /** The y position of slot `i`, in points. */
  function SlotY(n: nat, i: nat): real
    requires n > 0
  {
    TOP_Y - i as real * EventHeight(n)
  }

  /** The spine: a filled, unstroked bar 2 points wide. */
  function Spine(n: nat): Line
    requires n > 0
  {
    Line(Polygon(RectanglePoints(TIMELINE_X, TOP_Y - SpineLength(n), 2.0, SpineLength(n))), true, true, false, false)
  }

  /** The slots go down the page evenly from the top slot to the spine's bottom end, which
      is one event height above the bottom of the page. */
  lemma SlotGeometry(n: nat)
    requires n > 0
    ensures TOP_Y > 0.0 && EventHeight(n) > 0.0
    ensures SlotY(n, 0) == TOP_Y
    ensures SlotY(n, n - 1) == TOP_Y - SpineLength(n) == EventHeight(n)
    ensures forall i :: 0 <= i < n - 1 ==> SlotY(n, i) - SlotY(n, i + 1) == EventHeight(n)
    ensures forall i :: 0 <= i < n ==> TOP_Y - SpineLength(n) <= SlotY(n, i) <= TOP_Y
  {
    var h := EventHeight(n);
    assert n as real * h == TOP_Y;
    assert SpineLength(n) == n as real * h - h;
    forall i | 0 <= i < n
      ensures TOP_Y - SpineLength(n) <= SlotY(n, i) <= TOP_Y
    {
      assert 0.0 <= i as real * h <= (n - 1) as real * h;
    }
  }

  // ---------------------------------------------------------------- one event

  /** Whether event `i` has the institution of the event drawn just before it. */
  predicate Merged(events: seq<T.Event>, i: nat)
    requires i < |events|
  {
    i > 0 && events[i - 1].institution == events[i].institution
  }

  /** A marker of radius `RADIUS`, centred on the spine at `y`. */
  function OuterCircle(x: real, y: real): Line
  {
    Line(Circle(RADIUS, Point(x + 1.0, y)), true, true, true, false)
  }

  /** The 1-point dot inside a work marker. */
  function InnerCircle(x: real, y: real): Line
  {
    Line(Circle(1.0, Point(x + 1.0, y)), true, true, true, false)
  }

  /** The marker: none for an event that continues the previous institution, a ring (a
      disc in the secondary colour with a dot in the accent colour) for work, and an
      accent disc for education. */
  function MarkerOps(eventType: T.EventType, merged: bool, x: real, y: real): seq<Op>
  {
    [SetOutline(PRIMARY)]
    + if merged then [SetFill(PRIMARY)]
      else match eventType
        case Work => [SetFill(SECONDARY), AddShape(OuterCircle(x, y)), SetFill(PRIMARY), AddShape(InnerCircle(x, y))]
        case Education => [SetFill(PRIMARY), AddShape(OuterCircle(x, y))]
  }

  /** The shapes of a marker: none when merged, the ring and the dot for work, the disc
      for education. */
  lemma MarkerShapes(eventType: T.EventType, merged: bool, x: real, y: real)
    ensures Shapes(MarkerOps(eventType, merged, x, y)) ==
      if merged then []
      else if eventType == T.Work then [OuterCircle(x, y), InnerCircle(x, y)]
      else [OuterCircle(x, y)]
  {
    var ops := MarkerOps(eventType, merged, x, y);
    Cons(ops[0], ops[1..]);
    if merged {
      NoShapes(ops);
    } else if eventType == T.Work {
      var rest := ops[1..];
      Cons(rest[0], rest[1..]);
      Cons(rest[1], rest[2..]);
      Cons(rest[2], rest[3..]);
      Cons(rest[3], rest[4..]);
      assert rest[4..] == [];
    } else {
      var rest := ops[1..];
      Cons(rest[0], rest[1..]);
      Cons(rest[1], rest[2..]);
      assert rest[2..] == [];
    }
  }

  /** The fill each marker shape is drawn with: the work ring in the secondary colour,
      and the last shape (the dot, or the education disc) in the primary colour. */
  lemma MarkerFills(eventType: T.EventType, merged: bool, x: real, y: real)
    ensures !merged && eventType == T.Work ==>
      MarkerOps(eventType, merged, x, y)[1..3] == [SetFill(SECONDARY), AddShape(OuterCircle(x, y))]
    ensures !merged ==> MarkerOps(eventType, merged, x, y)[|MarkerOps(eventType, merged, x, y)| - 2] == SetFill(PRIMARY)
  {
  }

  /** A marker writes no text and breaks no line. */
  lemma MarkerPlain(eventType: T.EventType, merged: bool, x: real, y: real)
    ensures Texts(MarkerOps(eventType, merged, x, y)) == [] && LineBreaks(MarkerOps(eventType, merged, x, y)) == 0
  {
    var ops := MarkerOps(eventType, merged, x, y);
    NoTexts(ops);
    NoLineBreaks(ops);
  }

  /** The institution's name, before its first comma, and its location, after it. */
  function InstitutionParts(institution: string): (string, string)
  {
    var pieces := Split(institution, ',');
    (pieces[0], Join(pieces[1..], ","))
  }

  /** The name holds no comma, and name and location rebuild the institution. */
  lemma InstitutionRebuilt(institution: string)
    ensures var (name, location) := InstitutionParts(institution);
      && ',' !in name
      && (',' in institution ==> institution == name + "," + location)
      && (',' !in institution ==> name == institution && location == "")
  {
    var pieces := Split(institution, ',');
    JoinSplit(institution, ',');
    SplitIsSingleIff(institution, ',');
    SplitPiecesFree(institution, ',');
    if ',' !in institution {
      assert pieces[1..] == [];
    }
  }

  /** The end of an event's date range: its month and year, or "Today" when it is ongoing. */
  function EndDateText(monthYear: R.Date -> string, endDate: Option<R.Date>): string
  {
    match endDate
    case None => "Today"
    case Some(date) => monthYear(date)
  }

  function DateRange(ext: Collaborators, event: T.Event): string
  {
    ext.monthYear(event.startDate) + " - " + EndDateText(ext.monthYear, event.endDate)
  }

  /** The institution's location, trimmed and wrapped at 30 columns, when there is one. */
  function LocationOps(fill: (string, nat) -> string, location: string): seq<Op>
  {
    if location == "" then [] else BoundedOps(fill, Trim(location), 30)
  }

  /** The institution: its name wrapped at 30 columns, then its location. */
  function InstitutionOps(fill: (string, nat) -> string, institution: string): seq<Op>
  {
    var (name, location) := InstitutionParts(institution);
    BoundedOps(fill, name, 30) + [SetFont(Regular, 9.0)] + LocationOps(fill, location)
  }

  /** The opening of the first text block: bold 12-point text, left of the spine. */
  function HeaderOpen(y: real): seq<Op>
  {
    [BeginTextSection, SetFont(Bold, 12.0), SetLineHeight(12.0), SetTextCursor(LEFT_COLUMN_SIZE + 5.0, PtToMm(y - 20.0))]
  }

  /** The title, wrapped at 30 columns in the regular font. */
  function TitleOps(fill: (string, nat) -> string, title: string): seq<Op>
  {
    [SetFont(Regular, 9.0)] + BoundedOps(fill, title, 30)
  }

  /** The date range in the thin font, closing the first block. */
  function DateOps(dates: string): seq<Op>
  {
    [SetFont(Thin, 9.0), WriteText(dates, Regular), EndTextSection]
  }

  /** The first text block, left of the spine: the institution unless merged, the title,
      then the date range. */
  function HeaderOps(ext: Collaborators, event: T.Event, merged: bool, y: real): seq<Op>
  {
    HeaderOpen(y)
    + (if merged then [] else InstitutionOps(ext.fill, event.institution))
    + TitleOps(ext.fill, event.title)
    + DateOps(DateRange(ext, event))
  }

  /** The second text block, right of the spine: the summary, then the highlights joined
      on one wrapped line in bold. */
  function DetailOps(fill: (string, nat) -> string, event: T.Event, x: real, y: real): seq<Op>
  {
    [BeginTextSection, SetTextCursor(PtToMm(x) + 7.0, PtToMm(y - 20.0)), SetFont(Regular, 9.0)]
    + (match event.summary case None => [] case Some(summary) => BoundedOps(fill, summary, 36))
    + (if event.highlights == [] then []
       else [LineBreak, SetFont(Bold, 9.0)] + BoundedOps(fill, Join(event.highlights, "  -  "), 35))
    + [EndTextSection]
  }

  /** The event's marker and its two text blocks, for the slot at height `y`. */
  function EventAtOps(ext: Collaborators, event: T.Event, merged: bool, x: real, y: real): seq<Op>
  {
    MarkerOps(event.eventType, merged, x, y) + HeaderOps(ext, event, merged, y) + DetailOps(ext.fill, event, x, y)
  }

  /** `write_event` for event `i`, the spine at `x`, the first slot at `top` and slots
      `height` apart. */
  function EventOps(ext: Collaborators, i: nat, event: T.Event, merged: bool, x: real, top: real, height: real): seq<Op>
  {
    EventAtOps(ext, event, merged, x, top - i as real * height)
  }

  /** Wrapped text draws no shape. */
  lemma BoundedShapes(fill: (string, nat) -> string, text: string, width: nat)
    ensures Shapes(BoundedOps(fill, text, width)) == []
  {
    var ops := BoundedOps(fill, text, width);
    forall k | 0 <= k < |ops|
      ensures !ops[k].AddShape?
    {
      LinesOpsAt(BoundedLines(fill, text, width), Regular, k / 2);
    }
    NoShapes(ops);
  }

  /** A location is written as its wrapped lines, with no shape. */
  lemma LocationTexts(fill: (string, nat) -> string, location: string)
    ensures Texts(LocationOps(fill, location)) == if location == "" then [] else BoundedLines(fill, Trim(location), 30)
    ensures Shapes(LocationOps(fill, location)) == []
  {
    if location == "" {
      NoTexts([]); NoShapes([]);
    } else {
      LinesOpsTexts(BoundedLines(fill, Trim(location), 30), Regular);
      BoundedShapes(fill, Trim(location), 30);
    }
  }

  /** A name and a location are written as the name's wrapped lines, then the location's. */
  lemma NameLocationTexts(fill: (string, nat) -> string, name: string, location: string)
    ensures Texts(BoundedOps(fill, name, 30) + [SetFont(Regular, 9.0)] + LocationOps(fill, location)) ==
      BoundedLines(fill, name, 30) + (if location == "" then [] else BoundedLines(fill, Trim(location), 30))
    ensures Shapes(BoundedOps(fill, name, 30) + [SetFont(Regular, 9.0)] + LocationOps(fill, location)) == []
  {
    var a := BoundedOps(fill, name, 30);
    var b := [SetFont(Regular, 9.0)];
    var c := LocationOps(fill, location);
    LinesOpsTexts(BoundedLines(fill, name, 30), Regular);
    BoundedShapes(fill, name, 30);
    LocationTexts(fill, location);
    NoTexts(b); NoShapes(b);
    PlainAround(a, b, c);
  }

  /** The institution is written as its name's wrapped lines, then its location's. */
  lemma InstitutionTexts(fill: (string, nat) -> string, institution: string)
    ensures var (name, location) := InstitutionParts(institution);
      && Texts(InstitutionOps(fill, institution)) ==
           BoundedLines(fill, name, 30) + (if location == "" then [] else BoundedLines(fill, Trim(location), 30))
      && Shapes(InstitutionOps(fill, institution)) == []
  {
    var (name, location) := InstitutionParts(institution);
    NameLocationTexts(fill, name, location);
  }

  /** The opening writes and draws nothing. */
  lemma HeaderOpenPlain(y: real)
    ensures Texts(HeaderOpen(y)) == [] && Shapes(HeaderOpen(y)) == []
  {
    NoTexts(HeaderOpen(y));
    NoShapes(HeaderOpen(y));
  }

  /** The title is written as its wrapped lines, with no shape. */
  lemma TitleTexts(fill: (string, nat) -> string, title: string)
    ensures Texts(TitleOps(fill, title)) == BoundedLines(fill, title, 30)
    ensures Shapes(TitleOps(fill, title)) == []
  {
    var a, b := [SetFont(Regular, 9.0)], BoundedOps(fill, title, 30);
    NoTexts(a); NoShapes(a);
    LinesOpsTexts(BoundedLines(fill, title, 30), Regular);
    BoundedShapes(fill, title, 30);
    TextsAppend(a, b); ShapesAppend(a, b);
  }

  /** The date range is the one text of its piece. */
  lemma DateTexts(dates: string)
    ensures Texts(DateOps(dates)) == [dates] && Shapes(DateOps(dates)) == []
  {
    var ops := DateOps(dates);
    Cons(ops[0], ops[1..]);
    Cons(ops[1], ops[2..]);
    NoTexts(ops[2..]); NoShapes(ops[2..]);
  }

  /** The texts of the first block: the institution's lines unless merged, the title's
      lines, and the date range last. */
  lemma HeaderTexts(ext: Collaborators, event: T.Event, merged: bool, y: real)
    ensures var (name, location) := InstitutionParts(event.institution);
      Texts(HeaderOps(ext, event, merged, y)) ==
        (if merged then []
         else BoundedLines(ext.fill, name, 30)
              + (if location == "" then [] else BoundedLines(ext.fill, Trim(location), 30)))
        + BoundedLines(ext.fill, event.title, 30) + [DateRange(ext, event)]
    ensures Shapes(HeaderOps(ext, event, merged, y)) == []
  {
    var a := HeaderOpen(y);
    var b := if merged then [] else InstitutionOps(ext.fill, event.institution);
    var c := TitleOps(ext.fill, event.title);
    var d := DateOps(DateRange(ext, event));
    HeaderOpenPlain(y);
    if merged {
      NoTexts(b); NoShapes(b);
    } else {
      InstitutionTexts(ext.fill, event.institution);
    }
    TitleTexts(ext.fill, event.title);
    DateTexts(DateRange(ext, event));
    Concat4(a, b, c, d);
    assert HeaderOps(ext, event, merged, y) == a + b + c + d;
    assert Texts(a + b + c + d) == [] + Texts(b) + BoundedLines(ext.fill, event.title, 30) + [DateRange(ext, event)];
    assert [] + Texts(b) == Texts(b);
  }

  /** The second block draws no shape. */
  lemma DetailShapes(fill: (string, nat) -> string, event: T.Event, x: real, y: real)
    ensures Shapes(DetailOps(fill, event, x, y)) == []
  {
    var a := [BeginTextSection, SetTextCursor(PtToMm(x) + 7.0, PtToMm(y - 20.0)), SetFont(Regular, 9.0)];
    var b := match event.summary case None => [] case Some(summary) => BoundedOps(fill, summary, 36);
    var c := if event.highlights == [] then []
             else [LineBreak, SetFont(Bold, 9.0)] + BoundedOps(fill, Join(event.highlights, "  -  "), 35);
    var d := [EndTextSection];
    NoShapes(a); NoShapes(d);
    if event.summary.Some? {
      BoundedShapes(fill, event.summary.value, 36);
    }
    HighlightsShapes(fill, event.highlights);
    NoShapesIn(a, b, c, d);
  }

  /** The highlights line draws no shape. */
  lemma HighlightsShapes(fill: (string, nat) -> string, highlights: seq<string>)
    ensures Shapes(if highlights == [] then []
                   else [LineBreak, SetFont(Bold, 9.0)] + BoundedOps(fill, Join(highlights, "  -  "), 35)) == []
  {
    if highlights != [] {
      NoShapes([LineBreak, SetFont(Bold, 9.0)]);
      BoundedShapes(fill, Join(highlights, "  -  "), 35);
      ShapesAppend([LineBreak, SetFont(Bold, 9.0)], BoundedOps(fill, Join(highlights, "  -  "), 35));
    }
  }

  /** Four parts without shapes make a trace without shapes. */
  lemma NoShapesIn(a: seq<Op>, b: seq<Op>, c: seq<Op>, d: seq<Op>)
    requires Shapes(a) == [] && Shapes(b) == [] && Shapes(c) == [] && Shapes(d) == []
    ensures Shapes(a + b + c + d) == []
  {
    Concat4(a, b, c, d);
  }

  /** An event's only shapes are its marker's. */
  lemma EventShapes(ext: Collaborators, event: T.Event, merged: bool, x: real, y: real)
    ensures Shapes(EventAtOps(ext, event, merged, x, y)) == Shapes(MarkerOps(event.eventType, merged, x, y))
  {
    var m, h, d := MarkerOps(event.eventType, merged, x, y), HeaderOps(ext, event, merged, y), DetailOps(ext.fill, event, x, y);
    HeaderTexts(ext, event, merged, y);
    DetailShapes(ext.fill, event, x, y);
    Concat3(m, h, d);
    assert Shapes(m + h + d) == Shapes(m) + [] + [];
  }

  // ---------------------------------------------------------------- the timeline

  /** Event `i` of the timeline as drawn in its slot, merged with the one before it
      when they share the institution. */
  function EventInTimeline(ext: Collaborators, events: seq<T.Event>): nat -> seq<Op>
    requires events != []
  {
    (i: nat) => if i < |events| then EventOps(ext, i, events[i], Merged(events, i), TIMELINE_X, TOP_Y, EventHeight(|events|)) else []
  }

  lemma EventInTimelineAt(ext: Collaborators, events: seq<T.Event>, i: nat, merged: bool)
    requires i < |events| && merged == Merged(events, i)
    ensures EventInTimeline(ext, events)(i) == EventOps(ext, i, events[i], merged, TIMELINE_X, TOP_Y, EventHeight(|events|))
  {
  }

  /** The first `k` events, each in its slot. */
  function EventsOps(ext: Collaborators, events: seq<T.Event>, k: nat): seq<Op>
    requires 0 < |events| && k <= |events|
  {
    Joined(EventInTimeline(ext, events), k)
  }

  /** `write_timeline` as written, built with overflow checks (as in a debug build):
      `events.len() - 1` is a `usize` subtraction, so an empty timeline panics before the
      spine is drawn. A release build wraps instead: the event height `top_y / 0` is
      infinite and the spine is drawn at non-finite coordinates; that build is not
      modelled. */
  function TimelineOpsAsWritten(ext: Collaborators, events: seq<T.Event>): Result<seq<Op>, LayoutError>
  {
    if |events| == 0 then Failure(EmptyTimeline)
    else Success([SetFill(PRIMARY), AddShape(Spine(|events|))] + EventsOps(ext, events, |events|))
  }

  /** `write_timeline` with the empty case handled: no events, nothing drawn. */
  function TimelineOps(ext: Collaborators, events: seq<T.Event>): seq<Op>
  {
    if events == [] then [] else [SetFill(PRIMARY), AddShape(Spine(|events|))] + EventsOps(ext, events, |events|)
  }

  /** A résumé without work and without education makes the timeline as written fail
      (with overflow checks on) before any timeline operation. */
  lemma EmptyTimelinePanics(ext: Collaborators, resume: R.Resume)
    requires resume.work == [] && resume.education == []
    ensures TimelineOpsAsWritten(ext, TimelineEvents(resume)) == Failure(EmptyTimeline)
  {
    TimelineEventsMeaning(resume);
  }

  /** The corrected timeline draws nothing for no events and agrees with the source on
      every other input. */
  lemma TimelineOpsCorrected(ext: Collaborators, events: seq<T.Event>)
    ensures TimelineOps(ext, events) == [] <==> events == []
    ensures events != [] ==> TimelineOpsAsWritten(ext, events) == Success(TimelineOps(ext, events))
  {
  }

  /** Within the timeline, event `i` is drawn right after the spine and the events before
      it, in slot `i`, and merged (no marker, no institution) exactly when event `i - 1`
      has the same institution. */
  lemma TimelineEventAt(ext: Collaborators, events: seq<T.Event>, i: nat)
    requires i < |events|
    ensures var n := |events|;
      var merged := i > 0 && events[i - 1].institution == events[i].institution;
      [SetFill(PRIMARY), AddShape(Spine(n))] + EventsOps(ext, events, i)
        + EventAtOps(ext, events[i], merged, TIMELINE_X, SlotY(n, i))
      <= TimelineOps(ext, events)
  {
    var n := |events|;
    var merged := i > 0 && events[i - 1].institution == events[i].institution;
    EventInTimelineAt(ext, events, i, merged);
    JoinedPrefixAt([SetFill(PRIMARY), AddShape(Spine(n))], EventInTimeline(ext, events), i, n);
  }

  /** The parts up to and including part `i`, behind a common head. */
  lemma JoinedPrefixAt(head: seq<Op>, f: nat -> seq<Op>, i: nat, n: nat)
    requires i < n
    ensures head + Joined(f, i) + f(i) <= head + Joined(f, n)
  {
    JoinedPrefix(f, i + 1, n);
    AppendAssoc(head, Joined(f, i), f(i));
  }

  /** The corrected timeline of a résumé is empty exactly when it has neither work nor
      education. */
  lemma NoTimelineExactly(ext: Collaborators, resume: R.Resume)
    ensures TimelineOps(ext, TimelineEvents(resume)) == [] <==> resume.work == [] && resume.education == []
  {
    TimelineEventsMeaning(resume);
    TimelineOpsCorrected(ext, TimelineEvents(resume));
  }

  /** A circle centred on the spine's middle line, between the spine's bottom end
      `bottom` and the top slot. */
  predicate OnSpine(line: Line, bottom: real)
  {
    && line.path.Circle?
    && line.path.centre.x == TIMELINE_X + 1.0
    && bottom <= line.path.centre.y <= TOP_Y
  }

  /** The lines that are not circles on the spine, in order. */
  function OffSpine(lines: seq<Line>, bottom: real): seq<Line>
    decreases |lines|
  {
    if lines == [] then []
    else (if OnSpine(lines[0], bottom) then [] else [lines[0]]) + OffSpine(lines[1..], bottom)
  }

  lemma {:induction false} OffSpineAt(lines: seq<Line>, bottom: real, j: nat)
    requires OffSpine(lines, bottom) == [] && j < |lines|
    ensures OnSpine(lines[j], bottom)
    decreases j
  {
    if j > 0 {
      OffSpineAt(lines[1..], bottom, j - 1);
    }
  }

  lemma {:induction false} OffSpineAppend(a: seq<Line>, b: seq<Line>, bottom: real)
    ensures OffSpine(a + b, bottom) == OffSpine(a, bottom) + OffSpine(b, bottom)
    decreases |a|
  {
    if a == [] {
      assert a + b == b;
    } else {
      OffSpineAppend(a[1..], b, bottom);
      assert (a + b)[0] == a[0] && (a + b)[1..] == a[1..] + b;
      AppendAssoc(if OnSpine(a[0], bottom) then [] else [a[0]], OffSpine(a[1..], bottom), OffSpine(b, bottom));
    }
  }

  lemma OffSpineOne(line: Line, bottom: real)
    requires OnSpine(line, bottom)
    ensures OffSpine([line], bottom) == []
  {
    assert [line][1..] == [];
    assert OffSpine([line], bottom) == [] + OffSpine([], bottom);
  }

  /** Two traces drawing only on the spine, one after the other, draw only on it. */
  lemma OpsOnSpineAppend(a: seq<Op>, b: seq<Op>, bottom: real)
    requires OffSpine(Shapes(a), bottom) == [] && OffSpine(Shapes(b), bottom) == []
    ensures OffSpine(Shapes(a + b), bottom) == []
  {
    ShapesAppend(a, b);
    OffSpineAppend(Shapes(a), Shapes(b), bottom);
  }

  /** Slot `i` lies between the spine's ends. */
  lemma SlotOnSpine(n: nat, i: nat)
    requires i < n
    ensures SpineBottom(n) <= SlotY(n, i) <= TOP_Y
  {
    var h := EventHeight(n);
    assert h > 0.0;
    assert 0.0 <= i as real * h <= (n - 1) as real * h;
  }

  /** A marker drawn on the spine at a height between its ends lies on the spine. */
  lemma MarkerOnSpine(eventType: T.EventType, merged: bool, y: real, bottom: real)
    requires bottom <= y <= TOP_Y
    ensures OffSpine(Shapes(MarkerOps(eventType, merged, TIMELINE_X, y)), bottom) == []
  {
    MarkerShapes(eventType, merged, TIMELINE_X, y);
    var outer, inner := OuterCircle(TIMELINE_X, y), InnerCircle(TIMELINE_X, y);
    OffSpineOne(outer, bottom);
    OffSpineOne(inner, bottom);
    OffSpineAppend([outer], [inner], bottom);
    assert [outer] + [inner] == [outer, inner];
  }

  /** An event drawn at a height between the spine's ends draws only on the spine. */
  lemma EventAtOnSpine(ext: Collaborators, event: T.Event, merged: bool, y: real, bottom: real)
    requires bottom <= y <= TOP_Y
    ensures OffSpine(Shapes(EventAtOps(ext, event, merged, TIMELINE_X, y)), bottom) == []
  {
    EventShapes(ext, event, merged, TIMELINE_X, y);
    MarkerOnSpine(event.eventType, merged, y, bottom);
  }

  /** Event `i` of the timeline is drawn at slot `i`. */
  lemma EventInSlot(ext: Collaborators, events: seq<T.Event>, i: nat)
    requires i < |events|
    ensures EventOps(ext, i, events[i], Merged(events, i), TIMELINE_X, TOP_Y, EventHeight(|events|))
      == EventAtOps(ext, events[i], Merged(events, i), TIMELINE_X, SlotY(|events|, i))
  {
  }

  /** Every shape of event `i` is a marker centred on the spine. */
  lemma EventOnSpine(ext: Collaborators, events: seq<T.Event>, i: nat)
    requires i < |events|
    ensures OffSpine(Shapes(EventOps(ext, i, events[i], Merged(events, i), TIMELINE_X, TOP_Y, EventHeight(|events|))), SpineBottom(|events|)) == []
  {
    var n := |events|;
    EventInSlot(ext, events, i);
    SlotOnSpine(n, i);
    EventAtOnSpine(ext, events[i], Merged(events, i), SlotY(n, i), SpineBottom(n));
  }

  lemma {:induction false} JoinedOnSpine(f: nat -> seq<Op>, k: nat, bottom: real)
    requires forall i :: 0 <= i < k ==> OffSpine(Shapes(f(i)), bottom) == []
    ensures OffSpine(Shapes(Joined(f, k)), bottom) == []
  {
    if k > 0 {
      JoinedOnSpine(f, k - 1, bottom);
      OpsOnSpineAppend(Joined(f, k - 1), f(k - 1), bottom);
    }
  }

  /** Every shape of the first `k` events is a marker centred on the spine. */
  lemma EventsOnSpine(ext: Collaborators, events: seq<T.Event>, k: nat)
    requires 0 < |events| && k <= |events|
    ensures OffSpine(Shapes(EventsOps(ext, events, k)), SpineBottom(|events|)) == []
  {
    var f := EventInTimeline(ext, events);
    forall i | 0 <= i < k
      ensures OffSpine(Shapes(f(i)), SpineBottom(|events|)) == []
    {
      EventOnSpine(ext, events, i);
    }
    JoinedOnSpine(f, k, SpineBottom(|events|));
  }

  /** The markers on the spine stay clear of the left column. */
  lemma SpineClearOfColumn()
    ensures TIMELINE_X + 1.0 - RADIUS > MmToPt(LEFT_COLUMN_SIZE)
  {
    assert TIMELINE_X == MmToPt(142.25);
    assert MmToPt(142.25) - MmToPt(74.5) == 67.75 * PT_PER_MM;
    assert PT_PER_MM > 1.0;
  }

  /** After a first line, every line of a list with none off the spine is on it. */
  lemma AfterFirstOnSpine(first: Line, lines: seq<Line>, bottom: real)
    requires OffSpine(lines, bottom) == []
    ensures forall j :: 1 <= j < |[first] + lines| ==> OnSpine(([first] + lines)[j], bottom)
  {
    forall j | 1 <= j < |[first] + lines|
      ensures OnSpine(([first] + lines)[j], bottom)
    {
      ConsIndex(first, lines, j);
      OffSpineAt(lines, bottom, j - 1);
    }
  }

  /** The timeline draws the spine, then the events' shapes. */
  lemma TimelineShapeList(ext: Collaborators, events: seq<T.Event>)
    requires events != []
    ensures Shapes(TimelineOps(ext, events)) == [Spine(|events|)] + Shapes(EventsOps(ext, events, |events|))
  {
    var n := |events|;
    var head := [SetFill(PRIMARY), AddShape(Spine(n))];
    var rest := EventsOps(ext, events, n);
    Cons(head[0], head[1..]);
    Cons(head[1], head[2..]);
    NoShapes(head[2..]);
    assert Shapes(head) == [Spine(n)];
    ShapesAppend(head, rest);
    assert TimelineOps(ext, events) == head + rest;
  }

  /** The timeline's first shape is the spine, and every other shape is a marker centred
      on the spine, between its ends. */
  lemma TimelineShapes(ext: Collaborators, events: seq<T.Event>)
    requires events != []
    ensures var shapes := Shapes(TimelineOps(ext, events));
      && |shapes| >= 1
      && shapes[0] == Spine(|events|)
      && (forall j :: 1 <= j < |shapes| ==> OnSpine(shapes[j], SpineBottom(|events|)))
  {
    var n := |events|;
    TimelineShapeList(ext, events);
    EventsOnSpine(ext, events, n);
    AfterFirstOnSpine(Spine(n), Shapes(EventsOps(ext, events, n)), SpineBottom(n));
  }
}
