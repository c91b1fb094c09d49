/** The timeline builder of src/pdf/timeline.rs: work and education records become
    uniform events, and the events come out most recent first. */
module Timeline {
  import opened Wrappers
  import opened Seqs
  import R = Resume

  type Date = R.Date

  datatype EventType = Work | Education

  datatype Event = Event(
    eventType: EventType,
    startDate: Date,
    endDate: Option<Date>,
    institution: string,
    title: string,  // the source's `label`; `label` is a reserved word in Dafny
    summary: Option<string>,
    highlights: seq<string>)

  /** `From<Work> for Event`. */
  function FromWork(work: R.Work): (e: Event)
    ensures e.eventType == Work && e.institution == work.company && e.title == work.position
    ensures e.summary == Some(work.summary) && e.highlights == work.highlights
    ensures e.startDate == work.startDate && e.endDate == work.endDate
  {
    Event(Work, work.startDate, work.endDate, work.company, work.position, Some(work.summary), work.highlights)
  }

  /** `From<Education> for Event`: the label reads "<study type> in <area>". */
  function FromEducation(education: R.Education): (e: Event)
    ensures e.eventType == Education && e.institution == education.institution
    ensures e.title == education.studyType + " in " + education.area
    ensures e.summary == None && e.highlights == education.courses
    ensures e.startDate == education.startDate && e.endDate == education.endDate
  {
    Event(Education, education.startDate, education.endDate, education.institution,
          education.studyType + " in " + education.area, None, education.courses)
  }

  /** A work record's event keeps everything of it but its website. */
  lemma FromWorkLosesOnlyWebsite(a: R.Work, b: R.Work)
    requires FromWork(a) == FromWork(b)
    ensures a == b.(website := a.website)
  {
  }

  /** An education record's event does not determine its study type and area: the
      label "A in B in C" comes from two different records. */
  lemma FromEducationLabelAmbiguous()
    ensures FromEducation(R.Education("X", "B in C", "A", 0, None, None, []))
         == FromEducation(R.Education("X", "C", "A in B", 0, None, None, []))
  {
  }

  /** Events made from work records are work events and those from education records
      are education events; the two never coincide. */
  lemma FromWorkNeverEducation(w: R.Work, e: R.Education)
    ensures FromWork(w) != FromEducation(e)
  {
  }

  datatype Ordering = Less | Equal | Greater

  function CompareDates(a: Date, b: Date): Ordering
  {
    if a < b then Less else if a == b then Equal else Greater
  }

  /** The comparator given to `sort_by`: ongoing events first, ongoing events by start
      date descending, dated events by end date descending. */
  function Compare(a: Event, b: Event): Ordering
  {
    match (a.endDate, b.endDate)
    case (None, None) => CompareDates(b.startDate, a.startDate)
    case (None, _) => Less
    case (_, None) => Greater
    case (Some(x), Some(y)) => CompareDates(y, x)
  }

  /** The comparator is a total preorder: reversing the arguments reverses the answer,
      and "not after" and "same key" are transitive. */
  lemma CompareIsTotalPreorder(a: Event, b: Event, c: Event)
    ensures Compare(a, a) == Equal
    ensures Compare(a, b) == Less <==> Compare(b, a) == Greater
    ensures Compare(a, b) == Equal <==> Compare(b, a) == Equal
    ensures Compare(a, b) != Greater && Compare(b, c) != Greater ==> Compare(a, c) != Greater
    ensures Compare(a, b) == Equal && Compare(b, c) == Equal ==> Compare(a, c) == Equal
  {
  }

  /** No event is placed after one that should follow it. */
  ghost predicate Sorted(s: seq<Event>)
  {
    forall i, j :: 0 <= i < j < |s| ==> Compare(s[i], s[j]) != Greater
  }

  /** Inserts `x` after every element that may precede it, keeping equal keys in arrival order. */
  function Insert(x: Event, s: seq<Event>): (r: seq<Event>)
    ensures multiset(r) == multiset(s) + multiset{x}
  {
    if s == [] then [x]
    else if Compare(s[0], x) == Greater then [x] + s
    else
      assert s == [s[0]] + s[1..];
      [s[0]] + Insert(x, s[1..])
  }

  /** The stable sort of the events by `Compare` (insertion sort, the specification
      every stable sort meets). */
  function SortEvents(s: seq<Event>): (r: seq<Event>)
    ensures multiset(r) == multiset(s)
  {
    if s == [] then []
    else
      assert s == s[..|s| - 1] + [s[|s| - 1]];
      Insert(s[|s| - 1], SortEvents(s[..|s| - 1]))
  }

  /** An event that may precede every element of a sorted sequence may head it. */
  lemma SortedCons(y: Event, t: seq<Event>)
    requires Sorted(t)
    requires forall k :: 0 <= k < |t| ==> Compare(y, t[k]) != Greater
    ensures Sorted([y] + t)
  {
    forall i, j | 0 <= i < j < |[y] + t|
      ensures Compare(([y] + t)[i], ([y] + t)[j]) != Greater
    {
      ConsIndex(y, t, j);
      if i > 0 {
        ConsIndex(y, t, i);
      }
    }
  }

  /** Every element of `Insert(x, s)` is `x` or an element of `s`. */
  lemma InsertFrom(x: Event, s: seq<Event>, k: nat)
    requires k < |Insert(x, s)|
    ensures Insert(x, s)[k] == x || exists j :: 0 <= j < |s| && Insert(x, s)[k] == s[j]
  {
    var r := Insert(x, s);
    assert r[k] in multiset(r);
    if r[k] != x {
      assert r[k] in multiset(s);
      assert r[k] in s;
    }
  }

  /** What may precede `x` and every element of `s` may precede all of `Insert(x, s)`. */
  lemma InsertBelow(y: Event, x: Event, s: seq<Event>)
    requires Compare(y, x) != Greater
    requires forall k :: 0 <= k < |s| ==> Compare(y, s[k]) != Greater
    ensures forall k :: 0 <= k < |Insert(x, s)| ==> Compare(y, Insert(x, s)[k]) != Greater
  {
    forall k | 0 <= k < |Insert(x, s)|
      ensures Compare(y, Insert(x, s)[k]) != Greater
    {
      InsertFrom(x, s, k);
    }
  }

  lemma {:induction false} InsertSorted(x: Event, s: seq<Event>)
    requires Sorted(s)
    ensures Sorted(Insert(x, s))
  {
    if s == [] {
      assert Insert(x, s) == [x];
    } else if Compare(s[0], x) != Greater {
      var t := s[1..];
      SortedTail(s);
      InsertSorted(x, t);
      assert forall k :: 0 <= k < |t| ==> t[k] == s[k + 1];
      InsertBelow(s[0], x, t);
      SortedCons(s[0], Insert(x, t));
    } else {
      forall k | 0 <= k < |s|
        ensures Compare(x, s[k]) != Greater
      {
        CompareIsTotalPreorder(x, s[0], s[k]);
      }
      SortedCons(x, s);
    }
  }

  /** The sort's output is sorted. */
  lemma {:induction false} SortEventsSorted(s: seq<Event>)
    ensures Sorted(SortEvents(s))
  {
    if s != [] {
      SortEventsSorted(s[..|s| - 1]);
      InsertSorted(s[|s| - 1], SortEvents(s[..|s| - 1]));
    }
  }

  /** What the comparator looks at: the start date of an ongoing event, the end date
      of a finished one. */
  datatype SortKey = Ongoing(start: Date) | Ended(end: Date)

  function KeyOf(e: Event): SortKey
  {
    match e.endDate
    case None => Ongoing(e.startDate)
    case Some(date) => Ended(date)
  }

  /** Two events compare equal exactly when they have the same sort key. */
  lemma KeyOfMeaning(a: Event, b: Event)
    ensures Compare(a, b) == Equal <==> KeyOf(a) == KeyOf(b)
  {
  }

  /** `x` alone when it has sort key `key`, nothing otherwise. */
  function KeyMatch(x: Event, key: SortKey): seq<Event>
  {
    if KeyOf(x) == key then [x] else []
  }

  /** The events with sort key `key`, in their order in `s`. */
  function SameKey(s: seq<Event>, key: SortKey): seq<Event>
  {
    if s == [] then [] else KeyMatch(s[0], key) + SameKey(s[1..], key)
  }

  lemma SameKeyCons(x: Event, s: seq<Event>, key: SortKey)
    ensures SameKey([x] + s, key) == KeyMatch(x, key) + SameKey(s, key)
  {
    assert ([x] + s)[1..] == s;
  }

  lemma {:induction false} SameKeyAppend(a: seq<Event>, b: seq<Event>, key: SortKey)
    ensures SameKey(a + b, key) == SameKey(a, key) + SameKey(b, key)
  {
    if a == [] {
      assert a + b == b;
    } else {
      var x, rest := a[0], a[1..];
      SameKeyAppend(rest, b, key);
      HeadTail(a);
      AppendAssoc([x], rest, b);
      SameKeyCons(x, rest + b, key);
      SameKeyCons(x, rest, key);
      AppendAssoc(KeyMatch(x, key), SameKey(rest, key), SameKey(b, key));
    }
  }

  lemma {:induction false} SameKeyNone(s: seq<Event>, key: SortKey)
    requires forall k :: 0 <= k < |s| ==> KeyOf(s[k]) != key
    ensures SameKey(s, key) == []
  {
    if s != [] {
      SameKeyNone(s[1..], key);
    }
  }

  lemma SortedTail(s: seq<Event>)
    requires Sorted(s) && s != []
    ensures Sorted(s[1..])
  {
  }

  /** In a sorted sequence that starts after `x`, nothing has `x`'s sort key. */
  lemma AllAfter(x: Event, s: seq<Event>)
    requires Sorted(s) && s != [] && Compare(s[0], x) == Greater
    ensures forall k :: 0 <= k < |s| ==> KeyOf(s[k]) != KeyOf(x)
  {
    forall k | 0 <= k < |s|
      ensures KeyOf(s[k]) != KeyOf(x)
    {
      assert Compare(s[0], s[k]) != Greater;
      CompareIsTotalPreorder(s[0], s[k], x);
      KeyOfMeaning(s[k], x);
    }
  }

  /** Inserting `x` puts it after every element that shares its key. */
  lemma {:induction false} InsertSameKey(x: Event, s: seq<Event>, key: SortKey)
    requires Sorted(s)
    ensures SameKey(Insert(x, s), key) == SameKey(s, key) + KeyMatch(x, key)
  {
    if s == [] {
      SameKeyCons(x, [], key);
    } else if Compare(s[0], x) == Greater {
      assert Insert(x, s) == [x] + s;
      SameKeyCons(x, s, key);
      if KeyOf(x) == key {
        AllAfter(x, s);
        SameKeyNone(s, key);
      }
    } else {
      var tail := Insert(x, s[1..]);
      assert Insert(x, s) == [s[0]] + tail;
      HeadTail(s);
      SortedTail(s);
      InsertSameKey(x, s[1..], key);
      SameKeyCons(s[0], tail, key);
      SameKeyCons(s[0], s[1..], key);
      AppendAssoc(KeyMatch(s[0], key), SameKey(s[1..], key), KeyMatch(x, key));
    }
  }

  /** Stability: events with equal keys keep their insertion order. */
  lemma {:induction false} SortEventsStable(s: seq<Event>, key: SortKey)
    ensures SameKey(SortEvents(s), key) == SameKey(s, key)
  {
    if s != [] {
      var init, last := s[..|s| - 1], s[|s| - 1];
      assert s == init + [last];
      assert SortEvents(s) == Insert(last, SortEvents(init));
      SortEventsStable(init, key);
      SortEventsSorted(init);
      InsertSameKey(last, SortEvents(init), key);
      SameKeyAppend(init, [last], key);
      SameKeyCons(last, [], key);
      assert [last] + [] == [last];
    }
  }

  /** The sort's output is sorted and stable. */
  lemma SortEventsMeaning(s: seq<Event>)
    ensures Sorted(SortEvents(s))
    ensures forall key :: SameKey(SortEvents(s), key) == SameKey(s, key)
  {
    SortEventsSorted(s);
    forall key
      ensures SameKey(SortEvents(s), key) == SameKey(s, key)
    {
      SortEventsStable(s, key);
    }
  }

  /** What the order means: ongoing events come first, ongoing events by start date
      descending, dated events by end date descending. */
  lemma SortedOrder(r: seq<Event>)
    requires Sorted(r)
    ensures forall i, j :: 0 <= i < j < |r| && r[j].endDate.None? ==> r[i].endDate.None?
    ensures forall i, j :: 0 <= i < j < |r| && r[i].endDate.None? && r[j].endDate.None? ==>
      r[i].startDate >= r[j].startDate
    ensures forall i, j :: 0 <= i < j < |r| && r[i].endDate.Some? && r[j].endDate.Some? ==>
      r[i].endDate.value >= r[j].endDate.value
  {
    forall i, j | 0 <= i < j < |r|
      ensures r[j].endDate.None? ==> r[i].endDate.None?
      ensures r[i].endDate.None? && r[j].endDate.None? ==> r[i].startDate >= r[j].startDate
      ensures r[i].endDate.Some? && r[j].endDate.Some? ==> r[i].endDate.value >= r[j].endDate.value
    {
      assert Compare(r[i], r[j]) != Greater;
    }
  }

  /** Where the loop of the in-place insertion sort stops, `Insert` puts `x` too. */
  lemma {:induction false} InsertAt(x: Event, s: seq<Event>, j: nat)
    requires j <= |s|
    requires forall k :: 0 <= k < j ==> Compare(s[k], x) != Greater
    requires forall k :: j <= k < |s| ==> Compare(s[k], x) == Greater
    ensures Insert(x, s) == s[..j] + [x] + s[j..]
  {
    if j == 0 {
      assert s[..0] + [x] + s[0..] == [x] + s;
    } else {
      var t := s[1..];
      assert Compare(s[0], x) != Greater;
      InsertAt(x, t, j - 1);
      SliceTail(s, j);
      AppendAssoc([s[0]], t[..j - 1] + [x], t[j - 1..]);
      AppendAssoc([s[0]], t[..j - 1], [x]);
    }
  }

  /** In a sorted sequence, everything before an element that may precede `x` may
      precede `x` too. */
  lemma SortedBefore(x: Event, s: seq<Event>, j: nat)
    requires Sorted(s) && j <= |s|
    requires j > 0 ==> Compare(s[j - 1], x) != Greater
    ensures forall k :: 0 <= k < j ==> Compare(s[k], x) != Greater
  {
    forall k | 0 <= k < j
      ensures Compare(s[k], x) != Greater
    {
      CompareIsTotalPreorder(s[k], s[j - 1], x);
    }
  }

  /** In a sorted sequence, `x` goes right after the last element that may precede it. */
  lemma InsertBetween(x: Event, s: seq<Event>, j: nat)
    requires Sorted(s) && j <= |s|
    requires j > 0 ==> Compare(s[j - 1], x) != Greater
    requires forall k :: j <= k < |s| ==> Compare(s[k], x) == Greater
    ensures Insert(x, s) == s[..j] + [x] + s[j..]
  {
    SortedBefore(x, s, j);
    InsertAt(x, s, j);
  }

  /** Sorting one more element of `s` inserts it into the sorted shorter prefix. */
  lemma SortEventsPrefix(s: seq<Event>, i: nat)
    requires i < |s|
    ensures Sorted(SortEvents(s[..i]))
    ensures SortEvents(s[..i + 1]) == Insert(s[i], SortEvents(s[..i]))
  {
    SortEventsSorted(s[..i]);
    assert s[..i + 1][..i] == s[..i];
  }

  /** One step of the insertion sort: shifts `a[i]` left past the elements of the
      sorted prefix `a[..i]` that must come after it. */
  method InsertLast(a: array<Event>, i: nat)
    requires i < a.Length && Sorted(a[..i])
    modifies a
    ensures a[..i + 1] == Insert(old(a[i]), old(a[..i]))
    ensures a[i + 1..] == old(a[i + 1..])
  {
    var x := a[i];
    ghost var sorted := a[..i];
    var j := i;
    while j > 0 && Compare(a[j - 1], x) == Greater
      invariant 0 <= j <= i
      invariant a[..j] == sorted[..j]
      invariant a[j + 1..i + 1] == sorted[j..]
      invariant a[i + 1..] == old(a[i + 1..])
      invariant forall k :: j <= k < i ==> Compare(sorted[k], x) == Greater
    {
      ShiftIntoGap(a[..], sorted, j, i);
      a[j] := a[j - 1];
      j := j - 1;
    }
    FillGap(a[..], sorted, x, j, i);
    a[j] := x;
    InsertBetween(x, sorted, j);
  }

  /** `sort_by(Compare)` on an array: a stable insertion sort in place. */
  method SortInPlace(a: array<Event>)
    modifies a
    ensures a[..] == SortEvents(old(a[..]))
  {
    ghost var input := a[..];
    for i := 0 to a.Length
      invariant a[..i] == SortEvents(input[..i])
      invariant a[i..] == input[i..]
    {
      assert a[i] == a[i..][0];
      DropFirst(a[..], i);
      DropFirst(input, i);
      SortEventsPrefix(input, i);
      InsertLast(a, i);
    }
    assert input[..a.Length] == input;
  }

  /** The timeline, holding events in the order they were added. */
  class Timeline {
    var events: seq<Event>

    constructor ()
      ensures events == []
    {
      events := [];
    }

    /** Appends the event at the end; earlier events are unchanged. */
    method Add(event: Event)
      modifies this
      ensures events == old(events) + [event]
    {
      events := events + [event];
    }

    /** A sorted copy: the stored events are left as they are, cloned, and sorted in
        place with a stable sort. */
    method Events() returns (r: seq<Event>)
      ensures r == SortEvents(events)
      ensures multiset(r) == multiset(events)
      ensures Sorted(r)
      ensures forall key :: SameKey(r, key) == SameKey(events, key)
    {
      var stored := events;
      var a := new Event[|stored|](k requires 0 <= k < |stored| => stored[k]);
      assert a[..] == stored;
      SortInPlace(a);
      r := a[..];
      SortEventsMeaning(stored);
    }
  }

  /** Two events already in order are left in order. */
  lemma SortPair(a: Event, b: Event)
    requires Compare(a, b) != Greater
    ensures SortEvents([a, b]) == [a, b]
  {
    assert [a, b][..1] == [a] && [a][..0] == [];
    assert SortEvents([a]) == [a];
    assert Insert(b, [a]) == [a] + Insert(b, []);
  }

  /** The example ordering: A (ongoing since 2020-01), B (2018-01 to 2019-01) and
      C (ongoing since 2021-06) come out as C, A, B. */
  lemma SortExample()
    ensures
      var a := Event(Work, 20200101, None, "A", "", None, []);
      var b := Event(Work, 20180101, Some(20190101), "B", "", None, []);
      var c := Event(Work, 20210601, None, "C", "", None, []);
      SortEvents([a, b, c]) == [c, a, b]
  {
    var a := Event(Work, 20200101, None, "A", "", None, []);
    var b := Event(Work, 20180101, Some(20190101), "B", "", None, []);
    var c := Event(Work, 20210601, None, "C", "", None, []);
    assert [a, b, c][..2] == [a, b];
    SortPair(a, b);
    assert Compare(a, c) == Greater && Compare(b, c) == Greater;
    InsertAt(c, [a, b], 0);
    assert [a, b][..0] + [c] + [a, b][0..] == [c, a, b];
  }
}
