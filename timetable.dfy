/**
 * The timetable tree: modules per (part, paper), series per name, one entry
 * per event, built from the sorted events by grouping consecutive runs at
 * three levels.
 */
module Timetable {
  import opened Wrappers
  import opened Events
  import opened Sorting
  import opened Grouping

  /** `<path><tripos/><part/></path>` */
  datatype Path = Path(tripos: string, part: string)

  /** `<event>`: the day and the two times of day are kept as numbers. */
  datatype EventEntry = EventEntry(
    uniqueId: string,
    name: string,
    location: string,
    lecturer: string,
    date: int,
    start: int,
    end: int,
    eventType: string)

  /** `<series>` */
  datatype Series = Series(uniqueId: string, name: string, events: seq<EventEntry>)

  /** `<module>`: its name is the paper. */
  datatype Module = Module(path: Path, name: string, series: seq<Series>)

  datatype BuildError =
    | EmptyInput                           // `assert events`
    | SpansDays(event: EngineeringEvent)   // the first event, in sorted order, ending on another day

  /**
   * `external_id`: a digest of the four strings joined with nothing between
   * them; the seeded hash itself is the parameter `digest`.
   */
  function ExternalId(digest: string -> string, tripos: string, part: string, paper: string, series: string): string {
    digest(tripos + part + paper + series)
  }

  /** Equal concatenations give equal identifiers, whatever the digest. */
  lemma ExternalIdOfConcatenation(digest: string -> string, t1: string, p1: string, q1: string, s1: string,
                                  t2: string, p2: string, q2: string, s2: string)
    requires t1 + p1 + q1 + s1 == t2 + p2 + q2 + s2
    ensures ExternalId(digest, t1, p1, q1, s1) == ExternalId(digest, t2, p2, q2, s2)
  {
  }

  /** So a part and paper that split one string differently share a series identifier. */
  lemma ExternalIdBoundaryCollision(digest: string -> string)
    ensures ExternalId(digest, "engineering", "IA", "1P1", "Maths") == ExternalId(digest, "engineering", "IA1", "P1", "Maths")
  {
    assert "engineering" + "IA" + "1P1" + "Maths" == "engineering" + "IA1" + "P1" + "Maths";
  }

  function PartOf(e: EngineeringEvent): string { e.part }
  function PaperOf(e: EngineeringEvent): string { e.paper }
  function NameOf(e: EngineeringEvent): string { e.name }

  /** `build_event_xml`, less its same-day assertion, which `BuildTimetable` checks. */
  function BuildEvent(e: EngineeringEvent): (r: EventEntry)
    ensures r.uniqueId == e.uid && r.name == e.name && r.location == e.location
      && r.lecturer == e.staffName && r.eventType == e.eventType
    ensures r.date == e.start.date && Timestamp(r.date, r.start) == e.start
    ensures SameDay(e) ==> Timestamp(r.date, r.end) == e.end
  {
    EventEntry(e.uid, e.name, e.location, e.staffName, e.start.date, e.start.time, e.end.time, e.eventType)
  }

  predicate SameDay(e: EngineeringEvent) { e.start.date == e.end.date }

  /** The event an entry describes, given the part and paper of its module. */
  function EventOfEntry(part: string, paper: string, x: EventEntry): EngineeringEvent {
    EngineeringEvent(part, paper, x.name, x.eventType, x.lecturer, x.location,
                     Timestamp(x.date, x.start), Timestamp(x.date, x.end), x.uniqueId)
  }

  /**
   * An entry loses nothing of a same-day event but its part and paper, which
   * the module above it holds; an event ending on another day loses its end date.
   */
  lemma EntryRecoversEvent(e: EngineeringEvent)
    ensures EventOfEntry(e.part, e.paper, BuildEvent(e)) == e <==> SameDay(e)
  {
  }

  /** `build_series_xml` */
  function BuildSeries(digest: string -> string, tripos: string, part: string, paper: string,
                       series: string, events: seq<EngineeringEvent>): Series {
    Series(ExternalId(digest, tripos, part, paper, series), series,
           seq(|events|, i requires 0 <= i < |events| => BuildEvent(events[i])))
  }

  function BuildSeriesList(digest: string -> string, tripos: string, part: string, paper: string,
                           groups: seq<(string, seq<EngineeringEvent>)>): seq<Series> {
    seq(|groups|, i requires 0 <= i < |groups| => BuildSeries(digest, tripos, part, paper, groups[i].0, groups[i].1))
  }

  /** `build_paper_xml`: one module whose series are the runs of equal names. */
  function BuildPaper(digest: string -> string, tripos: string, part: string, paper: string,
                      events: seq<EngineeringEvent>): Module {
    Module(Path(tripos, part), paper, BuildSeriesList(digest, tripos, part, paper, GroupBy(events, NameOf)))
  }

  function BuildPaperList(digest: string -> string, tripos: string, part: string,
                          groups: seq<(string, seq<EngineeringEvent>)>): seq<Module> {
    seq(|groups|, i requires 0 <= i < |groups| => BuildPaper(digest, tripos, part, groups[i].0, groups[i].1))
  }

  /** `build_part_xml`: a module for each run of equal papers. */
  function BuildPart(digest: string -> string, tripos: string, part: string, events: seq<EngineeringEvent>): seq<Module> {
    BuildPaperList(digest, tripos, part, GroupBy(events, PaperOf))
  }

  /** The modules of every part run, in order. */
  function BuildParts(digest: string -> string, tripos: string, groups: seq<(string, seq<EngineeringEvent>)>): seq<Module> {
    if |groups| == 0 then []
    else BuildPart(digest, tripos, groups[0].0, groups[0].1) + BuildParts(digest, tripos, groups[1..])
  }

  function BuildModules(digest: string -> string, tripos: string, sorted: seq<EngineeringEvent>): seq<Module> {
    BuildParts(digest, tripos, GroupBy(sorted, PartOf))
  }

  /** Index of the first event that does not start and end on the same day. */
  function FirstSpanningDays(s: seq<EngineeringEvent>): (r: Option<nat>)
    ensures r.Some? ==> r.value < |s| && !SameDay(s[r.value]) && forall j :: 0 <= j < r.value ==> SameDay(s[j])
    ensures r.None? <==> forall j :: 0 <= j < |s| ==> SameDay(s[j])
  {
    if |s| == 0 then None
    else if !SameDay(s[0]) then Some(0)
    else match FirstSpanningDays(s[1..])
      case None => None
      case Some(k) => Some(k + 1)
  }

  /**
   * `build_timetable_xml`: sorts, refuses an empty input, then builds every
   * module; building stops at the first event that spans two days.
   */
  function BuildTimetable(digest: string -> string, tripos: string, events: seq<EngineeringEvent>): (r: Result<seq<Module>, BuildError>)
    ensures r == Err(EmptyInput) <==> |events| == 0
    ensures r.Err? && r.error.SpansDays? ==> r.error.event in events && !SameDay(r.error.event)
    ensures r.Ok? <==> |events| > 0 && forall e :: e in events ==> SameDay(e)
  {
    var sorted := SortEvents(events);
    assert forall e :: e in events <==> e in sorted by {
      assert forall e :: e in events <==> e in multiset(events);
      assert forall e :: e in sorted <==> e in multiset(sorted);
    }
    if |sorted| == 0 then Err(EmptyInput)
    else match FirstSpanningDays(sorted)
      case Some(k) => Err(SpansDays(sorted[k]))
      case None => Ok(BuildModules(digest, tripos, sorted))
  }

  /**
   * The event a failure names is the first, in sorted order, that does not
   * start and end on one day: the first one `build_event_xml` would reach.
   */
  lemma SpanningEventIsFirst(digest: string -> string, tripos: string, events: seq<EngineeringEvent>)
    requires BuildTimetable(digest, tripos, events).Err? && BuildTimetable(digest, tripos, events).error.SpansDays?
    ensures exists k :: (0 <= k < |SortEvents(events)| && SortEvents(events)[k] == BuildTimetable(digest, tripos, events).error.event
      && !SameDay(SortEvents(events)[k]) && forall j :: 0 <= j < k ==> SameDay(SortEvents(events)[j]))
  {
    var sorted := SortEvents(events);
    assert |sorted| == |multiset(sorted)| == |events|;
    assert |sorted| > 0;
    match FirstSpanningDays(sorted)
    case Some(k) =>
      assert BuildTimetable(digest, tripos, events) == Err(SpansDays(sorted[k]));
      assert 0 <= k < |sorted| && !SameDay(sorted[k]) && forall j :: 0 <= j < k ==> SameDay(sorted[j]);
    case None =>
  }

  /** A non-empty input of same-day events builds the modules of its sorted order. */
  lemma BuildTimetableOk(digest: string -> string, tripos: string, events: seq<EngineeringEvent>)
    requires |events| > 0 && forall e :: e in events ==> SameDay(e)
    ensures BuildTimetable(digest, tripos, events) == Ok(BuildModules(digest, tripos, SortEvents(events)))
  {
    var sorted := SortEvents(events);
    SortedSameDay(events);
    assert |sorted| == |multiset(sorted)|;
    assert FirstSpanningDays(sorted).None?;
  }

  lemma SortedSameDay(events: seq<EngineeringEvent>)
    requires forall e :: e in events ==> SameDay(e)
    ensures forall j :: 0 <= j < |SortEvents(events)| ==> SameDay(SortEvents(events)[j])
  {
    var sorted := SortEvents(events);
    forall j | 0 <= j < |sorted|
      ensures SameDay(sorted[j])
    {
      assert sorted[j] in multiset(events);
    }
  }

  // ----- What the tree holds: one label per entry -----

  /** An entry with the part, paper and series name it sits under. */
  datatype Label = Label(part: string, paper: string, series: string, entry: EventEntry)

  function LabelOf(e: EngineeringEvent): Label {
    Label(e.part, e.paper, e.name, BuildEvent(e))
  }

  function EventLabels(events: seq<EngineeringEvent>): seq<Label> {
    seq(|events|, i requires 0 <= i < |events| => LabelOf(events[i]))
  }

  function EntryLabels(part: string, paper: string, s: Series): seq<Label> {
    seq(|s.events|, i requires 0 <= i < |s.events| => Label(part, paper, s.name, s.events[i]))
  }

  function SeriesLabels(part: string, paper: string, ss: seq<Series>): seq<Label> {
    if |ss| == 0 then [] else EntryLabels(part, paper, ss[0]) + SeriesLabels(part, paper, ss[1..])
  }

  /** Every entry of the tree, in document order, with where it sits. */
  function TreeLabels(ms: seq<Module>): seq<Label> {
    if |ms| == 0 then [] else SeriesLabels(ms[0].path.part, ms[0].name, ms[0].series) + TreeLabels(ms[1..])
  }

  lemma EventLabelsAppend(a: seq<EngineeringEvent>, b: seq<EngineeringEvent>)
    ensures EventLabels(a + b) == EventLabels(a) + EventLabels(b)
  {
    assert forall i :: 0 <= i < |a| + |b| ==> EventLabels(a + b)[i] == (EventLabels(a) + EventLabels(b))[i];
  }

  lemma {:induction false} TreeLabelsAppend(a: seq<Module>, b: seq<Module>)
    ensures TreeLabels(a + b) == TreeLabels(a) + TreeLabels(b)
  {
    if |a| == 0 {
      assert a + b == b;
    } else {
      assert (a + b)[0] == a[0] && (a + b)[1..] == a[1..] + b;
      TreeLabelsAppend(a[1..], b);
    }
  }

  /** Every member of every group has the given part, the given paper, and the group's key as its name. */
  predicate SeriesGroups(part: string, paper: string, groups: seq<(string, seq<EngineeringEvent>)>) {
    forall i, j :: 0 <= i < |groups| && 0 <= j < |groups[i].1| ==>
      groups[i].1[j].part == part && groups[i].1[j].paper == paper && groups[i].1[j].name == groups[i].0
  }

  lemma {:induction false} SeriesListLabels(digest: string -> string, tripos: string, part: string, paper: string,
                                            groups: seq<(string, seq<EngineeringEvent>)>)
    requires SeriesGroups(part, paper, groups)
    ensures SeriesLabels(part, paper, BuildSeriesList(digest, tripos, part, paper, groups)) == EventLabels(Flatten(groups))
  {
    if |groups| > 0 {
      var ss := BuildSeriesList(digest, tripos, part, paper, groups);
      assert ss[1..] == BuildSeriesList(digest, tripos, part, paper, groups[1..]);
      assert SeriesGroups(part, paper, groups[1..]) by {
        assert forall i :: 0 <= i < |groups| - 1 ==> groups[1..][i] == groups[i + 1];
      }
      SeriesListLabels(digest, tripos, part, paper, groups[1..]);
      assert EntryLabels(part, paper, ss[0]) == EventLabels(groups[0].1);
      EventLabelsAppend(groups[0].1, Flatten(groups[1..]));
    }
  }

  /** All events have the given part (and paper). */
  predicate AllIn(events: seq<EngineeringEvent>, part: string) {
    forall e :: e in events ==> e.part == part
  }

  predicate AllInPaper(events: seq<EngineeringEvent>, part: string, paper: string) {
    forall e :: e in events ==> e.part == part && e.paper == paper
  }

  lemma PaperLabels(digest: string -> string, tripos: string, part: string, paper: string, events: seq<EngineeringEvent>)
    requires AllInPaper(events, part, paper)
    ensures var m := BuildPaper(digest, tripos, part, paper, events);
      SeriesLabels(m.path.part, m.name, m.series) == EventLabels(events)
  {
    var groups := GroupBy(events, NameOf);
    MembersInFlatten(groups);
    SeriesListLabels(digest, tripos, part, paper, groups);
  }

  /** Every member of every group has the given part and the group's key as its paper. */
  predicate PaperGroups(part: string, groups: seq<(string, seq<EngineeringEvent>)>) {
    forall i, j :: 0 <= i < |groups| && 0 <= j < |groups[i].1| ==>
      groups[i].1[j].part == part && groups[i].1[j].paper == groups[i].0
  }

  lemma {:induction false} PaperListLabels(digest: string -> string, tripos: string, part: string,
                                           groups: seq<(string, seq<EngineeringEvent>)>)
    requires PaperGroups(part, groups)
    ensures TreeLabels(BuildPaperList(digest, tripos, part, groups)) == EventLabels(Flatten(groups))
  {
    if |groups| > 0 {
      var ms := BuildPaperList(digest, tripos, part, groups);
      assert ms[1..] == BuildPaperList(digest, tripos, part, groups[1..]);
      assert PaperGroups(part, groups[1..]) by {
        assert forall i :: 0 <= i < |groups| - 1 ==> groups[1..][i] == groups[i + 1];
      }
      PaperListLabels(digest, tripos, part, groups[1..]);
      assert AllInPaper(groups[0].1, part, groups[0].0) by {
        assert forall e :: e in groups[0].1 ==> exists j :: 0 <= j < |groups[0].1| && groups[0].1[j] == e;
      }
      PaperLabels(digest, tripos, part, groups[0].0, groups[0].1);
      EventLabelsAppend(groups[0].1, Flatten(groups[1..]));
    }
  }

  lemma PartLabels(digest: string -> string, tripos: string, part: string, events: seq<EngineeringEvent>)
    requires AllIn(events, part)
    ensures TreeLabels(BuildPart(digest, tripos, part, events)) == EventLabels(events)
  {
    var groups := GroupBy(events, PaperOf);
    MembersInFlatten(groups);
    PaperListLabels(digest, tripos, part, groups);
  }

  lemma {:induction false} PartsLabels(digest: string -> string, tripos: string, groups: seq<(string, seq<EngineeringEvent>)>)
    requires forall i, j :: 0 <= i < |groups| && 0 <= j < |groups[i].1| ==> groups[i].1[j].part == groups[i].0
    ensures TreeLabels(BuildParts(digest, tripos, groups)) == EventLabels(Flatten(groups))
  {
    if |groups| > 0 {
      assert forall i :: 0 <= i < |groups| - 1 ==> groups[1..][i] == groups[i + 1];
      PartsLabels(digest, tripos, groups[1..]);
      assert AllIn(groups[0].1, groups[0].0) by {
        assert forall e :: e in groups[0].1 ==> exists j :: 0 <= j < |groups[0].1| && groups[0].1[j] == e;
      }
      PartLabels(digest, tripos, groups[0].0, groups[0].1);
      TreeLabelsAppend(BuildPart(digest, tripos, groups[0].0, groups[0].1), BuildParts(digest, tripos, groups[1..]));
      EventLabelsAppend(groups[0].1, Flatten(groups[1..]));
    }
  }

  /**
   * Reading the entries of the tree in document order, each with the part,
   * paper and series name above it, gives back exactly the sorted events:
   * nothing dropped, duplicated or moved, and every entry under its own
   * part, paper and name.
   */
  lemma BuildModulesLabels(digest: string -> string, tripos: string, sorted: seq<EngineeringEvent>)
    ensures TreeLabels(BuildModules(digest, tripos, sorted)) == EventLabels(sorted)
  {
    PartsLabels(digest, tripos, GroupBy(sorted, PartOf));
  }

  /** Every entry sits under the series named after its event. */
  lemma EntriesUnderOwnName(digest: string -> string, tripos: string, sorted: seq<EngineeringEvent>)
    ensures forall l :: l in TreeLabels(BuildModules(digest, tripos, sorted)) ==> l.entry.name == l.series
  {
    BuildModulesLabels(digest, tripos, sorted);
  }

  // ----- The shape of the tree -----

  /**
   * A module of the given tripos with at least one series, every series
   * non-empty and identified from the module's path and its own name, and no
   * two series with one name.
   */
  predicate ModuleWellFormed(digest: string -> string, tripos: string, m: Module) {
    && m.path.tripos == tripos
    && |m.series| > 0
    && (forall i :: 0 <= i < |m.series| ==>
          |m.series[i].events| > 0 && m.series[i].uniqueId == ExternalId(digest, tripos, m.path.part, m.name, m.series[i].name))
    && (forall i, j :: 0 <= i < j < |m.series| ==> m.series[i].name != m.series[j].name)
  }

  /** No two modules share a (part, paper) pair. */
  predicate DistinctModules(ms: seq<Module>) {
    forall i, j :: 0 <= i < j < |ms| ==> (ms[i].path.part, ms[i].name) != (ms[j].path.part, ms[j].name)
  }

  predicate WellFormed(digest: string -> string, tripos: string, ms: seq<Module>) {
    (forall i :: 0 <= i < |ms| ==> ModuleWellFormed(digest, tripos, ms[i])) && DistinctModules(ms)
  }

  function PaperKey(e: EngineeringEvent): (string, string) { (e.part, e.paper) }
  function SeriesKey(e: EngineeringEvent): (string, string, string) { (e.part, e.paper, e.name) }

  lemma PaperWellFormed(digest: string -> string, tripos: string, part: string, paper: string, events: seq<EngineeringEvent>)
    requires |events| > 0 && Contiguous(events, NameOf)
    ensures ModuleWellFormed(digest, tripos, BuildPaper(digest, tripos, part, paper, events))
  {
    GroupKeysDistinct(events, NameOf);
  }

  /** Within one part, equal (part, paper) pairs being contiguous makes equal papers contiguous. */
  lemma PaperContiguous(events: seq<EngineeringEvent>, part: string)
    requires AllIn(events, part) && Contiguous(events, PaperKey)
    ensures Contiguous(events, PaperOf)
  {
    assert forall i :: 0 <= i < |events| ==> events[i] in events;
  }

  lemma NameContiguous(events: seq<EngineeringEvent>, part: string, paper: string)
    requires AllInPaper(events, part, paper) && Contiguous(events, SeriesKey)
    ensures Contiguous(events, NameOf)
  {
    assert forall i :: 0 <= i < |events| ==> events[i] in events;
  }

  lemma PartWellFormed(digest: string -> string, tripos: string, part: string, events: seq<EngineeringEvent>)
    requires |events| > 0 && AllIn(events, part)
    requires Contiguous(events, PaperKey) && Contiguous(events, SeriesKey)
    ensures var ms := BuildPart(digest, tripos, part, events);
      WellFormed(digest, tripos, ms) && forall i :: 0 <= i < |ms| ==> ms[i].path.part == part
  {
    var groups := GroupBy(events, PaperOf);
    var ms := BuildPart(digest, tripos, part, events);
    PaperContiguous(events, part);
    GroupKeysDistinct(events, PaperOf);
    ContiguousInGroups(groups, SeriesKey);
    MembersInFlatten(groups);
    forall i | 0 <= i < |ms|
      ensures ModuleWellFormed(digest, tripos, ms[i])
    {
      assert AllInPaper(groups[i].1, part, groups[i].0) by {
        assert forall e :: e in groups[i].1 ==> exists j :: 0 <= j < |groups[i].1| && groups[i].1[j] == e;
      }
      NameContiguous(groups[i].1, part, groups[i].0);
      PaperWellFormed(digest, tripos, part, groups[i].0, groups[i].1);
    }
  }

  lemma {:induction false} PartsWellFormed(digest: string -> string, tripos: string, groups: seq<(string, seq<EngineeringEvent>)>)
    requires DistinctKeys(groups)
    requires forall i :: 0 <= i < |groups| ==> |groups[i].1| > 0
    requires forall i, j :: 0 <= i < |groups| && 0 <= j < |groups[i].1| ==> groups[i].1[j].part == groups[i].0
    requires forall i :: 0 <= i < |groups| ==> Contiguous(groups[i].1, PaperKey) && Contiguous(groups[i].1, SeriesKey)
    ensures var ms := BuildParts(digest, tripos, groups);
      WellFormed(digest, tripos, ms) && forall i :: 0 <= i < |ms| ==> ms[i].path.part in Keys(groups)
  {
    if |groups| > 0 {
      var head := BuildPart(digest, tripos, groups[0].0, groups[0].1);
      var tail := BuildParts(digest, tripos, groups[1..]);
      assert forall i :: 0 <= i < |groups| - 1 ==> groups[1..][i] == groups[i + 1];
      PartsWellFormed(digest, tripos, groups[1..]);
      assert AllIn(groups[0].1, groups[0].0) by {
        assert forall e :: e in groups[0].1 ==> exists j :: 0 <= j < |groups[0].1| && groups[0].1[j] == e;
      }
      PartWellFormed(digest, tripos, groups[0].0, groups[0].1);
      assert groups[0].0 !in Keys(groups[1..]);
      WellFormedAppend(digest, tripos, head, tail);
      assert forall k :: k in Keys(groups[1..]) ==> k in Keys(groups);
    }
  }

  lemma WellFormedAppend(digest: string -> string, tripos: string, a: seq<Module>, b: seq<Module>)
    requires WellFormed(digest, tripos, a) && WellFormed(digest, tripos, b)
    requires forall i, j :: 0 <= i < |a| && 0 <= j < |b| ==> a[i].path.part != b[j].path.part
    ensures WellFormed(digest, tripos, a + b)
  {
    assert forall i :: 0 <= i < |a| ==> (a + b)[i] == a[i];
    assert forall i :: 0 <= i < |b| ==> (a + b)[|a| + i] == b[i];
  }

  /** In sorted order each of the three grouping keys is contiguous. */
  lemma SortedKeysContiguous(s: seq<EngineeringEvent>)
    requires Sorted(s)
    ensures Contiguous(s, PartOf) && Contiguous(s, PaperKey) && Contiguous(s, SeriesKey)
  {
    forall i, j, l | 0 <= i < j < l < |s|
      ensures PartOf(s[i]) == PartOf(s[l]) ==> PartOf(s[j]) == PartOf(s[i])
      ensures PaperKey(s[i]) == PaperKey(s[l]) ==> PaperKey(s[j]) == PaperKey(s[i])
      ensures SeriesKey(s[i]) == SeriesKey(s[l]) ==> SeriesKey(s[j]) == SeriesKey(s[i])
    {
      SortedContiguous(s, i, j, l);
    }
  }

  /**
   * A built timetable is well formed: modules are keyed by distinct
   * (part, paper) pairs under the given tripos, and within each module the
   * series are non-empty, distinctly named and identified by `ExternalId`.
   */
  lemma TimetableWellFormed(digest: string -> string, tripos: string, events: seq<EngineeringEvent>)
    requires BuildTimetable(digest, tripos, events).Ok?
    ensures WellFormed(digest, tripos, BuildTimetable(digest, tripos, events).value)
  {
    var sorted := SortEvents(events);
    SortEventsSorted(events);
    SortedKeysContiguous(sorted);
    var groups := GroupBy(sorted, PartOf);
    GroupKeysDistinct(sorted, PartOf);
    ContiguousInGroups(groups, PaperKey);
    ContiguousInGroups(groups, SeriesKey);
    PartsWellFormed(digest, tripos, groups);
  }

  /**
   * What a built timetable holds: its entries in document order, each with
   * the part, paper and series name above it, are the events sorted by
   * `(part, paper, name, start)`.
   */
  lemma TimetableContents(digest: string -> string, tripos: string, events: seq<EngineeringEvent>)
    requires BuildTimetable(digest, tripos, events).Ok?
    ensures TreeLabels(BuildTimetable(digest, tripos, events).value) == EventLabels(SortEvents(events))
  {
    BuildModulesLabels(digest, tripos, SortEvents(events));
  }

  /**
   * Re-running on a reordering of the same events gives the same result when
   * the reordering keeps the order of events that share the whole sort key.
   */
  lemma TimetableDeterminedByTies(digest: string -> string, tripos: string, a: seq<EngineeringEvent>, b: seq<EngineeringEvent>)
    requires forall k :: WithKey(a, k) == WithKey(b, k)
    ensures BuildTimetable(digest, tripos, a) == BuildTimetable(digest, tripos, b)
  {
    SortDeterminedByTies(a, b);
  }

  /** So when no two events share `(part, paper, name, start)`, input order does not matter. */
  lemma TimetableIgnoresOrder(digest: string -> string, tripos: string, a: seq<EngineeringEvent>, b: seq<EngineeringEvent>)
    requires multiset(a) == multiset(b) && KeysDistinct(a)
    ensures BuildTimetable(digest, tripos, a) == BuildTimetable(digest, tripos, b)
  {
    SortIgnoresOrder(a, b);
  }

  /**
   * But two different same-day events sharing the whole sort key (say, two
   * occurrences differing only in UID) come out in input order, so swapping
   * them changes the timetable.
   */
  lemma TieOrderChangesTimetable(digest: string -> string, tripos: string, x: EngineeringEvent, y: EngineeringEvent)
    requires KeyOf(x) == KeyOf(y) && x != y && SameDay(x) && SameDay(y)
    ensures BuildTimetable(digest, tripos, [x, y]).Ok? && BuildTimetable(digest, tripos, [y, x]).Ok?
    ensures BuildTimetable(digest, tripos, [x, y]) != BuildTimetable(digest, tripos, [y, x])
  {
    TiedPairTimetable(digest, tripos, x, y);
    TiedPairTimetable(digest, tripos, y, x);
    SwappedLabelsDiffer(x, y);
  }

  /** Two same-day events sharing the sort key are built in the order given. */
  lemma TiedPairTimetable(digest: string -> string, tripos: string, x: EngineeringEvent, y: EngineeringEvent)
    requires KeyOf(x) == KeyOf(y) && SameDay(x) && SameDay(y)
    ensures BuildTimetable(digest, tripos, [x, y]).Ok?
    ensures TreeLabels(BuildTimetable(digest, tripos, [x, y]).value) == EventLabels([x, y])
  {
    TiedPairSorts(x, y);
    assert forall e :: e in [x, y] ==> e == x || e == y;
    BuildTimetableOk(digest, tripos, [x, y]);
    BuildModulesLabels(digest, tripos, [x, y]);
  }

  lemma TiedPairSorts(x: EngineeringEvent, y: EngineeringEvent)
    requires KeyOf(x) == KeyOf(y)
    ensures SortEvents([x, y]) == [x, y]
  {
    KeyLtIrreflexive(KeyOf(x));
    assert Sorted([x, y]);
    SortSortedIsIdentity([x, y]);
  }

  lemma SwappedLabelsDiffer(x: EngineeringEvent, y: EngineeringEvent)
    requires x != y && SameDay(x) && SameDay(y)
    ensures EventLabels([x, y]) != EventLabels([y, x])
  {
    assert EventLabels([x, y])[0] == LabelOf(x);
    assert EventLabels([y, x])[0] == LabelOf(y);
    EntryRecoversEvent(x);
    EntryRecoversEvent(y);
  }

  /** Every entry of a built timetable is the entry of one of the input events. */
  lemma EntriesFromInput(digest: string -> string, tripos: string, events: seq<EngineeringEvent>)
    requires BuildTimetable(digest, tripos, events).Ok?
    ensures forall l :: l in TreeLabels(BuildTimetable(digest, tripos, events).value) ==>
      exists i :: 0 <= i < |events| && l == LabelOf(events[i])
  {
    var sorted := SortEvents(events);
    TimetableContents(digest, tripos, events);
    forall l | l in EventLabels(sorted)
      ensures exists i :: 0 <= i < |events| && l == LabelOf(events[i])
    {
      var k :| 0 <= k < |sorted| && l == EventLabels(sorted)[k];
      assert sorted[k] in multiset(events);
      var i :| 0 <= i < |events| && events[i] == sorted[k];
    }
  }

  lemma SortTwo(e1: EngineeringEvent, e2: EngineeringEvent)
    requires KeyLt(KeyOf(e1), KeyOf(e2))
    ensures SortEvents([e2, e1]) == [e1, e2]
  {
    assert [e2, e1][..1] == [e2];
    assert SortEvents([e2]) == [e2];
  }

  /** Events sharing part, paper and name make one module holding one series. */
  lemma OneSeries(digest: string -> string, tripos: string, events: seq<EngineeringEvent>)
    requires |events| > 0
    requires forall i :: 0 <= i < |events| ==> SeriesKey(events[i]) == SeriesKey(events[0])
    ensures var e := events[0];
      BuildModules(digest, tripos, events)
      == [Module(Path(tripos, e.part), e.paper,
                 [Series(ExternalId(digest, tripos, e.part, e.paper, e.name), e.name,
                         seq(|events|, i requires 0 <= i < |events| => BuildEvent(events[i])))])]
  {
    var part, paper, name := events[0].part, events[0].paper, events[0].name;
    var sr := BuildSeries(digest, tripos, part, paper, name, events);
    var m := Module(Path(tripos, part), paper, [sr]);
    assert BuildPaper(digest, tripos, part, paper, events) == m by {
      GroupByUniform(events, NameOf);
    }
    assert BuildPart(digest, tripos, part, events) == [m] by {
      GroupByUniform(events, PaperOf);
    }
    GroupByUniform(events, PartOf);
    assert BuildParts(digest, tripos, [(part, events)][1..]) == [];
  }

  lemma EntriesOfTwo(e1: EngineeringEvent, e2: EngineeringEvent)
    ensures seq(2, i requires 0 <= i < 2 => BuildEvent([e1, e2][i])) == [BuildEvent(e1), BuildEvent(e2)]
  {
  }

  /**
   * Two events sharing part, paper and name land in one series, earlier
   * start first, whatever order they arrive in.
   */
  lemma SameSeriesInStartOrder(digest: string -> string, tripos: string, e1: EngineeringEvent, e2: EngineeringEvent)
    requires e1.part == e2.part && e1.paper == e2.paper && e1.name == e2.name
    requires TimeLt(e1.start, e2.start) && SameDay(e1) && SameDay(e2)
    ensures BuildTimetable(digest, tripos, [e2, e1])
         == Ok([Module(Path(tripos, e1.part), e1.paper,
                       [Series(ExternalId(digest, tripos, e1.part, e1.paper, e1.name), e1.name,
                               [BuildEvent(e1), BuildEvent(e2)])])])
  {
    var sorted := [e1, e2];
    SortTwo(e1, e2);
    assert SameDay(sorted[0]) && SameDay(sorted[1]);
    BuildTimetableOk(digest, tripos, [e2, e1]);
    assert SeriesKey(sorted[1]) == SeriesKey(sorted[0]);
    OneSeries(digest, tripos, sorted);
    EntriesOfTwo(e1, e2);
  }
}
