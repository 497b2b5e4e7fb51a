/**
 * Engineering events: built from a decoded calendar record through the
 * summary pattern, then rebuilt with substituted display names.
 */
module Events {
  import opened Wrappers
  import opened Summary
  import opened Substitution
  import opened Json

  /**
   * A time already converted to the timetable's zone: a day number and the
   * second of that day.
   */
  datatype Timestamp = Timestamp(date: int, time: int)

  /** `EngineeringEvent`: every field is a whole value taken from the record. */
  datatype EngineeringEvent = EngineeringEvent(
    part: string,
    paper: string,
    name: string,
    eventType: string,
    staffName: string,
    location: string,
    start: Timestamp,
    end: Timestamp,
    uid: string)

  /** The properties of one decoded calendar event; a missing property is `None`. */
  datatype IcalEvent = IcalEvent(
    summary: Option<string>,   // SUMMARY
    dtStart: Option<Timestamp>, // DTSTART, converted to the timetable's zone
    dtEnd: Option<Timestamp>,   // DTEND, converted to the timetable's zone
    uid: Option<string>)        // UID

  /** Why a record could not become an event. */
  datatype EventParseError =
    | NoSummary                       // "Event has no SUMMARY"
    | SummaryMismatch(summary: string) // the summary does not match the pattern
    | NoStart                         // "Event has no DTSTART"
    | NoEnd                           // "Event has no DTEND"
    | NoUid                           // `ical_event["UID"]` raises KeyError

  /**
   * `from_ical_event`: checks SUMMARY, the pattern, DTSTART and DTEND in that
   * order, then reads UID; groups 1, 2, 3, 5, 6 and 7 become the event's
   * fields and the week (group 4) is dropped.
   */
  function FromIcalEvent(ev: IcalEvent): (r: Result<EngineeringEvent, EventParseError>)
    ensures ev.summary.None? ==> r == Err(NoSummary)
    ensures ev.summary.Some? && MatchSummary(ev.summary.value).None? ==> r == Err(SummaryMismatch(ev.summary.value))
    ensures ev.summary.Some? && MatchSummary(ev.summary.value).Some? ==>
      && (ev.dtStart.None? ==> r == Err(NoStart))
      && (ev.dtStart.Some? && ev.dtEnd.None? ==> r == Err(NoEnd))
      && (ev.dtStart.Some? && ev.dtEnd.Some? && ev.uid.None? ==> r == Err(NoUid))
    ensures r.Ok? <==> ev.summary.Some? && MatchSummary(ev.summary.value).Some?
                       && ev.dtStart.Some? && ev.dtEnd.Some? && ev.uid.Some?
    ensures r.Ok? ==>
      var m := MatchSummary(ev.summary.value).value;
      && r.value.uid == ev.uid.value && r.value.start == ev.dtStart.value && r.value.end == ev.dtEnd.value
      && r.value.part == m.part && r.value.paper == m.paper && r.value.name == m.name
      && r.value.eventType == m.eventType && r.value.staffName == m.staff && r.value.location == m.location
  {
    if ev.summary.None? then Err(NoSummary)
    else
      match MatchSummary(ev.summary.value)
      case None => Err(SummaryMismatch(ev.summary.value))
      case Some(m) =>
        if ev.dtStart.None? then Err(NoStart)
        else if ev.dtEnd.None? then Err(NoEnd)
        else if ev.uid.None? then Err(NoUid)
        else Ok(EngineeringEvent(m.part, m.paper, m.name, m.eventType, m.staff, m.location,
                                 ev.dtStart.value, ev.dtEnd.value, ev.uid.value))
  }

  /**
   * A record whose summary is rendered from conforming groups parses back to
   * exactly those groups, less the week, with the UID carried verbatim.
   */
  lemma ParseRendered(m: SummaryMatch, start: Timestamp, end: Timestamp, uid: string)
    requires Conforms(m) && '[' !in m.staff && '(' !in m.location
    ensures FromIcalEvent(IcalEvent(Some(Render(m)), Some(start), Some(end), Some(uid)))
         == Ok(EngineeringEvent(m.part, m.paper, m.name, m.eventType, m.staff, m.location, start, end, uid))
  {
    RoundTrip(m);
  }

  /**
   * `with_substitutions`: part, paper and event type are each looked up with
   * the ORIGINAL part as the scope; every other field is kept.
   */
  function WithSubstitutions(e: EngineeringEvent, sub: Substitutor): (r: EngineeringEvent)
    ensures r.part == Lookup(sub, e.part, "parts", e.part)
    ensures r.paper == Lookup(sub, e.part, "papers", e.paper)
    ensures r.eventType == Lookup(sub, e.part, "event_types", e.eventType)
    ensures r.name == e.name && r.staffName == e.staffName && r.location == e.location
    ensures r.start == e.start && r.end == e.end && r.uid == e.uid
  {
    var part := e.part;
    e.(part := Lookup(sub, part, "parts", part),
       paper := Lookup(sub, part, "papers", e.paper),
       eventType := Lookup(sub, part, "event_types", e.eventType))
  }

  lemma NullSubstitutionKeepsEvent(e: EngineeringEvent)
    ensures WithSubstitutions(e, NullSubstitutor) == e
  {
  }

  /**
   * Part "1" is displayed as "IA", yet the paper is still looked up in part
   * "1"'s table, not in "IA"'s.
   */
  lemma PaperScopeIsOriginalPart(e: EngineeringEvent)
    requires e.part == "1" && e.paper == "CW"
    ensures var sub := Substitutor(map[
        AllScope := JObject(map["parts" := JObject(map["1" := JString("IA")])]),
        "1" := JObject(map["papers" := JObject(map["CW" := JString("Coursework")])]),
        "IA" := JObject(map["papers" := JObject(map["CW" := JString("Other")])])]);
      WithSubstitutions(e, sub).part == "IA" && WithSubstitutions(e, sub).paper == "Coursework"
  {
  }
}
