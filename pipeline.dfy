/**
 * The program's composition: every record is parsed and given its display
 * names, the excluded events are dropped, and the rest are assembled into
 * the timetable.
 */
module Pipeline {
  import opened Wrappers
  import opened Json
  import opened Summary
  import opened Events
  import opened Substitution
  import opened Exclusion
  import opened Sorting
  import opened Timetable

  datatype RunError =
    | ParseFailed(parseError: EventParseError)
    | BuildFailed(buildError: BuildError)

  /** `parse_engineering_event`: the event with its display names, or why the record has none. */
  function ParseEvent(record: IcalEvent, sub: Substitutor): (r: Result<EngineeringEvent, EventParseError>)
    ensures r.Ok? <==> FromIcalEvent(record).Ok?
    ensures r.Err? ==> r.error == FromIcalEvent(record).error
    ensures r.Ok? ==>
      var m := MatchSummary(record.summary.value).value;
      && r.value.part == Lookup(sub, m.part, "parts", m.part)
      && r.value.paper == Lookup(sub, m.part, "papers", m.paper)
      && r.value.eventType == Lookup(sub, m.part, "event_types", m.eventType)
      && r.value.name == m.name && r.value.staffName == m.staff && r.value.location == m.location
      && r.value.start == record.dtStart.value && r.value.end == record.dtEnd.value && r.value.uid == record.uid.value
  {
    match FromIcalEvent(record)
    case Err(e) => Err(e)
    case Ok(ev) => Ok(WithSubstitutions(ev, sub))
  }

  /** `ParseEvent` with the substitutions fixed, as the generator applies it to each record. */
  function Parser(sub: Substitutor): IcalEvent -> Result<EngineeringEvent, EventParseError> {
    record => ParseEvent(record, sub)
  }

  /** Every record parsed in order: all of the results, or the first failure. */
  function Collect<R, T, E>(records: seq<R>, parse: R -> Result<T, E>): (r: Result<seq<T>, E>)
    ensures r.Ok? <==> forall i :: 0 <= i < |records| ==> parse(records[i]).Ok?
    ensures r.Ok? ==> (|r.value| == |records| &&
                       forall i :: 0 <= i < |records| ==> r.value[i] == parse(records[i]).value)
    ensures r.Err? ==> exists i :: 0 <= i < |records| && parse(records[i]) == Err(r.error) &&
                                   (forall j :: 0 <= j < i ==> parse(records[j]).Ok?)
  {
    if |records| == 0 then Ok([])
    else
      var init, last := records[..|records| - 1], records[|records| - 1];
      assert forall i :: 0 <= i < |init| ==> init[i] == records[i];
      match Collect(init, parse)
      case Err(e) => Err(e)
      case Ok(values) =>
        match parse(last)
        case Err(e) => Err(e)
        case Ok(v) => Ok(values + [v])
  }

  /** The events no rule excludes, in their order. */
  ghost function Kept(events: seq<EngineeringEvent>, x: Excludor): seq<EngineeringEvent> {
    if |events| == 0 then []
    else
      var init, last := events[..|events| - 1], events[|events| - 1];
      Kept(init, x) + (if Excluded(x, last) then [] else [last])
  }

  /** An event is kept exactly when it was parsed and no rule excludes it. */
  lemma {:induction false} KeptMembers(events: seq<EngineeringEvent>, x: Excludor)
    ensures forall e :: e in Kept(events, x) <==> e in events && !Excluded(x, e)
  {
    if |events| > 0 {
      var init, last := events[..|events| - 1], events[|events| - 1];
      KeptMembers(init, x);
      assert events == init + [last];
    }
  }

  /**
   * What a run with parser `parse` produces: the first parse failure, or the
   * assembled timetable of the kept events.
   */
  ghost function OutcomeWith(records: seq<IcalEvent>, parse: IcalEvent -> Result<EngineeringEvent, EventParseError>,
                             x: Excludor, digest: string -> string, tripos: string): Result<seq<Module>, RunError> {
    match Collect(records, parse)
    case Err(e) => Err(ParseFailed(e))
    case Ok(events) => Assemble(digest, tripos, Kept(events, x))
  }

  /** What the program's run produces. */
  ghost function Outcome(records: seq<IcalEvent>, sub: Substitutor, x: Excludor,
                         digest: string -> string, tripos: string): Result<seq<Module>, RunError> {
    OutcomeWith(records, Parser(sub), x, digest, tripos)
  }

  /** A failure at record `i` after good records is the outcome of every longer prefix. */
  lemma {:induction false} FailurePersists<R, T, E>(records: seq<R>, parse: R -> Result<T, E>, i: nat, k: nat, e: E)
    requires i < k <= |records|
    requires Collect(records[..i], parse).Ok? && parse(records[i]) == Err(e)
    ensures Collect(records[..k], parse) == Err(e)
    decreases k
  {
    assert records[..k][..k - 1] == records[..k - 1];
    if k > i + 1 {
      FailurePersists(records, parse, i, k - 1, e);
    }
  }

  /**
   * `main`'s generator and `build_timetable_xml`: parse and substitute each
   * record, keep it unless excluded, then assemble what was kept.
   */
  method Run(records: seq<IcalEvent>, sub: Substitutor, x: Excludor, digest: string -> string, tripos: string)
    returns (r: Result<seq<Module>, RunError>)
    ensures r == Outcome(records, sub, x, digest, tripos)
  {
    r := RunWith(records, Parser(sub), x, digest, tripos);
  }

  /** The run's loop, for any parser of records. */
  method RunWith(records: seq<IcalEvent>, parse: IcalEvent -> Result<EngineeringEvent, EventParseError>,
                 x: Excludor, digest: string -> string, tripos: string)
    returns (r: Result<seq<Module>, RunError>)
    ensures r == OutcomeWith(records, parse, x, digest, tripos)
  {
    var kept: seq<EngineeringEvent> := [];
    ghost var parsed: seq<EngineeringEvent> := [];
    var i := 0;
    while i < |records|
      invariant 0 <= i <= |records|
      invariant Collect(records[..i], parse) == Ok(parsed)
      invariant kept == Kept(parsed, x)
    {
      match parse(records[i])
      case Err(e) =>
        OutcomeOfFailure(records, parse, x, digest, tripos, i, e);
        return Err(ParseFailed(e));
      case Ok(event) =>
        var excluded := IsExcluded(x, event);
        CollectStep(records, parse, i);
        KeptStep(parsed, event, x);
        parsed := parsed + [event];
        if !excluded {
          kept := kept + [event];
        }
        i := i + 1;
    }
    assert records[..i] == records;
    OutcomeOfSuccess(records, parse, x, digest, tripos, parsed);
    r := Assemble(digest, tripos, kept);
  }

  /** A record that fails after good ones decides the outcome. */
  lemma OutcomeOfFailure(records: seq<IcalEvent>, parse: IcalEvent -> Result<EngineeringEvent, EventParseError>,
                         x: Excludor, digest: string -> string, tripos: string, i: nat, e: EventParseError)
    requires i < |records| && Collect(records[..i], parse).Ok? && parse(records[i]) == Err(e)
    ensures OutcomeWith(records, parse, x, digest, tripos) == Err(ParseFailed(e))
  {
    FailurePersists(records, parse, i, |records|, e);
    assert records[..|records|] == records;
  }

  /** When every record parses, the outcome is the assembly of the kept events. */
  lemma OutcomeOfSuccess(records: seq<IcalEvent>, parse: IcalEvent -> Result<EngineeringEvent, EventParseError>,
                         x: Excludor, digest: string -> string, tripos: string, parsed: seq<EngineeringEvent>)
    requires Collect(records, parse) == Ok(parsed)
    ensures OutcomeWith(records, parse, x, digest, tripos) == Assemble(digest, tripos, Kept(parsed, x))
  {
  }

  /** The timetable of the kept events, or why it cannot be built. */
  function Assemble(digest: string -> string, tripos: string, kept: seq<EngineeringEvent>): (r: Result<seq<Module>, RunError>)
    ensures r.Ok? <==> BuildTimetable(digest, tripos, kept).Ok?
    ensures r.Ok? ==> r.value == BuildTimetable(digest, tripos, kept).value
    ensures r.Err? ==> r.error == BuildFailed(BuildTimetable(digest, tripos, kept).error)
  {
    match BuildTimetable(digest, tripos, kept)
    case Err(b) => Err(BuildFailed(b))
    case Ok(modules) => Ok(modules)
  }

  /** One more good record extends the collected prefix by its value. */
  lemma CollectStep<R, T, E>(records: seq<R>, parse: R -> Result<T, E>, i: nat)
    requires i < |records| && Collect(records[..i], parse).Ok? && parse(records[i]).Ok?
    ensures Collect(records[..i + 1], parse) == Ok(Collect(records[..i], parse).value + [parse(records[i]).value])
  {
    assert records[..i + 1][..i] == records[..i];
  }

  /** One more event is kept exactly when no rule excludes it. */
  lemma KeptStep(events: seq<EngineeringEvent>, e: EngineeringEvent, x: Excludor)
    ensures Kept(events + [e], x) == Kept(events, x) + (if Excluded(x, e) then [] else [e])
  {
    assert (events + [e])[..|events|] == events;
  }

  /** A successful run is the timetable built from the kept events of a successful parse. */
  lemma OutcomeOk(records: seq<IcalEvent>, parse: IcalEvent -> Result<EngineeringEvent, EventParseError>,
                  x: Excludor, digest: string -> string, tripos: string)
    requires OutcomeWith(records, parse, x, digest, tripos).Ok?
    ensures Collect(records, parse).Ok?
    ensures var kept := Kept(Collect(records, parse).value, x);
      BuildTimetable(digest, tripos, kept).Ok? &&
      OutcomeWith(records, parse, x, digest, tripos).value == BuildTimetable(digest, tripos, kept).value
  {
  }

  /**
   * Every entry of a produced timetable comes from a parsed event that no
   * rule excludes, and sits under that event's part, paper and name; the
   * program's run is the one with `Parser(sub)`.
   */
  lemma NoExcludedEntry(records: seq<IcalEvent>, parse: IcalEvent -> Result<EngineeringEvent, EventParseError>,
                        x: Excludor, digest: string -> string, tripos: string)
    requires OutcomeWith(records, parse, x, digest, tripos).Ok?
    ensures var labels := TreeLabels(OutcomeWith(records, parse, x, digest, tripos).value);
      forall k :: 0 <= k < |labels| ==>
        exists e :: e in Collect(records, parse).value && !Excluded(x, e) && labels[k] == LabelOf(e)
  {
    OutcomeOk(records, parse, x, digest, tripos);
    KeptEntries(digest, tripos, Collect(records, parse).value, x);
  }

  /** The entries built from the kept events come from events no rule excludes. */
  lemma KeptEntries(digest: string -> string, tripos: string, events: seq<EngineeringEvent>, x: Excludor)
    requires BuildTimetable(digest, tripos, Kept(events, x)).Ok?
    ensures var labels := TreeLabels(BuildTimetable(digest, tripos, Kept(events, x)).value);
      forall k :: 0 <= k < |labels| ==> exists e :: e in events && !Excluded(x, e) && labels[k] == LabelOf(e)
  {
    var kept := Kept(events, x);
    KeptMembers(events, x);
    EntriesFromInput(digest, tripos, kept);
    var labels := TreeLabels(BuildTimetable(digest, tripos, kept).value);
    forall k | 0 <= k < |labels|
      ensures exists e :: e in events && !Excluded(x, e) && labels[k] == LabelOf(e)
    {
      assert labels[k] in labels;
      var i :| 0 <= i < |kept| && labels[k] == LabelOf(kept[i]);
      assert kept[i] in kept;
    }
  }

  /**
   * Exclusion rules see substituted values: with part "1" displayed as "IA",
   * a rule on part "IA" drops the event and a rule on part "1" keeps it.
   */
  lemma ExclusionSeesDisplayNames(e: EngineeringEvent)
    requires e.part == "1"
    ensures var sub := Substitutor(map[AllScope := JObject(map["parts" := JObject(map["1" := JString("IA")])])]);
      && Excluded(Excludor(JArray([JObject(map["part" := JString("IA")])])), WithSubstitutions(e, sub))
      && !Excluded(Excludor(JArray([JObject(map["part" := JString("1")])])), WithSubstitutions(e, sub))
  {
    var sub := Substitutor(map[AllScope := JObject(map["parts" := JObject(map["1" := JString("IA")])])]);
    var shown := WithSubstitutions(e, sub);
    assert shown.part == "IA";
    var keepRule := JObject(map["part" := JString("1")]);
    assert !RuleMatches(keepRule, shown) by {
      assert "part" in keepRule.fields;
    }
    assert Rules(Excludor(JArray([keepRule]))) == [keepRule];
    var dropRule := JObject(map["part" := JString("IA")]);
    assert RuleMatches(dropRule, shown);
    assert Rules(Excludor(JArray([dropRule])))[0] == dropRule;
  }
}
