/**
 * Exclusions: an event is dropped when some rule's every key names an
 * attribute of the event equal to the rule's value.
 */
module Exclusion {
  import opened Wrappers
  import opened Json
  import opened Events

  /** `Excludor` holds the `"exclusions"` value; `NullExcludor` excludes nothing. */
  datatype Excludor =
    | Excludor(exclusions: Json)
    | NullExcludor

  /**
   * What `getattr(event, key, None)` yields: one of the event's string
   * fields, some other object that never equals a decoded JSON value (a
   * date-time, a bound method, the compiled pattern), or `None`.
   */
  datatype AttrValue = Str(s: string) | Other | Absent

  /** Attributes whose values are neither strings nor `None`. */
  const NonJsonAttrs: set<string> := {"start", "end", "with_substitutions", "from_ical_event", "ICAL_SUMMARY_PATTERN"}

  /** The event's attribute named `key`, by its Python name. */
  function Attr(e: EngineeringEvent, key: string): (r: AttrValue)
    ensures r.Str? <==> key in {"part", "paper", "name", "event_type", "staff_name", "location", "uid"}
    ensures r.Other? <==> key in NonJsonAttrs
    ensures key == "part" ==> r == Str(e.part)
    ensures key == "paper" ==> r == Str(e.paper)
    ensures key == "name" ==> r == Str(e.name)
    ensures key == "event_type" ==> r == Str(e.eventType)
    ensures key == "staff_name" ==> r == Str(e.staffName)
    ensures key == "location" ==> r == Str(e.location)
    ensures key == "uid" ==> r == Str(e.uid)
  {
    if key == "part" then Str(e.part)
    else if key == "paper" then Str(e.paper)
    else if key == "name" then Str(e.name)
    else if key == "event_type" then Str(e.eventType)
    else if key == "staff_name" then Str(e.staffName)
    else if key == "location" then Str(e.location)
    else if key == "uid" then Str(e.uid)
    else if key in NonJsonAttrs then Other
    else Absent
  }

  /** Python's `==` between an attribute and a decoded JSON value. */
  predicate AttrEquals(a: AttrValue, v: Json) {
    match a
    case Str(s) => v == JString(s)
    case Other => false
    case Absent => v == JNull
  }

  /**
   * A rule iterated as Python iterates it yields no keys: an object without
   * fields, an empty array or an empty string.
   */
  predicate Keyless(rule: Json) {
    rule == JObject(map[]) || rule == JArray([]) || rule == JString("")
  }

  /**
   * `all(getattr(event, k, None) == rule[k] for k in rule)`. Over no keys
   * `all` is true, whatever the rule's type; an array or string with
   * elements would make Python raise, and is read as not matching.
   */
  predicate RuleMatches(rule: Json, e: EngineeringEvent) {
    match rule
    case JObject(fields) => forall k :: k in fields ==> AttrEquals(Attr(e, k), fields[k])
    case JArray(items) => |items| == 0
    case JString(s) => |s| == 0
    case _ => false
  }

  /**
   * A rule is the conjunction of its keys: one more key matches exactly the
   * events the rest matches whose attribute also equals the new value.
   */
  lemma RuleAddKey(fields: map<string, Json>, key: string, v: Json, e: EngineeringEvent)
    requires key !in fields
    ensures RuleMatches(JObject(fields[key := v]), e) <==> RuleMatches(JObject(fields), e) && AttrEquals(Attr(e, key), v)
  {
    var wider := fields[key := v];
    assert key in wider && wider[key] == v;
    assert forall k :: k in fields ==> k in wider && wider[k] == fields[k];
  }

  /** A one-key rule on the event's part matches exactly the events with that part. */
  lemma PartRuleMatches(part: string, e: EngineeringEvent)
    ensures RuleMatches(JObject(map["part" := JString(part)]), e) <==> e.part == part
  {
    assert "part" in map["part" := JString(part)];
  }

  /** The rules `is_excluded` iterates over. */
  function Rules(x: Excludor): seq<Json> {
    if x.Excludor? && x.exclusions.JArray? then x.exclusions.items else []
  }

  /** Some rule matches every one of its keys. */
  ghost predicate Excluded(x: Excludor, e: EngineeringEvent) {
    exists i :: 0 <= i < |Rules(x)| && RuleMatches(Rules(x)[i], e)
  }

  /** `is_excluded`: scans the rules in order and stops at the first that matches. */
  method IsExcluded(x: Excludor, e: EngineeringEvent) returns (excluded: bool)
    ensures excluded <==> Excluded(x, e)
  {
    if x.NullExcludor? {
      return false;
    }
    var rules := Rules(x);
    var i := 0;
    while i < |rules|
      invariant 0 <= i <= |rules|
      invariant forall j :: 0 <= j < i ==> !RuleMatches(rules[j], e)
    {
      if RuleMatches(rules[i], e) {
        return true;
      }
      i := i + 1;
    }
    return false;
  }

  /**
   * `from_json`: refuses a document that is not an object or has no
   * `"exclusions"` key; the section itself is kept unchecked.
   */
  function FromJson(doc: Json): (r: Result<Excludor, FormatError>)
    ensures !doc.JObject? ==> r == Err(TopLevelNotObject)
    ensures doc.JObject? && "exclusions" !in doc.fields ==> r == Err(MissingTopLevelKey("exclusions"))
    ensures doc.JObject? && "exclusions" in doc.fields ==> r == Ok(Excludor(doc.fields["exclusions"]))
  {
    if !doc.JObject? then Err(TopLevelNotObject)
    else if "exclusions" !in doc.fields then Err(MissingTopLevelKey("exclusions"))
    else Ok(Excludor(doc.fields["exclusions"]))
  }

  /** A rule without keys (`{}`, `[]` or `""`) matches, so it excludes every event. */
  lemma EmptyRuleExcludesAll(rules: seq<Json>, e: EngineeringEvent)
    requires exists i :: 0 <= i < |rules| && Keyless(rules[i])
    ensures Excluded(Excludor(JArray(rules)), e)
  {
    var i :| 0 <= i < |rules| && Keyless(rules[i]);
    assert RuleMatches(Rules(Excludor(JArray(rules)))[i], e);
  }

  /** No rules, or the null excludor, exclude nothing. */
  lemma NothingExcludedWithoutRules(x: Excludor, e: EngineeringEvent)
    requires x.NullExcludor? || x == Excludor(JArray([]))
    ensures !Excluded(x, e)
  {
  }

  /** Appending a rule never readmits an excluded event. */
  lemma AppendRuleMonotone(rules: seq<Json>, rule: Json, e: EngineeringEvent)
    requires Excluded(Excludor(JArray(rules)), e)
    ensures Excluded(Excludor(JArray(rules + [rule])), e)
  {
    var i :| 0 <= i < |rules| && RuleMatches(rules[i], e);
    assert Rules(Excludor(JArray(rules + [rule])))[i] == rules[i];
  }

  /** A key that names no attribute of the event matches only a JSON null. */
  lemma UnknownKeyMatchesOnlyNull(key: string, v: Json, e: EngineeringEvent)
    requires key !in {"part", "paper", "name", "event_type", "staff_name", "location", "uid"}
    requires key !in NonJsonAttrs
    ensures RuleMatches(JObject(map[key := v]), e) <==> v == JNull
  {
    assert key in map[key := v];
  }

  /** A rule on `start` or `end` never matches: a date-time never equals a JSON value. */
  lemma TimeKeysNeverMatch(key: string, v: Json, e: EngineeringEvent)
    requires key in {"start", "end"}
    ensures !RuleMatches(JObject(map[key := v]), e)
  {
    assert key in map[key := v];
  }

  /** `{"exclusions": [{"event_type": "L"}]}` drops an event whose resolved type is "L". */
  lemma ExampleExclusion(e: EngineeringEvent)
    requires e.eventType == "L"
    ensures FromJson(JObject(map["exclusions" := JArray([JObject(map["event_type" := JString("L")])])])).Ok?
    ensures Excluded(FromJson(JObject(map["exclusions" := JArray([JObject(map["event_type" := JString("L")])])])).value, e)
  {
    var rule := JObject(map["event_type" := JString("L")]);
    assert RuleMatches(rule, e);
    assert Rules(Excludor(JArray([rule])))[0] == rule;
  }
}
