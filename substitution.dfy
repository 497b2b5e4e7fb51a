/**
 * Substitutions: a per-part table of display names for parts, papers and
 * event types, with the `"__all__"` part as the one fallback scope.
 */
module Substitution {
  import opened Wrappers
  import opened Json

  /** The reserved scope consulted when a part's own table has no entry. */
  const AllScope: string := "__all__"

  /** `Substitutor` holds the `"substitutions"` object; `NullSubstitutor` substitutes nothing. */
  datatype Substitutor =
    | Substitutor(substitutions: map<string, Json>)
    | NullSubstitutor

  /**
   * `substitutions[section][valueType][value]`, when every level is present
   * and the value found is a string.
   */
  function Entry(table: map<string, Json>, section: string, valueType: string, value: string): (r: Option<string>)
    ensures r.Some? <==>
      && section in table && table[section].JObject?
      && valueType in table[section].fields && table[section].fields[valueType].JObject?
      && value in table[section].fields[valueType].fields
      && table[section].fields[valueType].fields[value].JString?
    ensures r.Some? ==> table[section].fields[valueType].fields[value] == JString(r.value)
  {
    if section in table && table[section].JObject? then
      var bySection := table[section].fields;
      if valueType in bySection && bySection[valueType].JObject? then
        var byType := bySection[valueType].fields;
        if value in byType && byType[value].JString? then Some(byType[value].s) else None
      else None
    else None
  }

  /**
   * `lookup(section, value_type, value)`: the section's own entry, else (at
   * most one retry) the `"__all__"` entry, else the value unchanged.
   */
  function Lookup(sub: Substitutor, section: string, valueType: string, value: string): (r: string)
    ensures sub.NullSubstitutor? ==> r == value
    ensures sub.Substitutor? ==>
      match Entry(sub.substitutions, section, valueType, value)
      case Some(v) => r == v
      case None =>
        if section != AllScope && Entry(sub.substitutions, AllScope, valueType, value).Some?
        then r == Entry(sub.substitutions, AllScope, valueType, value).value
        else r == value
    decreases if section == AllScope then 0 else 1
  {
    match sub
    case NullSubstitutor => value
    case Substitutor(table) =>
      match Entry(table, section, valueType, value)
      case Some(v) => v
      case None => if section != AllScope then Lookup(sub, AllScope, valueType, value) else value
  }

  /**
   * A section's own entry wins over a different `"__all__"` entry, and with
   * neither the value comes back unchanged.
   */
  lemma ScopeTakesPrecedence(table: map<string, Json>, section: string, valueType: string, value: string, v: string, w: string)
    requires Entry(table, section, valueType, value) == Some(v)
    requires Entry(table, AllScope, valueType, value) == Some(w)
    ensures Lookup(Substitutor(table), section, valueType, value) == v
  {
  }

  /**
   * `from_json`: refuses a document that is not an object or has no
   * `"substitutions"` key; the constructor's `substitutions.get(...)` fails
   * when that section is not an object.
   */
  function FromJson(doc: Json): (r: Result<Substitutor, FormatError>)
    ensures !doc.JObject? ==> r == Err(TopLevelNotObject)
    ensures doc.JObject? && "substitutions" !in doc.fields ==> r == Err(MissingTopLevelKey("substitutions"))
    ensures doc.JObject? && "substitutions" in doc.fields && !doc.fields["substitutions"].JObject? ==> r == Err(SectionNotObject)
    ensures r.Ok? <==> doc.JObject? && "substitutions" in doc.fields && doc.fields["substitutions"].JObject?
    ensures r.Ok? ==> r.value == Substitutor(doc.fields["substitutions"].fields)
  {
    if !doc.JObject? then Err(TopLevelNotObject)
    else if "substitutions" !in doc.fields then Err(MissingTopLevelKey("substitutions"))
    else if !doc.fields["substitutions"].JObject? then Err(SectionNotObject)
    else Ok(Substitutor(doc.fields["substitutions"].fields))
  }

  /** `{"substitutions": {"__all__": {"parts": {"1": "IA"}}}}` */
  function ExampleDocument(): Json {
    JObject(map["substitutions" := JObject(map[AllScope := JObject(map["parts" := JObject(map["1" := JString("IA")])])])])
  }

  /** Part "1" becomes "IA" through the global scope; paper "CW" has no entry and stays. */
  lemma ExampleLookups()
    ensures FromJson(ExampleDocument()).Ok?
    ensures Lookup(FromJson(ExampleDocument()).value, "1", "parts", "1") == "IA"
    ensures Lookup(FromJson(ExampleDocument()).value, "1", "papers", "CW") == "CW"
  {
  }
}
