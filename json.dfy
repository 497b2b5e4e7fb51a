/** The configuration files as decoded JSON values (decoding itself is not modelled). */
module Json {

  /** A decoded JSON document; numbers are integers in this model. */
  datatype Json =
    | JNull
    | JBool(b: bool)
    | JNumber(n: int)
    | JString(s: string)
    | JArray(items: seq<Json>)
    | JObject(fields: map<string, Json>)

  /** Why a configuration document was refused at load time. */
  datatype FormatError =
    | TopLevelNotObject              // the document is not a JSON object
    | MissingTopLevelKey(key: string) // the object lacks the section's key
    | SectionNotObject               // the section has no `get` (it is not an object)
}
