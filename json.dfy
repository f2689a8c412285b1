/**
 * Decoded JSON, as `json_decode($text, true)` hands it to the parser: objects become
 * string-keyed arrays, and a text that does not decode becomes `null` (`JNull`).
 */
module JsonValues {
  import opened Wrappers

  datatype Json =
    | JNull
    | JBool(b: bool)
    | JNumber(literal: string)   // the number's lexeme; its floating-point value is not modelled
    | JString(s: string)
    | JArray(items: seq<Json>)
    | JObject(fields: map<string, Json>)

  /**
   * `isset($j[key]) ? $j[key] : null` for a non-numeric string key: only an object (an
   * associative array) has such a key, and a key holding `null` counts as not set.
   */
  function Field(j: Json, key: string): (r: Option<Json>)
    ensures r.Some? <==> j.JObject? && key in j.fields && j.fields[key] != JNull
    ensures r.Some? ==> r.value == j.fields[key] && r.value != JNull
  {
    if j.JObject? && key in j.fields && j.fields[key] != JNull then Some(j.fields[key]) else None
  }
}
