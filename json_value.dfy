/**
 * Untyped JSON values, as `JSON.parse` and `req.json()` produce them, and the
 * host's JSON text codec (`JSON.parse` / `JSON.stringify(_, null, 2)`), which
 * is foreign code and therefore a parameter of the operations that use it.
 */
module JsonValue {
  import opened Results

  /** A JSON value; numbers are modelled as reals (IEEE doubles are not modelled). */
  datatype Json =
    | JNull
    | JBool(b: bool)
    | JNumber(n: real)
    | JString(s: string)
    | JArray(items: seq<Json>)
    | JObject(fields: map<string, Json>)

  /** The type names the schema library reports for a received value; a missing key is `Undefined`. */
  datatype Kind = Undefined | Null | Boolean | Number | String | Array | Object

  /** The kind of an optional value (the result of reading a key that may be absent). */
  function KindOf(v: Option<Json>): (k: Kind)
    ensures k == Undefined <==> v.None?
    ensures k == Null <==> v == Some(JNull)
    ensures k == Boolean <==> (v.Some? && v.value.JBool?)
    ensures k == Number <==> (v.Some? && v.value.JNumber?)
    ensures k == String <==> (v.Some? && v.value.JString?)
    ensures k == Array <==> (v.Some? && v.value.JArray?)
    ensures k == Object <==> (v.Some? && v.value.JObject?)
  {
    match v
    case None => Undefined
    case Some(JNull) => Null
    case Some(JBool(_)) => Boolean
    case Some(JNumber(_)) => Number
    case Some(JString(_)) => String
    case Some(JArray(_)) => Array
    case Some(JObject(_)) => Object
  }

  /** Reads a key of an object, as property access does (`undefined` when absent). */
  function Lookup(fields: map<string, Json>, key: string): (v: Option<Json>)
    ensures v.Some? <==> key in fields
    ensures v.Some? ==> v.value == fields[key]
  {
    if key in fields then Some(fields[key]) else None
  }

  /**
   * The host's JSON text functions: `parse` is `JSON.parse` (an `Err` carries
   * the SyntaxError's message) and `stringify` is `JSON.stringify(_, null, 2)`.
   */
  datatype JsonCodec = JsonCodec(parse: string -> Result<Json, string>, stringify: Json -> string)
}
