/**
 * The untyped document tree the decoders read (Gson's JsonElement), and the
 * element accessors they call on it.
 */
module JsonTree {
  import opened Wrappers

  /**
   * A JSON element. A number keeps the literal text it was parsed from, as
   * Gson's lazily parsed numbers do; object members are keyed by name.
   */
  datatype Json =
    | JNull
    | JBool(b: bool)
    | JNumber(literal: string)
    | JString(s: string)
    | JArray(elems: seq<Json>)
    | JObject(fields: map<string, Json>)

  /** JsonObject.get: the member stored under `key`, or absent. */
  function Get(fields: map<string, Json>, key: string): (r: Option<Json>)
    ensures r.Some? <==> key in fields
    ensures r.Some? ==> r.value == fields[key]
  {
    if key in fields then Some(fields[key]) else None
  }

  /**
   * JsonElement.getAsString. None stands for the exception the accessor
   * throws: on null, on an object, and on an array that does not hold
   * exactly one element.
   */
  function AsString(j: Json): (r: Option<string>)
    ensures j.JString? ==> r == Some(j.s)
    ensures j.JNull? || j.JObject? ==> r.None?
  {
    match j
    case JString(s) => Some(s)
    case JNumber(literal) => Some(literal)
    case JBool(b) => Some(if b then "true" else "false")
    case JArray(elems) => if |elems| == 1 then AsString(elems[0]) else None
    case _ => None
  }

  /**
   * JsonElement.getAsFloat, keeping the number as its literal. None stands
   * for the exception thrown on null, a boolean, an object, or an array
   * that does not hold exactly one element.
   */
  function AsNumber(j: Json): (r: Option<string>)
    ensures j.JNumber? ==> r == Some(j.literal)
    ensures j.JNull? || j.JBool? || j.JObject? ==> r.None?
  {
    match j
    case JNumber(literal) => Some(literal)
    case JArray(elems) => if |elems| == 1 then AsNumber(elems[0]) else None
    case _ => None
  }
}
