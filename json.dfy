/**
 * The values a decoded JSON document can hold, as the account store file
 * holds them, and Python's truthiness of such a value (the test behind
 * `if users.get(name):` and `if not userdata:`).
 */
module JsonValues {

  datatype Json =
    | JNull                       // JSON null, and Python's None from dict.get on a missing key
    | JBool(b: bool)
    | JNum(n: int)                // integral numbers only
    | JStr(s: string)
    | JArr(items: seq<Json>)
    | JObj(fields: map<string, Json>)

  /** Python's bool(v) for the decoded value `v`. */
  predicate Truthy(v: Json) {
    match v
    case JNull => false
    case JBool(b) => b
    case JNum(n) => n != 0
    case JStr(s) => s != ""
    case JArr(items) => items != []
    case JObj(fields) => fields != map[]
  }

  /** The JSON array of strings that a Python list of strings serialises to. */
  function Strings(xs: seq<string>): (js: seq<Json>)
    ensures |js| == |xs|
    ensures forall i :: 0 <= i < |xs| ==> js[i] == JStr(xs[i])
  {
    if xs == [] then [] else [JStr(xs[0])] + Strings(xs[1..])
  }
}
