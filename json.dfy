/**
 * Decoded JSON as the cleanup script sees it after `response.json()`,
 * with Python's dictionary lookup and truthiness rules.
 */
module Json {
  import opened Wrappers

  /** A decoded JSON value (numbers are restricted to integers). */
  datatype Value =
    | Null
    | Bool(b: bool)
    | Num(n: int)
    | Str(s: string)
    | Arr(items: seq<Value>)
    | Obj(fields: map<string, Value>)

  /** A JSON object: an application record or a scan report. */
  type Object = map<string, Value>

  /** Python truthiness: `not v` holds exactly for `None`, `False`, `0`, `''`, `[]` and `{}`. */
  function Truthy(v: Value): (b: bool)
    ensures !b <==> v == Null || v == Bool(false) || v == Num(0) || v == Str("") || v == Arr([]) || v == Obj(map[])
  {
    match v
    case Null => false
    case Bool(b) => b
    case Num(n) => n != 0
    case Str(s) => s != []
    case Arr(items) => items != []
    case Obj(fields) => fields != map[]
  }

  /** `o.get(key)`: a missing key reads as `None`, the same as a JSON null. */
  function Get(o: Object, key: string): (v: Value)
    ensures key in o ==> v == o[key]
    ensures v == Null <==> key !in o || o[key] == Null
  {
    if key in o then o[key] else Null
  }

  /** `o.get(key, default)`: the default stands in only for a missing key, not for a null. */
  function GetOr(o: Object, key: string, default: Value): (v: Value)
    ensures key in o ==> v == Get(o, key)
    ensures key !in o ==> v == default
  {
    if key in o then o[key] else default
  }
}
