/** JSON-like values as the collectors and the read API see them after `json.load`
    or after a provider adapter has normalised a response. */
module Json {

  datatype Option<+T> = None | Some(value: T) {
    /** Python's `d.get(k, default)` once the lookup has happened. */
    function GetOr(default: T): T {
      match this
      case Some(v) => v
      case None => default
    }
  }

  /** A JSON value; numbers are kept as integers because no arithmetic is
      done on them anywhere in the modelled code. */
  datatype Json =
    | JNull
    | JBool(b: bool)
    | JNum(n: int)
    | JStr(s: string)
    | JArr(items: seq<Json>)
    | JObj(fields: map<string, Json>)

  /** Python truthiness: None, False, 0, '', [] and {} are falsy. */
  predicate Truthy(v: Json)
  {
    match v
    case JNull => false
    case JBool(b) => b
    case JNum(n) => n != 0
    case JStr(s) => s != ""
    case JArr(a) => a != []
    case JObj(m) => m != map[]
  }

  /** Python's `d.get(k)`: the stored value, or None when the key is absent. */
  function Get(d: map<string, Json>, k: string): Json
  {
    if k in d then d[k] else JNull
  }
}
