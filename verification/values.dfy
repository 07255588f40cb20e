/** Value types shared by the whole model: optional values, results, parsed
    JSON payloads, and JavaScript truthiness over them. */
module Values {

  /** A value that may be absent (`null` / `undefined` in the panel code). */
  datatype Option<+T> = None | Some(value: T) {

    /** The value, or `default` when absent: JavaScript's `x ?? default`. */
    function GetOr(default: T): T {
      match this
      case Some(v) => v
      case None => default
    }
  }

  /** The outcome of an operation that either returns or throws. */
  datatype Result<+T, +E> = Ok(value: T) | Err(error: E)

  /** A parsed JSON value. Numbers are only ever probed for truthiness. */
  datatype Json =
    | JNull
    | JBool(b: bool)
    | JNum(n: real)
    | JStr(s: string)
    | JArr(elems: seq<Json>)
    | JObj(fields: map<string, Json>)

  /** JavaScript truthiness of a JSON value. */
  predicate Truthy(v: Json) {
    match v
    case JNull => false
    case JBool(b) => b
    case JNum(n) => n != 0.0
    case JStr(s) => s != ""
    case JArr(_) => true
    case JObj(_) => true
  }

  /** JavaScript truthiness of a string that may be `null`. */
  predicate Filled(o: Option<string>) {
    o.Some? && o.value != ""
  }

  /** `v.key` as JavaScript reads it from a JSON value: only an object that
      has the key yields something. */
  function Field(v: Json, key: string): Option<Json> {
    if v.JObj? && key in v.fields then Some(v.fields[key]) else None
  }

  /** The string found by following `path` through nested objects, when the
      value at the end of the path is a string. */
  function StringAt(v: Json, path: seq<string>): Option<string>
    decreases |path|
  {
    if |path| == 0 then
      if v.JStr? then Some(v.s) else None
    else
      match Field(v, path[0])
      case None => None
      case Some(w) => StringAt(w, path[1..])
  }
}
