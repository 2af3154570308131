/** The values the core passes around: optional values, results with an error
    branch for the exceptions the source raises, raw bytes, and the JSON values
    that `json.loads` produces and that the question dictionaries are made of. */
module Values {

  datatype Option<+T> = None | Some(value: T)

  datatype Result<+T, +E> = Ok(value: T) | Err(error: E)

  /** An `HTTPException`: the status code and the detail message. */
  datatype HttpError = HttpError(status: int, detail: string)

  /** A `bytes` value. */
  type Bytes = seq<bv8>

  /** Python truthiness of an optional `bytes` value (`if emb_bytes:`):
      `None` and `b""` are false. */
  predicate BytesTruthy(b: Option<Bytes>) {
    b.Some? && |b.value| > 0
  }

  /** A JSON value as `json.loads` returns it: objects become dicts, arrays
      lists, `true`/`false` bools, integers ints and other numbers floats. */
  datatype Json =
    | JNull
    | JBool(b: bool)
    | JInt(i: int)
    | JFloat(f: real)
    | JString(s: string)
    | JArray(items: seq<Json>)
    | JObject(fields: map<string, Json>)

  /** A Python `dict` with string keys, the shape of every question record. */
  type Dict = map<string, Json>

  /** Python truthiness of a JSON value. */
  predicate JsonTruthy(j: Json) {
    match j
    case JNull => false
    case JBool(b) => b
    case JInt(i) => i != 0
    case JFloat(f) => f != 0.0
    case JString(s) => s != ""
    case JArray(items) => items != []
    case JObject(fields) => |fields| > 0
  }

  /** `d.get(key, default)`. */
  function Get(d: Dict, key: string, default: Json): Json {
    if key in d then d[key] else default
  }
}
