/**
 * Scalar values, documents, and the error/result types shared by every route.
 *
 * A stored record (a MongoDB document without its `_id`) and a parsed JSON body
 * are both a `Doc`: a map from field name to a scalar `Value`. The store keeps the
 * record identifier outside the document (see module Store).
 */
module Values {

  datatype Option<+T> = None | Some(value: T)

  /** The scalar values a document field, a JWT claim or a query parameter can hold.
      Python `int` and `float` are both `Num`; a `datetime` is `Time` (seconds since the epoch). */
  datatype Value = Null | Bool(b: bool) | Num(n: real) | Str(s: string) | Time(seconds: int)

  type Doc = map<string, Value>

  /** Python truthiness of a value (`if x:`). */
  predicate Truthy(v: Value) {
    match v
    case Null => false
    case Bool(b) => b
    case Num(n) => n != 0.0
    case Str(s) => s != ""
    case Time(_) => true
  }

  /** `d.get(key, default)`: the default is used only when the key is ABSENT, not when it holds null. */
  function Get(d: Doc, key: string, default: Value): Value {
    if key in d then d[key] else default
  }

  /** An HTTP error response: `HTTPException(status_code, detail)`. */
  datatype HttpError = HttpError(status: int, detail: string)

  /** The outcome of a route: a response value, or the error it raises. */
  datatype Result<+T> = Ok(value: T) | Err(error: HttpError)

  /** An exception the route does not catch; FastAPI answers 500. */
  const InternalError := HttpError(500, "Internal Server Error")
}
