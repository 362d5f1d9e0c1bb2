/**
 * JSON values as the JSON files of the program hold them, Python's truthiness of
 * those values, and the exceptions that can escape the modelled operations.
 */
module Values {

  /** A decoded JSON document: `null` is also Python's `None`. Floats are not modelled. */
  datatype Value =
    | Null
    | Bool(b: bool)
    | Int(i: int)
    | Str(s: string)
    | Array(items: seq<Value>)
    | Object(fields: map<string, Value>)

  /** Python's `bool(v)` on a decoded JSON value. */
  predicate Truthy(v: Value)
  {
    match v
    case Null => false
    case Bool(b) => b
    case Int(i) => i != 0
    case Str(s) => s != ""
    case Array(items) => items != []
    case Object(fields) => fields != map[]
  }

  /** `d.get(key, default)` on a JSON object held as a map. */
  function GetOr(m: map<string, Value>, key: string, default: Value): Value
  {
    if key in m then m[key] else default
  }

  /** The Python exceptions that the modelled operations let escape or catch. */
  datatype PyError =
    | KeyError
    | TypeError
    | AttributeError
    | IndexError
    | OSError
    | JSONDecodeError

  /** A value or Python's `None`. */
  datatype Option<+T> = None | Some(value: T)

  /** A Python call either returns a value or raises. */
  datatype Result<+T> = Ok(value: T) | Raised(error: PyError)

  /** The state of a JSON file on disk: missing, holding a document, or not parseable. */
  datatype JsonFile = Absent | Holds(content: Value) | Malformed
}
