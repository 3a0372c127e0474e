/** The slice of Python semantics the token authentication code observes:
    JSON-shaped values with Python truth testing, subscripting a decoded
    payload by a string key, and the exceptions the code can raise. */
module Python {

  /** An optional value, for arguments that may be `None`. */
  datatype Option<+T> = None | Some(value: T)

  /** A Python value as produced by decoding JSON (floats are not modelled). */
  datatype Value =
    | NoneValue
    | Bool(b: bool)
    | Int(i: int)
    | Str(s: string)
    | List(items: seq<Value>)
    | Dict(entries: map<string, Value>)

  /** Python truth testing, as `if x:` and `not x` apply it. */
  predicate Truthy(v: Value)
  {
    match v
    case NoneValue => false
    case Bool(b) => b
    case Int(i) => i != 0
    case Str(s) => s != ""
    case List(items) => |items| > 0
    case Dict(entries) => |entries| > 0
  }

  /** Truth testing of an argument that is either `None` or a string. */
  predicate Present(s: Option<string>)
  {
    s.Some? && s.value != ""
  }

  /** The exception classes the modelled code raises. */
  datatype Exception = KeyError | TypeError | AttributeError | NotImplementedError

  /** A call that either returns a value or raises. */
  datatype Result<+T> = Ok(value: T) | Raised(error: Exception)

  /** `x[key]` for a string key: a dict lookup, a `KeyError` when the dict
      lacks the key, a `TypeError` when `x` is not a dict at all. */
  function GetItem(x: Value, key: string): (r: Result<Value>)
    ensures r.Ok? <==> x.Dict? && key in x.entries
    ensures r.Ok? ==> r.value == x.entries[key]
    ensures r.Raised? ==> (r.error == KeyError <==> x.Dict?)
    ensures r.Raised? ==> r.error in {KeyError, TypeError}
  {
    match x
    case Dict(m) => if key in m then Ok(m[key]) else Raised(KeyError)
    case _ => Raised(TypeError)
  }
}
