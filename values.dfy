/** Shared value types: optional values, results with an error string, and the
    dynamically typed tree that YAML configuration files and JSON chat files
    decode to. */
module Values {
  import opened Text

  datatype Option<+T> = None | Some(value: T) {
    function GetOr(default: T): T {
      match this
      case Some(v) => v
      case None => default
    }
  }

  datatype Result<+T> = Ok(value: T) | Err(error: string)

  /** A decoded YAML/JSON document. Floating-point numbers are not represented. */
  datatype Value =
    | Null
    | Bool(b: bool)
    | Int(i: int)
    | Str(s: string)
    | List(items: seq<Value>)
    | Dict(entries: map<string, Value>)

  /** Python truthiness of a decoded value. */
  predicate Truthy(v: Value) {
    match v
    case Null => false
    case Bool(b) => b
    case Int(i) => i != 0
    case Str(s) => s != ""
    case List(items) => items != []
    case Dict(entries) => entries != map[]
  }

  /** `d.get(key, default)` on a dictionary. */
  function Get(d: map<string, Value>, key: string, default: Value): Value
  {
    if key in d then d[key] else default
  }

  /** Python's type name of a decoded value, as error messages print it. */
  function TypeName(v: Value): string {
    match v
    case Null => "NoneType"
    case Bool(_) => "bool"
    case Int(_) => "int"
    case Str(_) => "str"
    case List(_) => "list"
    case Dict(_) => "dict"
  }

  /** Python's `key in v` for the values where it does not raise: a key of a
      dictionary, an element of a list, a substring of a string. */
  predicate PyIn(key: string, v: Value) {
    match v
    case Dict(m) => key in m
    case List(items) => Str(key) in items
    case Str(s) => Contains(s, key)
    case _ => false
  }
}
