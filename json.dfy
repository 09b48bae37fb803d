/** A decoded JSON value, as the analyzers receive it from `json.load`, and Python's truthiness on it. */
module Json {

  /** JSON numbers are taken to be integers; floating point is not modelled. */
  datatype Value =
    | Null
    | Bool(b: bool)
    | Num(n: int)
    | Str(s: string)
    | Arr(items: seq<Value>)
    | Obj(fields: map<string, Value>)

  /** `bool(v)` in Python: `None`, `False`, `0`, `""`, `[]` and `{}` are false, everything else is true. */
  predicate Truthy(v: Value) {
    match v
    case Null => false
    case Bool(b) => b
    case Num(n) => n != 0
    case Str(s) => s != ""
    case Arr(items) => items != []
    case Obj(fields) => fields != map[]
  }
}
