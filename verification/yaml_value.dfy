/**
 * The values that `yaml.safe_load` produces for a cluster descriptor file,
 * and the two pieces of Python behaviour the loader relies on: truthiness
 * (`if not x`) and `dict.get(key)` with its `None` default.
 */
module Yaml {

  /** A parsed YAML node: `None`, a bool, an int, a str, a list or a dict with string keys. */
  datatype Value =
    | Null
    | Bool(b: bool)
    | Int(i: int)
    | Str(s: string)
    | List(items: seq<Value>)
    | Dict(fields: map<string, Value>)

  /** Python truthiness: `None`, `False`, `0`, `""`, `[]` and `{}` are false, everything else is true. */
  predicate Truthy(v: Value) {
    match v
    case Null => false
    case Bool(b) => b
    case Int(i) => i != 0
    case Str(s) => s != ""
    case List(items) => items != []
    case Dict(fields) => fields != map[]
  }

  /** `d.get(key)`: the value stored under `key`, or `None` when there is none. */
  function Get(d: map<string, Value>, key: string): Value {
    if key in d then d[key] else Null
  }
}
