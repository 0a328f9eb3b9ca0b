/** Decoded JSON documents, as Python's json module hands them to the services,
    together with the two dictionary idioms the services rely on: `d.get(k, default)`
    and Python truthiness. */
module JsonDoc {

  /** A decoded JSON value. JSON objects become Python dicts (key order is not modelled). */
  datatype Json =
    | Null
    | Bool(b: bool)
    | Int(i: int)
    | Float(f: real)
    | Str(s: string)
    | Arr(items: seq<Json>)
    | Obj(fields: map<string, Json>)

  /** Python truthiness of a decoded value: None, False, 0, 0.0, "", [] and {} are false. */
  predicate Truthy(j: Json) {
    match j
    case Null => false
    case Bool(b) => b
    case Int(i) => i != 0
    case Float(f) => f != 0.0
    case Str(s) => s != []
    case Arr(items) => items != []
    case Obj(fields) => fields != map[]
  }

  /** `d.get(key, default)` on a dict. */
  function GetOr(fields: map<string, Json>, key: string, default: Json): Json {
    if key in fields then fields[key] else default
  }

  /** `d.get(key)`: a missing key reads as None. */
  function Get(fields: map<string, Json>, key: string): Json {
    GetOr(fields, key, Null)
  }

  /** True when `j` is a dict holding `key`, i.e. `j[key]` does not raise. */
  predicate Has(j: Json, key: string) {
    j.Obj? && key in j.fields
  }

  /** The empty dict `{}`. */
  const Empty: Json := Obj(map[])
}
