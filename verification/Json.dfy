// Decoded JSON values, with the accessors the Python code uses.
module Json {

  datatype Json =
    | Null
    | Bool(b: bool)
    | Int(n: int)
    | Float(x: real)
    | Str(s: string)
    | Arr(items: seq<Json>)
    | Obj(fields: map<string, Json>)

  type Fields = map<string, Json>

  // `dict.get(key)`: a missing key and a null value both give `Null`.
  function Get(o: Fields, key: string): Json {
    if key in o then o[key] else Null
  }

  function GetOr(o: Fields, key: string, default: Json): Json {
    if key in o then o[key] else default
  }

  // Python's `value == n` for a decoded value: booleans and floats compare as numbers.
  predicate EqualsInt(v: Json, n: int) {
    match v
    case Int(m) => m == n
    case Bool(b) => n == if b then 1 else 0
    case Float(x) => x == n as real
    case _ => false
  }
}
