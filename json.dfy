/**
 * Decoded JSON values as `json.loads` produces them, together with the few
 * pieces of Python semantics the client relies on: `dict.get`, truthiness
 * and how a decoded value behaves when it is looked up in a dict with int keys.
 */
module Json {

  datatype Value =
    | Null
    | Bool(b: bool)
    | Int(i: int)
    | Float(r: real)
    | Str(s: string)
    | List(items: seq<Value>)
    | Dict(fields: map<string, Value>)

  /** `d.get(key)`: the value under `key`, or `None` when the key is absent. */
  function Get(fields: map<string, Value>, key: string): Value
  {
    if key in fields then fields[key] else Null
  }

  /** Python truthiness of a decoded value (`if x:`). */
  predicate Truthy(v: Value)
  {
    match v
    case Null => false
    case Bool(b) => b
    case Int(i) => i != 0
    case Float(r) => r != 0.0
    case Str(s) => s != ""
    case List(items) => items != []
    case Dict(fields) => fields != map[]
  }

  /** What `v in d` does when every key of `d` is an int. */
  datatype IntKey =
    | Key(k: int)   // hashes and compares like the int k (True is 1, 2.0 is 2)
    | NoMatch       // hashable, but equal to no int
    | Unhashable    // a list or dict: the lookup raises TypeError

  function AsIntKey(v: Value): (key: IntKey)
    ensures v.Int? ==> key == Key(v.i)
    ensures key.Unhashable? <==> v.List? || v.Dict?
  {
    match v
    case Bool(b) => Key(if b then 1 else 0)
    case Int(i) => Key(i)
    case Float(r) => if r.Floor as real == r then Key(r.Floor) else NoMatch
    case List(_) => Unhashable
    case Dict(_) => Unhashable
    case _ => NoMatch
  }
}
