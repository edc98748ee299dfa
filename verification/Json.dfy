/** JSON trees as `serde_json::Value` holds them, and its read accessors. */
module Json {
  import opened Common

  /** `serde_json::Number`: only `PosInt` answers `as_u64`. */
  datatype Number = PosInt(u: u64) | NegInt(i: int) | Float(r: real)

  datatype Value =
    | Null
    | Bool(b: bool)
    | Num(n: Number)
    | String(s: string)
    | Array(elems: seq<Value>)
    | Object(fields: map<string, Value>)

  /** `Value::get` with a string key. */
  function Get(v: Value, key: string): Option<Value> {
    if v.Object? && key in v.fields then Some(v.fields[key]) else None
  }

  /** `v.get(key).and_then(Value::as_str)`. */
  function GetStr(v: Value, key: string): Option<string> {
    match Get(v, key)
    case Some(String(s)) => Some(s)
    case _ => None
  }

  /** `v.get(key).and_then(Value::as_array)`. */
  function GetArray(v: Value, key: string): Option<seq<Value>> {
    match Get(v, key)
    case Some(Array(a)) => Some(a)
    case _ => None
  }

  function NumericValue(n: Number): real {
    match n
    case PosInt(u) => u as real
    case NegInt(i) => i as real
    case Float(r) => r
  }

  /** No null occurs anywhere inside the instance. */
  predicate NullFree(x: Value) {
    match x
    case Null => false
    case Array(elems) => forall i | 0 <= i < |elems| :: NullFree(elems[i])
    case Object(fields) => forall k | k in fields :: NullFree(fields[k])
    case _ => true
  }
}
