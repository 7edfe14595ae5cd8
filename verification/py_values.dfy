/**
 * The JSON-like Python values that chat messages are made of: `None`, booleans,
 * numbers, strings, lists and dicts with string keys, together with the few
 * Python semantics the provider relies on (`dict.get`, truthiness, hashability).
 */
module PyValues {

  datatype Value =
    | VNone
    | VBool(b: bool)
    | VInt(i: int)
    | VFloat(f: real)
    | VStr(s: string)
    | VList(items: seq<Value>)
    | VDict(entries: map<string, Value>)

  /** A Python dict with string keys. */
  type Dict = map<string, Value>

  /** A Python `TypeError`, carrying the text `str(e)` would give. */
  datatype TypeError = TypeError(message: string)

  /** `d.get(key)`: the value stored under `key`, or `None` when the key is absent. */
  function Get(d: Dict, key: string): Value {
    if key in d then d[key] else VNone
  }

  /** `bool(v)`: `None`, `False`, zero and empty containers are falsy. */
  predicate Truthy(v: Value) {
    match v
    case VNone => false
    case VBool(b) => b
    case VInt(i) => i != 0
    case VFloat(f) => f != 0.0
    case VStr(s) => s != ""
    case VList(xs) => xs != []
    case VDict(m) => m != map[]
  }

  /** Lists and dicts cannot be hashed, so testing them for membership in a set raises. */
  predicate Hashable(v: Value) {
    !(v.VList? || v.VDict?)
  }

  /** `type(v).__name__` */
  function TypeName(v: Value): string {
    match v
    case VNone => "NoneType"
    case VBool(_) => "bool"
    case VInt(_) => "int"
    case VFloat(_) => "float"
    case VStr(_) => "str"
    case VList(_) => "list"
    case VDict(_) => "dict"
  }

  /** The error raised when `v in {...}` has to hash an unhashable `v`. */
  function UnhashableType(v: Value): TypeError {
    TypeError("unhashable type: '" + TypeName(v) + "'")
  }
}
