/** Decoded JSON values as Python sees them after `json.loads`, with the
    truthiness and `dict.get` rules the oracle-output parsers rely on.
    The decoder itself is not modelled: callers receive it as a function. */
module Json {
  import opened Common

  datatype Json =
    | JNull
    | JBool(b: bool)
    | JInt(i: int)
    | JReal(r: real)
    | JStr(s: string)
    | JList(items: seq<Json>)
    | JObj(fields: map<string, Json>)

  /** Python's `bool(value)`. */
  predicate Truthy(j: Json) {
    match j
    case JNull => false
    case JBool(b) => b
    case JInt(i) => i != 0
    case JReal(r) => r != 0.0
    case JStr(s) => |s| > 0
    case JList(items) => |items| > 0
    case JObj(fields) => |fields| > 0
  }

  /** `d.get(key)`: the stored value, or None when the key is absent. */
  function Get(fields: map<string, Json>, key: string): Json {
    if key in fields then fields[key] else JNull
  }

  /** `value or fallback`. */
  function Or(j: Json, fallback: Json): (r: Json)
    ensures Truthy(j) ==> r == j
    ensures !Truthy(j) ==> r == fallback
  {
    if Truthy(j) then j else fallback
  }

  /** `isinstance(value, int)` and the integer it denotes: a JSON boolean is
      a Python `bool`, which is an `int` subclass (True is 1, False is 0). */
  function AsInt(j: Json): Option<int> {
    match j
    case JInt(i) => Some(i)
    case JBool(b) => Some(if b then 1 else 0)
    case _ => None
  }
}
