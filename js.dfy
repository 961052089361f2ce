/** JavaScript values as the session server stores and exchanges them. */
module Js {

  datatype Option<+T> = None | Some(value: T)

  /** A JSON-like JavaScript value. Numbers are integers here (timestamps, counters). */
  datatype Value =
    | Undefined
    | Null
    | Bool(b: bool)
    | Num(n: int)
    | Str(s: string)
    | Arr(elems: seq<Value>)
    | Obj(fields: map<string, Value>)

  /** A plain object: its own enumerable properties. Session records and payloads are objects. */
  type Record = map<string, Value>

  /** JavaScript truthiness (`if (v)`, `v || d`, `filter((s) => s.online)`). */
  predicate Truthy(v: Value) {
    match v
    case Undefined => false
    case Null => false
    case Bool(b) => b
    case Num(n) => n != 0
    case Str(s) => s != ""
    case Arr(_) => true
    case Obj(_) => true
  }

  /** `obj.key` on a record: a missing property reads as `undefined`. */
  function Get(r: Record, key: string): Value {
    if key in r then r[key] else Undefined
  }

  /** A string that may be absent (`undefined`) is truthy: present and non-empty. */
  predicate TruthyStr(o: Option<string>) {
    o.Some? && o.value != ""
  }
}
