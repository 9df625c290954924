/** The JavaScript values the application's records hold, and how a value
    reads as a condition. */
module JsValues {
  datatype Value =
    | Undefined
    | Null
    | Bool(b: bool)
    | Num(n: real)
    | Str(s: string)
    | Obj(fields: map<string, Value>)

  /** How a value reads in `if (v)`, `!v` and `a && b`: missing values,
      `false`, zero and the empty string are false, everything else true.
      NaN is not modelled. */
  predicate Truthy(v: Value) {
    match v
    case Undefined => false
    case Null => false
    case Bool(b) => b
    case Num(n) => n != 0.0
    case Str(s) => s != ""
    case Obj(_) => true
  }

  /** A property read: `o[key]`, `undefined` when the key is absent. */
  function Get(o: map<string, Value>, key: string): (r: Value)
    ensures key !in o ==> r == Undefined
  {
    if key in o then o[key] else Undefined
  }

  /** `{ ...a, ...b }`: every key of either, `b`'s value where both have it. */
  function Spread(a: map<string, Value>, b: map<string, Value>): (r: map<string, Value>)
    ensures r.Keys == a.Keys + b.Keys
    ensures forall k :: k in b ==> r[k] == b[k]
    ensures forall k :: k in a && k !in b ==> r[k] == a[k]
  {
    a + b
  }
}
