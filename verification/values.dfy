/** JavaScript values as the two stores handle them: the fields of inventory rows,
    of authenticated users and of update payloads. */
module JsValues {

  /** `null`/`undefined` versus a present value. */
  datatype Option<+T> = None | Some(value: T)

  /** A JavaScript value stored in an object field. Numbers are integers here:
      every number the stores compare is a row id. */
  datatype Value = Undefined | Null | Bool(b: bool) | Num(n: int) | Str(s: string)

  /** A plain object: its own properties. A key that is absent reads as `undefined`. */
  type Object = map<string, Value>

  /** Property access `o.key`. */
  function Get(o: Object, key: string): Value
  {
    if key in o then o[key] else Undefined
  }

  /** JavaScript truthiness: `undefined`, `null`, `false`, `0` and `""` are falsy. */
  predicate Truthy(v: Value)
    ensures Truthy(v) ==> !v.Undefined? && !v.Null?
    ensures v.Str? ==> (Truthy(v) <==> |v.s| > 0)
  {
    match v
    case Undefined => false
    case Null => false
    case Bool(b) => b
    case Num(n) => n != 0
    case Str(s) => s != ""
  }
}
