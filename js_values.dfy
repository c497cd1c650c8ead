/** The slice of JavaScript's value semantics that the middleware and the
    product routes rely on: truthiness (`!x`, `x || d`), strict equality
    (`===`, `!==`) and property reads on plain objects. */
module JsValues {

  datatype Option<+T> = None | Some(value: T)

  /** A JavaScript value as the handlers see it. Numbers are the integral
      ones (the handlers only ever compare or default them); `Object` stands
      for any non-primitive value (array, map, timestamp), identified by its
      reference. */
  datatype Value =
    | Undefined
    | Null
    | Bool(b: bool)
    | Num(n: int)
    | NaN
    | Str(s: string)
    | Object(ref: nat)

  /** A plain object whose keys the code reads: a missing key reads as
      `undefined`. */
  type Obj = map<string, Value>

  /** JavaScript truthiness: `undefined`, `null`, `false`, `0`, `NaN` and the
      empty string are falsy, everything else is truthy. */
  predicate Truthy(v: Value)
  {
    match v
    case Undefined => false
    case Null => false
    case Bool(b) => b
    case Num(n) => n != 0
    case NaN => false
    case Str(s) => s != ""
    case Object(_) => true
  }

  /** `a || b` evaluates to `a` when `a` is truthy, otherwise to `b`. */
  function Or(a: Value, b: Value): Value
  {
    if Truthy(a) then a else b
  }

  /** `a === b`: `NaN` equals nothing, not even itself; every other value is
      equal exactly to the same primitive, or to the same object reference. */
  predicate StrictEq(a: Value, b: Value)
  {
    !a.NaN? && !b.NaN? && a == b
  }

  /** `o.key` on a plain object. */
  function Get(o: Obj, key: string): Value
  {
    if key in o then o[key] else Undefined
  }
}
