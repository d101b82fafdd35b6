/**
 * The dynamically typed values that arrive in request bodies and in the task
 * objects the client receives. Numbers are integers: fractional numbers and NaN
 * play no part in the comparisons of the core.
 */
module JsValue {

  datatype Value =
    | Undefined
    | Null
    | Bool(b: bool)
    | Num(n: int)
    | Str(s: string)
    | Object  // any object or array

  /** JavaScript's truthiness: `false`, `0`, `""`, `null` and `undefined` are falsy. */
  predicate Truthy(v: Value) {
    match v
    case Undefined => false
    case Null => false
    case Bool(b) => b
    case Num(n) => n != 0
    case Str(s) => s != ""
    case Object => true
  }
}
