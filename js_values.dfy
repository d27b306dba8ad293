/**
 * The few JavaScript semantics the shader utilities rely on: dynamically
 * typed values, truthiness, the `||` operator and thrown exceptions.
 */
module JsValues {

  /**
   * A JavaScript value as the model sees it. Objects, arrays and GPU handles
   * are references, told apart by their identity only.
   */
  datatype JsValue =
    | Undefined
    | Null
    | Boolean(b: bool)
    | Num(n: real)
    | NaN
    | Str(s: string)
    | Ref(id: nat)

  /** ToBoolean (section 7.1.2 of ECMA-262): the values `if`, `&&` and `||` treat as true. */
  predicate Truthy(v: JsValue)
  {
    match v
    case Undefined => false
    case Null => false
    case Boolean(b) => b
    case Num(n) => n != 0.0
    case NaN => false
    case Str(s) => s != ""
    case Ref(_) => true
  }

  /** `a || b`: `a` itself when it is truthy, otherwise `b`. */
  function Or(a: JsValue, b: JsValue): JsValue
  {
    if Truthy(a) then a else b
  }

  /** What a statement throws. */
  datatype Exception =
    | TypeError          // a property read on `undefined` or `null`
    | Thrown(value: string)  // `throw value` with a string
}
