/** The dynamically typed tool arguments the adapter receives, with JavaScript's truthiness and `typeof`. */
module JsValues {

  /**
   * An argument value as a tool handler sees it. Numbers are integers here; `NaN` and
   * fractional numbers are not modelled. `Obj` stands for any object or array (always truthy).
   */
  datatype JsValue = Undefined | Null | Str(s: string) | Num(n: int) | Bool(b: bool) | Obj

  /** JavaScript truthiness: `undefined`, `null`, `""`, `0` and `false` are falsy. */
  predicate Truthy(v: JsValue) {
    match v
    case Undefined => false
    case Null => false
    case Str(s) => s != ""
    case Num(n) => n != 0
    case Bool(b) => b
    case Obj => true
  }

  /** Object destructuring with a default, `{ x = d } = args`: the default replaces only `undefined`. */
  function WithDefault(v: JsValue, d: JsValue): (r: JsValue)
    ensures v.Undefined? ==> r == d
    ensures !v.Undefined? ==> r == v
  {
    if v.Undefined? then d else v
  }

  /** The nullish-coalescing operator `v ?? d`: the default replaces `undefined` and `null`. */
  function Coalesce(v: JsValue, d: JsValue): (r: JsValue)
    ensures v.Undefined? || v.Null? ==> r == d
    ensures !(v.Undefined? || v.Null?) ==> r == v
  {
    if v.Undefined? || v.Null? then d else v
  }
}
