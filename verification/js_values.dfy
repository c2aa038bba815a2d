/**
 The slice of JavaScript value semantics the request logger relies on:
 optional values, the three kinds of value that end up in a log row, the
 truthiness test behind `||` and `!!`, and string conversion as done by a
 template literal `${v}`.
 */
module JsValues {

  /** An optional value: a header, an environment variable or a lookup result that may be missing. */
  datatype Option<+T> = None | Some(value: T)

  /** The JavaScript values a log row can hold. */
  datatype JsValue = Undefined | Bool(b: bool) | Str(s: string)

  /** JavaScript truthiness: `undefined`, `false` and `''` are falsy, everything else is truthy. */
  predicate Truthy(v: JsValue) {
    match v
    case Undefined => false
    case Bool(b) => b
    case Str(s) => s != ""
  }

  /** The expression `a || b`: `a` when it is truthy, otherwise `b` (whatever `b` is). */
  function Or(a: JsValue, b: JsValue): JsValue {
    if Truthy(a) then a else b
  }

  /** Reading a property or header that may be missing: a missing one reads as `undefined`. */
  function Read(o: Option<string>): (v: JsValue)
    ensures v != Undefined <==> o.Some?
    ensures Truthy(v) <==> o.Some? && o.value != ""
  {
    match o
    case None => Undefined
    case Some(s) => Str(s)
  }

  /** String conversion, as a template literal `${v}` performs it. */
  function ToJsString(v: JsValue): string {
    match v
    case Undefined => "undefined"
    case Bool(b) => if b then "true" else "false"
    case Str(s) => s
  }
}
