/** The JavaScript values that the training client receives from the server
    and passes around: parsed JSON plus `undefined`, with JavaScript's
    truthiness, `a || b`, and property access that throws on `null` and
    `undefined`. */
module JsValue {
  import opened Wrappers

  datatype Value =
    | Undefined
    | Null
    | Bool(b: bool)
    | Num(n: real)
    | Str(s: string)
    | Arr(items: seq<Value>)
    | Obj(props: map<string, Value>)

  /** JavaScript truthiness (a NaN number is not modelled). */
  predicate Truthy(v: Value) {
    match v
    case Undefined => false
    case Null => false
    case Bool(b) => b
    case Num(n) => n != 0.0
    case Str(s) => s != ""
    case Arr(_) => true
    case Obj(_) => true
  }

  /** `a || b`: the left operand when it is truthy, otherwise the right one. */
  function Or(a: Value, b: Value): (r: Value)
    ensures Truthy(a) ==> r == a
    ensures !Truthy(a) ==> r == b
  {
    if Truthy(a) then a else b
  }

  /** The `TypeError` raised by reading property `key` of `null` or `undefined`. */
  datatype TypeError = CannotReadProperty(base: Value, key: string)

  /** `v[key]`. Reading from `null` or `undefined` throws; a missing property of
      an object, and any named property of a primitive or array, reads as
      `undefined` (the keys used by the client are never built-in properties). */
  function Get(v: Value, key: string): (r: Result<Value, TypeError>)
    ensures r.Failure? <==> v == Undefined || v == Null
    ensures r.Failure? ==> r.error == CannotReadProperty(v, key)
    ensures v.Obj? && key in v.props ==> r == Success(v.props[key])
    ensures v.Obj? && key !in v.props ==> r == Success(Undefined)
    ensures !v.Obj? && r.Success? ==> r.value == Undefined
  {
    match v
    case Undefined => Failure(CannotReadProperty(v, key))
    case Null => Failure(CannotReadProperty(v, key))
    case Obj(props) => Success(if key in props then props[key] else Undefined)
    case _ => Success(Undefined)
  }
}
