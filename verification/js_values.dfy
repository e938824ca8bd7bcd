/** The JavaScript values that the legacy facade inspects and forwards.
    Numbers are integers; objects (plain objects, arrays and functions) carry
    their own enumerable properties, which is all the facade reads or writes. */
module JsValues {

  /** Identity of a function value: one the application supplied, or the
      empty callback `function(id) {}` that the facade creates itself. */
  datatype FnRef = Supplied(id: nat) | EmptyCallback

  datatype ObjectKind =
    | Plain
    | ArrayOf(elements: seq<JsValue>)
    | Callable(ref: FnRef)

  datatype JsValue =
    | Undefined
    | Null
    | Bool(b: bool)
    | Num(n: int)
    | Str(s: string)
    | Obj(kind: ObjectKind, props: map<string, JsValue>)

  /** The object literal `{}`. */
  const EmptyObject: JsValue := Obj(Plain, map[])

  /** The array literal `[]`. */
  const EmptyArray: JsValue := Obj(ArrayOf([]), map[])

  /** The no-op callback `function(id) {}`. */
  const EmptyCallbackFn: JsValue := Obj(Callable(EmptyCallback), map[])

  /** The `typeof` operator. */
  function TypeOf(v: JsValue): string
  {
    match v
    case Undefined => "undefined"
    case Null => "object"
    case Bool(_) => "boolean"
    case Num(_) => "number"
    case Str(_) => "string"
    case Obj(kind, _) => if kind.Callable? then "function" else "object"
  }

  /** `typeof v === 'function'`. */
  predicate IsFunction(v: JsValue)
  {
    TypeOf(v) == "function"
  }

  /** JavaScript truthiness: `!v` is false. */
  predicate Truthy(v: JsValue)
  {
    match v
    case Undefined => false
    case Null => false
    case Bool(b) => b
    case Num(n) => n != 0
    case Str(s) => s != ""
    case Obj(_, _) => true
  }

  /** Property read `v.key`: an own property of an object, otherwise undefined. */
  function Get(v: JsValue, key: string): JsValue
  {
    if v.Obj? && key in v.props then v.props[key] else Undefined
  }

  /** `v === undefined ? d : v`, the defaulting idiom of the facade. */
  function ValueOr(v: JsValue, d: JsValue): (r: JsValue)
    ensures v != Undefined ==> r == v
    ensures v == Undefined ==> r == d
    ensures d != Undefined ==> r != Undefined
  {
    if v == Undefined then d else v
  }
}
