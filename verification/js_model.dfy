/**
 * The few JavaScript notions the library's logic depends on: the kinds of
 * value a caller can pass, `typeof`, truthiness and own-property reads,
 * together with the dispatcher's tokens and the library's error kinds.
 */
module JsModel {

  /** A JavaScript value as far as the library inspects it. Numbers are
      modelled as integers; an array is an object whose keys are indices. */
  datatype Value =
    | Undefined
    | Null
    | Bool(b: bool)
    | Num(n: int)
    | Str(s: string)
    | Obj(props: map<string, Value>)
    | Fn(id: nat)   // a function, known only by its identity

  /** `typeof v` */
  function TypeOf(v: Value): string
  {
    match v
    case Undefined => "undefined"
    case Null => "object"
    case Bool(_) => "boolean"
    case Num(_) => "number"
    case Str(_) => "string"
    case Obj(_) => "object"
    case Fn(_) => "function"
  }

  /** Reading a property of `undefined` or `null` throws a TypeError. */
  predicate Nullish(v: Value)
  {
    v.Undefined? || v.Null?
  }

  /** JavaScript truthiness (NaN is not modelled). */
  predicate Truthy(v: Value)
  {
    match v
    case Undefined => false
    case Null => false
    case Bool(b) => b
    case Num(n) => n != 0
    case Str(s) => s != ""
    case Obj(_) => true
    case Fn(_) => true
  }

  /** `v[key]` for a value that is not nullish: an own property of an object,
      `undefined` otherwise (inherited properties are not modelled). */
  function Prop(v: Value, key: string): Value
    requires !Nullish(v)
  {
    if v.Obj? && key in v.props then v.props[key] else Undefined
  }

  /** The object literal `{type: type, data: data}`. */
  function ActionObject(typ: Value, data: Value): Value
  {
    Obj(map["type" := typ, "data" := data])
  }

  /** A dispatcher token: the string "ID_" followed by the decimal digits of `n`. */
  datatype Token = Token(n: nat)

  /** The exceptions the library raises, by kind. */
  datatype Error =
    | NotDispatching              // waitFor outside a dispatch
    | CircularDependency(id: Token)
    | UnknownToken(id: Token)     // waitFor or unregister of an unregistered token
    | AlreadyDispatching          // dispatch inside a dispatch
    | CallbackThrew(id: Token)    // a registered callback raised its own exception
    | InvalidAction               // "type must be string or object"
    | InvalidListener             // "Callback must be a function"
    | InvalidReducer              // "first argument must be object or function"
    | TypeError                   // a property read on null or undefined

  datatype Result<T> = Ok(value: T) | Err(error: Error)

  /** The end of a call that returns nothing: normal return or an exception. */
  datatype Outcome = Pass | Fail(error: Error)

  datatype Option<T> = None | Some(value: T)

  /** What a reducer returned, relative to the state it was given: that very
      reference (`Same`), or some other value. */
  datatype Reduced<S> = Same | New(state: S)

  /** Objects and functions are compared by reference by `===`. */
  predicate IsReference(v: Value)
  {
    v.Obj? || v.Fn?
  }

  /** `current !== result`, where `result` is what a reducer returned when
      given `current`: a reference other than `current` always differs, a
      primitive differs when its value does. */
  predicate Differs(current: Value, r: Reduced<Value>)
  {
    r.New? && (IsReference(r.state) || r.state != current)
  }
}
