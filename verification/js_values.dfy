/**
 The JavaScript values the client looks at, reduced to the distinctions the
 lodash type tests and JavaScript truthiness make.
 */
module JsValues {

  /** A slot that holds `null` or a value, such as the `response` local. */
  datatype Option<+T> = None | Some(value: T)

  /** A function value; `LodashNoop` is the shared `_.noop`. */
  datatype Fn = LodashNoop | UserFn(id: nat)

  /** A JavaScript value. `Object` is a plain object (prototype
      `Object.prototype` or `null`); `Instance` is an object built by any
      other constructor. Numbers are integers here. */
  datatype Js =
    | Undefined
    | Null
    | Bool(b: bool)
    | Num(n: int)
    | Str(s: string)
    | Function(fn: Fn)
    | Array(items: seq<Js>)
    | Object(fields: map<string, Js>)
    | Instance(cls: string, fields: map<string, Js>)

  /** `_.isFunction`. */
  predicate IsFunction(v: Js) {
    v.Function?
  }

  /** `_.isPlainObject`: arrays, functions and class instances are not plain. */
  predicate IsPlainObject(v: Js) {
    v.Object?
  }

  /** JavaScript truthiness, as used by `if (err)`. */
  predicate Truthy(v: Js) {
    match v
    case Undefined => false
    case Null => false
    case Bool(b) => b
    case Num(n) => n != 0
    case Str(s) => s != ""
    case _ => true
  }
}
