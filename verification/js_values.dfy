/**
  The fragment of JavaScript's value semantics that the row cleaner relies on:
  the dynamically typed values a JSON API can hand back, truthiness (which
  drives `||` and `?:`), and property access, including optional chaining.
 */
module JsValues {

  /**
    A JavaScript value. Numbers are real-valued, with NaN kept apart because it
    is the one falsy number besides zero (negative zero is folded into `0.0`).
    Objects list their properties in insertion order, so two objects with the
    same bindings in different orders stay distinct and may serialise
    differently (`JSON.stringify` writes integer-like keys first, in ascending
    order, then the others in insertion order; as the serialiser is opaque,
    neither order is fixed here). Arrays hold their elements in order.
   */
  datatype JsValue =
    | Undefined
    | Null
    | Bool(b: bool)
    | Num(n: real)
    | NaN
    | Str(s: string)
    | Arr(elems: seq<JsValue>)
    | Obj(props: seq<(string, JsValue)>)

  /** `null` and `undefined`: the values whose property access throws a TypeError. */
  predicate Nullish(v: JsValue) {
    v.Undefined? || v.Null?
  }

  /**
    JavaScript's ToBoolean: `undefined`, `null`, `false`, `0`, `NaN` and `''`
    are falsy; every other value, including every object and array, is truthy.
   */
  predicate Truthy(v: JsValue) {
    match v
    case Undefined => false
    case Null => false
    case Bool(b) => b
    case Num(n) => n != 0.0
    case NaN => false
    case Str(s) => |s| > 0
    case Arr(_) => true
    case Obj(_) => true
  }

  /**
    `a || b`: the left operand itself when it is truthy, otherwise the right
    operand; never a coerced boolean.
   */
  function Or(a: JsValue, b: JsValue): JsValue {
    if Truthy(a) then a else b
  }

  /**
    `v?.key` (and `v.key` on a value that is not nullish): the own property of
    an object, and `undefined` for a missing property, for a primitive or an
    array (none of the property names the cleaner reads is inherited), and for
    a nullish receiver under optional chaining.
   */
  function Member(v: JsValue, key: string): JsValue {
    if v.Obj? then Lookup(v.props, key) else Undefined
  }

  /**
    The value bound to `key` in a property list: its last binding (as when
    `JSON.parse` meets a repeated key), and `undefined` when there is none.
   */
  function Lookup(props: seq<(string, JsValue)>, key: string): JsValue {
    if |props| == 0 then Undefined
    else if props[|props| - 1].0 == key then props[|props| - 1].1
    else Lookup(props[..|props| - 1], key)
  }
}
