/**
 * The JavaScript values that cross the boundary between the token authority,
 * the intent dispatcher and the device registry: `undefined` as an Option,
 * JSON documents as `Value`, and JavaScript truthiness, on which most of the
 * dispatcher's guards (`if (!x)`) depend.
 */
module Js {

  /** `None` stands for a property that is `undefined` (absent). */
  datatype Option<+T> = None | Some(value: T)

  /**
   * A JSON value. Numbers are integers: nothing in the modelled core does
   * arithmetic on a JSON number.
   */
  datatype Value =
    | Null
    | Bool(b: bool)
    | Num(n: int)
    | Str(s: string)
    | Arr(items: seq<Value>)
    | Obj(fields: map<string, Value>)

  /**
   * JavaScript truthiness of a JSON value: `null`, `false`, `0` and `""` are
   * falsy; every array and every object, even an empty one, is truthy.
   */
  predicate Truthy(v: Value)
  {
    match v
    case Null => false
    case Bool(b) => b
    case Num(n) => n != 0
    case Str(s) => s != ""
    case Arr(_) => true
    case Obj(_) => true
  }

  /** Truthiness of a property that may be `undefined`. */
  predicate TruthyOpt(v: Option<Value>)
  {
    v.Some? && Truthy(v.value)
  }

  /** Truthiness of a string that may be `undefined`. */
  predicate NonEmpty(s: Option<string>)
  {
    s.Some? && s.value != ""
  }
}
