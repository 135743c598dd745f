/**
 * The JavaScript values that travel through the components as answers and
 * request bodies, with the language's truthiness rule.
 */
module JsValues {
  import opened Options

  /**
   * A JSON-like value. Numbers are integers (floating point and NaN are not
   * modelled); arrays hold strings, as checkbox answers do; a Date is its
   * time value; an object is observed only through its `address` property,
   * the one the location answers carry.
   */
  datatype Value =
    | Undefined
    | Null
    | Str(s: string)
    | Num(n: int)
    | Bool(b: bool)
    | Arr(items: seq<string>)
    | DateV(time: int)
    | Obj(address: Option<string>)

  /** JavaScript's `!!v`. */
  predicate Truthy(v: Value) {
    match v
    case Undefined => false
    case Null => false
    case Str(s) => s != ""
    case Num(n) => n != 0
    case Bool(b) => b
    case _ => true
  }

  /** `typeof v === 'object' && v !== null`. */
  predicate IsObject(v: Value) {
    v.Arr? || v.DateV? || v.Obj?
  }

  /** A submission's answers, keyed by field id. */
  type Answers = map<string, Value>

  /** `answers[key]`: `undefined` when the key is absent. */
  function Lookup(answers: Answers, key: string): Value {
    if key in answers then answers[key] else Undefined
  }

  /** `s || fallback` for an optional string property. */
  function OrElse(s: Option<string>, fallback: string): (r: string)
    ensures s.Some? && s.value != "" ==> r == s.value
    ensures s.None? || s.value == "" ==> r == fallback
  {
    if s.Some? && s.value != "" then s.value else fallback
  }
}
