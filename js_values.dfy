/**
 * JavaScript values as the TypeScript half inspects them: typeof, truthiness and
 * property access. Numbers are integers (fractions and NaN are not modelled
 * here; the Date computations that can give NaN model it themselves).
 */
module JsValues {
  import Wrappers
  import GoNumbers

  /** A JavaScript value; arrays and plain objects are both objects to typeof. */
  datatype JsValue =
    | Undefined
    | Null
    | Bool(b: bool)
    | Num(n: int)
    | Str(s: string)
    | Obj(fields: map<string, JsValue>)
    | Arr(items: seq<JsValue>)
    | Func

  /** The typeof operator. */
  function TypeOf(v: JsValue): (t: string)
    ensures t == "object" <==> v.Null? || v.Obj? || v.Arr?
  {
    match v
    case Undefined => "undefined"
    case Null => "object"
    case Bool(_) => "boolean"
    case Num(_) => "number"
    case Str(_) => "string"
    case Obj(_) => "object"
    case Arr(_) => "object"
    case Func => "function"
  }

  /** ToBoolean: undefined, null, false, 0 and "" are falsy, everything else truthy. */
  predicate Truthy(v: JsValue) {
    match v
    case Undefined => false
    case Null => false
    case Bool(b) => b
    case Num(n) => n != 0
    case Str(s) => s != ""
    case Obj(_) => true
    case Arr(_) => true
    case Func => true
  }

  /** Every object, array and function is truthy, even an empty one. */
  lemma ObjectsAreTruthy(v: JsValue)
    requires TypeOf(v) == "object" || TypeOf(v) == "function"
    ensures Truthy(v) <==> !v.Null?
  {
  }

  /** obj[key] for a named property: the field of a plain object, undefined everywhere else. */
  function Member(v: JsValue, key: string): (r: JsValue)
    ensures !v.Obj? ==> r == Undefined
    ensures v.Obj? && key !in v.fields ==> r == Undefined
  {
    if v.Obj? && key in v.fields then v.fields[key] else Undefined
  }

  /** A string value, or undefined for any other type: `typeof x === 'string' ? x : undefined`. */
  function StringOrUndefined(v: JsValue): (r: Wrappers.Option<string>)
    ensures r.Some? <==> v.Str?
    ensures r.Some? ==> r.value == v.s
  {
    if v.Str? then Wrappers.Some(v.s) else Wrappers.None
  }

  /** A JavaScript number as the computations here can produce it: an integer, or NaN. */
  datatype JsNumber = Finite(n: int) | NaN

  /** Math.max(x, floor): NaN when x is NaN. */
  function JsMax(x: JsNumber, floor: int): (r: JsNumber)
    ensures x.NaN? <==> r.NaN?
    ensures r.Finite? ==> r.n >= floor && r.n >= x.n && (r.n == x.n || r.n == floor)
  {
    match x
    case NaN => NaN
    case Finite(n) => Finite(if n > floor then n else floor)
  }

  /**
   * Number(text) for the texts modelled: the empty text is 0, an optionally
   * signed run of decimal digits is its value, anything else is NaN.
   */
  function NumberOfText(text: string): (r: JsNumber)
    ensures text == "" ==> r == Finite(0)
    ensures GoNumbers.AllDigits(text) ==> r == Finite(GoNumbers.DigitsValue(text))
  {
    if text == "" then Finite(0)
    else
      var negative := text[0] == '-';
      var digits := if text[0] == '-' || text[0] == '+' then text[1..] else text;
      if digits == "" || !GoNumbers.AllDigits(digits) then NaN
      else if negative then Finite(0 - GoNumbers.DigitsValue(digits) as int)
      else Finite(GoNumbers.DigitsValue(digits))
  }

  /** JavaScript multiplication of a number by an integer: NaN stays NaN. */
  function Times(x: JsNumber, k: int): (r: JsNumber)
    ensures x.NaN? <==> r.NaN?
    ensures x.Finite? ==> r == Finite(x.n * k)
  {
    match x
    case NaN => NaN
    case Finite(n) => Finite(n * k)
  }
}
