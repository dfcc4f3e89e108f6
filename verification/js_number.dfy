/**
  The few JavaScript number results the client can produce from integer
  arguments: `Math.floor(a / b)` is an integer unless `b` is zero, in which
  case it is `Infinity`, `-Infinity` or `NaN`; `toString()` and template
  interpolation render those as words.
 */
module JsNumber {

  import opened Text

  datatype Number = Finite(n: int) | PosInfinity | NegInfinity | NaN

  /** `Math.floor(a / b)` on integers: rounds toward negative infinity. */
  function FloorDiv(a: int, b: int): (r: Number)
    ensures b != 0 <==> r.Finite?
    ensures b > 0 ==> r.n * b <= a < r.n * b + b
    ensures b < 0 ==> r.n * b + b < a <= r.n * b
    ensures b == 0 ==> (r == PosInfinity <==> a > 0) && (r == NegInfinity <==> a < 0) && (r == NaN <==> a == 0)
  {
    if b > 0 then Finite(a / b)
    else if b < 0 then Finite((-a) / (-b))
    else if a > 0 then PosInfinity
    else if a < 0 then NegInfinity
    else NaN
  }

  /** `x + k` for an integer `k`: infinities and NaN absorb it. */
  function Add(x: Number, k: int): (r: Number)
    ensures x.Finite? <==> r.Finite?
    ensures x.Finite? ==> r.n == x.n + k
    ensures !x.Finite? ==> r == x
  {
    if x.Finite? then Finite(x.n + k) else x
  }

  /** `String(x)` */
  function ToString(x: Number): (r: string)
    ensures x.Finite? ==> r == IntToString(x.n)
    ensures x == PosInfinity ==> r == "Infinity"
  {
    match x
    case Finite(n) => IntToString(n)
    case PosInfinity => "Infinity"
    case NegInfinity => "-Infinity"
    case NaN => "NaN"
  }
}
