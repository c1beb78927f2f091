/** JavaScript numbers as the isochrone code uses them.
    A finite double is modelled by the exact real it denotes; the three
    non-finite values are kept apart because the code tests for them
    (`Number.isFinite`) and because every comparison with NaN is false. */
module JsNumber {

  datatype Num = Fin(v: real) | NaN | PosInf | NegInf

  /** `Number.isFinite(x)` */
  predicate IsFinite(x: Num) {
    x.Fin?
  }

  /** `x > c` for a finite constant `c` */
  predicate Above(x: Num, c: real) {
    match x
    case Fin(v) => v > c
    case PosInf => true
    case _ => false
  }

  /** `x < c` for a finite constant `c` */
  predicate Below(x: Num, c: real) {
    match x
    case Fin(v) => v < c
    case NegInf => true
    case _ => false
  }

  /** `x >= c` for a finite constant `c` */
  predicate AtLeast(x: Num, c: real) {
    match x
    case Fin(v) => v >= c
    case PosInf => true
    case _ => false
  }

  /** `x <= c` for a finite constant `c` */
  predicate AtMost(x: Num, c: real) {
    match x
    case Fin(v) => v <= c
    case NegInf => true
    case _ => false
  }

  /** `x === y`: strict equality, under which NaN equals nothing */
  predicate StrictEquals(x: Num, y: Num) {
    x == y && !x.NaN?
  }

  /** `x + c` for a finite `c` */
  function Plus(x: Num, c: real): (r: Num)
    ensures IsFinite(r) <==> IsFinite(x)
    ensures x.Fin? ==> r.v == x.v + c
  {
    match x
    case Fin(v) => Fin(v + c)
    case _ => x
  }

  /** `x * c` for a finite positive `c` */
  function Times(x: Num, c: real): (r: Num)
    requires c > 0.0
    ensures IsFinite(r) <==> IsFinite(x)
    ensures x.Fin? ==> r.v == x.v * c
  {
    match x
    case Fin(v) => Fin(v * c)
    case _ => x
  }

  /** `a / b` of two finite numbers: division by zero gives an infinity,
      or NaN for `0 / 0` */
  function Divide(a: real, b: real): (r: Num)
    ensures IsFinite(r) <==> b != 0.0
    ensures b != 0.0 ==> r == Fin(a / b)
  {
    if b != 0.0 then Fin(a / b)
    else if a > 0.0 then PosInf
    else if a < 0.0 then NegInf
    else NaN
  }

  /** `Math.min(c, x)` for a finite `c` */
  function MinWith(c: real, x: Num): (r: Num)
    ensures x.NaN? <==> r.NaN?
    ensures !x.NaN? ==> !Above(r, c) && (r == x || r == Fin(c))
  {
    match x
    case NaN => NaN
    case NegInf => NegInf
    case PosInf => Fin(c)
    case Fin(v) => if v < c then x else Fin(c)
  }

  /** `Math.max(c, x)` for a finite `c` */
  function MaxWith(c: real, x: Num): (r: Num)
    ensures x.NaN? <==> r.NaN?
    ensures !x.NaN? ==> !Below(r, c) && (r == x || r == Fin(c))
  {
    match x
    case NaN => NaN
    case PosInf => PosInf
    case NegInf => Fin(c)
    case Fin(v) => if v > c then x else Fin(c)
  }
}
