/**
 Go's `float64`, as far as the retry multiplier needs it: a finite value is a real number,
 arithmetic rounds, and the three values that are not numbers one can compute with are kept.
 */
module Float64 {
  import Int64

  datatype Float = NaN | PosInf | NegInf | Finite(r: real)

  /** Go's `x < y` on floats: false as soon as either side is NaN. */
  predicate Less(x: Float, y: Float) {
    match (x, y)
    case (NaN, _) => false
    case (_, NaN) => false
    case (NegInf, _) => !y.NegInf?
    case (_, PosInf) => !x.PosInf?
    case (Finite(a), Finite(b)) => a < b
    case _ => false
  }

  /**
   What the language leaves to the platform's floating-point unit: how a real number becomes a
   `float64`, and the result of converting a value that is no `int64`.
   */
  datatype Platform = Platform(round: real -> real, unspecified: int) {

    /** All that is asked of the rounding: it keeps the order and zero. */
    ghost predicate Rounds() {
      && (forall x: real, y: real :: x <= y ==> round(x) <= round(y))
      && round(0.0) == 0.0
    }

    /** No rounding at all. */
    ghost predicate Exact() { forall x: real :: round(x) == x }
  }

  function Scale(x: real, r: real): real { x * r }

  /** `float64(w) * r`: both the conversion and the product are rounded. */
  function Product(p: Platform, w: int, r: real): real { p.round(Scale(p.round(w as real), r)) }

  /** `float64(w) * m`. */
  function Times(p: Platform, w: int, m: Float): Float {
    match m
    case NaN => NaN
    case Finite(r) => Finite(Product(p, w, r))
    case PosInf => if w > 0 then PosInf else if w < 0 then NegInf else NaN
    case NegInf => if w > 0 then NegInf else if w < 0 then PosInf else NaN
  }

  /** Conversion to an integer drops the fraction, towards zero. */
  function Truncate(r: real): int {
    if r >= 0.0 then r.Floor else -((-r).Floor)
  }

  predicate Convertible(x: Float) {
    x.Finite? && Int64.Fits(Truncate(x.r))
  }

  /**
   `int64(x)`. The Go specification leaves the result implementation-dependent when the
   value does not fit.
   */
  function ToInt64(p: Platform, x: Float): int {
    if Convertible(x) then Truncate(x.r) else p.unspecified
  }
}
