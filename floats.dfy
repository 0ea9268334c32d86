/**
 * Python floats as the insight and record code sees them: a finite value or
 * NaN (pandas' marker for a missing cell). Infinities are not modelled.
 */
module Floats {

  datatype Float = NaN | Fin(value: real)

  /** `x if not pd.isna(x) else 0.0` */
  function OrZero(x: Float): (r: real)
    ensures x.Fin? ==> r == x.value
    ensures x.NaN? ==> r == 0.0
  {
    match x
    case Fin(v) => v
    case NaN => 0.0
  }

  /** Python's `int(x)` on a finite float: truncation toward zero. */
  function Truncate(x: real): (r: int)
    ensures 0.0 <= x ==> r as real <= x < r as real + 1.0
    ensures x < 0.0 ==> r as real - 1.0 < x <= r as real
  {
    if 0.0 <= x then x.Floor else -((-x).Floor)
  }

  /** Truncation never moves away from zero and keeps the sign. */
  lemma TruncateTowardZero(x: real)
    ensures 0.0 <= x ==> 0 <= Truncate(x)
    ensures x <= 0.0 ==> Truncate(x) <= 0
    ensures -1.0 < x < 1.0 ==> Truncate(x) == 0
  {
  }
}
