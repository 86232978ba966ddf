/** Numeric helpers: the C++ float-to-int conversion and the mathematical
    library functions the renderer calls, which the model takes as given. */
module Numeric {
  /** `(int)r` for a C++ float: the fraction is discarded, rounding toward
      zero (so `Trunc(-0.5) == 0`, unlike `Floor`). */
  function Trunc(r: real): (n: int)
    ensures 0.0 <= r ==> 0 <= n && n as real <= r < n as real + 1.0
    ensures r < 0.0 ==> n <= 0 && n as real - 1.0 < r <= n as real
  {
    if r >= 0.0 then r.Floor else -((-r).Floor)
  }

  /** A truncated coordinate lies in `[0, n)` exactly when the real one lies
      in `(-1, n)`: values just below zero still truncate to cell 0. */
  lemma TruncInRange(r: real, n: nat)
    requires 0 < n
    ensures 0 <= Trunc(r) < n <==> -1.0 < r < n as real
  {
    var t := Trunc(r);
    if r < 0.0 {
      assert -1.0 < r ==> r <= t as real && t as real > -1.0;
    } else {
      assert t < n <==> (t + 1) as real <= n as real;
    }
  }

  /** Truncation is monotone. */
  lemma TruncMonotone(r1: real, r2: real)
    requires r1 <= r2
    ensures Trunc(r1) <= Trunc(r2)
  {
  }

  /** `sinf`, `cosf`, `sqrt` and `acos` as the program sees them. The
      general contracts assume no property of them; only the first-frame
      scenario `Composer.StartCentreColumn` takes `sin 0 = 0` and
      `cos 0 = 1` as hypotheses, and `RayCaster.CornerNaNAtPlayer` that
      `sqrt` is zero only at zero. */
  datatype Maths = Maths(sin: real -> real, cos: real -> real, sqrt: real -> real, acos: real -> real)
}
