/**
  Helpers on real numbers shared by the minimisers and the interpolators, where C's
  `fabs` and `abs` on doubles are modelled.
 */
module Reals {

  /** The absolute value of a real: |x|. */
  function Abs(x: real): (r: real)
    ensures r >= 0.0 && (r == x || r == -x)
  {
    if x < 0.0 then -x else x
  }
}
