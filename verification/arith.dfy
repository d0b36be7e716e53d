/** Cancelling a positive factor from both sides of an inequality, the one
    step of nonlinear arithmetic the rounding and percentage proofs need. */
module Arith {

  lemma RealCancelLe(a: real, b: real, t: real)
    requires t > 0.0 && a * t <= b * t
    ensures a <= b
  {
  }

  lemma RealCancelLt(a: real, b: real, t: real)
    requires t > 0.0 && a * t < b * t
    ensures a < b
  {
  }

  lemma IntCancelLe(a: int, b: int, t: int)
    requires t > 0 && a * t <= b * t
    ensures a <= b
  {
  }

  lemma IntCancelLt(a: int, b: int, t: int)
    requires t > 0 && a * t < b * t
    ensures a < b
  {
  }
}
