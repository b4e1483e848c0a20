/** Python's math.isclose with rel_tol = 0.02 and the default abs_tol = 0,
    over exact reals (no infinities, no rounding). */
module Tolerance {

  /** The relative tolerance the box editor passes to isclose. */
  const RelTol: real := 0.02

  function Abs(a: real): real { if a < 0.0 then -a else a }
  function MaxAbs(a: real, b: real): real { if Abs(a) <= Abs(b) then Abs(b) else Abs(a) }

  /** Close when equal, or when the difference is within RelTol of the
      magnitude of either argument (abs_tol = 0 adds nothing). */
  predicate IsClose(a: real, b: real)
  {
    a == b || Abs(b - a) <= RelTol * Abs(b) || Abs(b - a) <= RelTol * Abs(a)
  }

  /** The documented form: |a - b| <= rel_tol * max(|a|, |b|). */
  lemma IsCloseIffWithinRelative(a: real, b: real)
    ensures IsClose(a, b) <==> Abs(a - b) <= RelTol * MaxAbs(a, b)
  {
  }

  /** Every value is close to itself, and closeness is symmetric. */
  lemma IsCloseReflexiveSymmetric(a: real, b: real)
    ensures IsClose(a, a)
    ensures IsClose(a, b) == IsClose(b, a)
  {
  }

  /** The tolerance scales with the magnitude: near 0 only equality is close. */
  lemma IsCloseToZero(a: real)
    ensures IsClose(a, 0.0) <==> a == 0.0
    ensures IsClose(0.0, a) <==> a == 0.0
  {
  }

  /** Close values lie strictly on the same side of 0 (or are both 0). */
  lemma IsCloseSameSign(a: real, b: real)
    requires IsClose(a, b)
    ensures a > 0.0 <==> b > 0.0
    ensures a < 0.0 <==> b < 0.0
  {
  }
}
