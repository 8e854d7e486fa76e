/** The few facts about real products that the proofs chain. */
module RealProducts {
  import opened MachineInts

  /** A product as a term of its own, for proofs that need not look inside it. */
  function Mul(x: real, y: real): real {
    x * y
  }

  lemma {:induction false} ProductNonNegative(x: real, y: real)
    requires 0.0 <= x && 0.0 <= y
    ensures 0.0 <= x * y
  {
  }

  lemma {:induction false} ProductMonotone(f: real, a: real, b: real)
    requires 0.0 <= f && a <= b
    ensures f * a <= f * b && a * f <= b * f
  {
  }

  lemma {:induction false} NonNegativeFactor(x: real, y: real)
    requires 0.0 < y && 0.0 <= x * y
    ensures 0.0 <= x
  {
  }

  lemma {:induction false} AbsProduct(x: real, y: real)
    requires 0.0 <= y
    ensures AbsReal(x * y) == AbsReal(x) * y && AbsReal(y * x) == y * AbsReal(x)
  {
  }

  lemma {:induction false} SignOfProduct(x: real, y: real)
    requires y > 0.0
    ensures x * y > 0.0 <==> x > 0.0
    ensures x * y < 0.0 <==> x < 0.0
  {
  }

  lemma {:induction false} CancelFactor(a: real, b: real, n: real)
    requires n > 0.0
    ensures a * n <= b * n ==> a <= b
    ensures a * n < b * n ==> a < b
  {
  }

  /** A part of a whole is a share of at most one. */
  lemma {:induction false} ShareBound(share: real, whole: real, part: real)
    requires whole > 0.0 && share == part / whole && -whole <= part <= whole
    ensures -1.0 <= share <= 1.0
  {
    assert share * whole == part;
    NonNegativeFactor(1.0 - share, whole);
    NonNegativeFactor(share + 1.0, whole);
  }

  /** ... and a non-negative one makes a percentage. */
  lemma {:induction false} Percentage(share: real, whole: real, part: real)
    requires whole > 0.0 && share == part / whole && 0.0 <= part <= whole
    ensures 0 <= (100.0 * share).Floor <= 100
  {
    assert share * whole == part;
    NonNegativeFactor(share, whole);
    ShareBound(share, whole, part);
  }

  lemma {:induction false} ShareOf(whole: real, share: real)
    requires 0.0 <= whole && -1.0 <= share <= 1.0
    ensures AbsReal(whole * share) <= whole
  {
    ProductMonotone(whole, share, 1.0);
    ProductMonotone(whole, -1.0, share);
  }

  /** Scaling by at most one shrinks. */
  lemma {:induction false} ScaledDown(x: real, d: real)
    requires 0.0 <= x && 0.0 <= d <= 1.0
    ensures 0.0 <= x * d <= x
  {
    ProductMonotone(x, 0.0, d);
    ProductMonotone(x, d, 1.0);
  }

  lemma {:induction false} SquareOfAbs(x: real)
    ensures x * x == AbsReal(x) * AbsReal(x)
  {
  }

  lemma {:induction false} ReciprocalTimes(x: real)
    requires x != 0.0
    ensures 1.0 / x * x == 1.0
  {
  }
}
