/** Small facts of real arithmetic used by the similarity proofs. */
module Arith {

  lemma PositiveFactor(a: real, b: real)
    requires a * b > 0.0 && b > 0.0
    ensures a > 0.0
  {
  }

  lemma PositiveProduct(x: real, y: real)
    requires x > 0.0 && y > 0.0
    ensures x * y > 0.0
  {
  }

  lemma NonNegativeProduct(x: real, y: real)
    requires x >= 0.0 && y >= 0.0
    ensures x * y >= 0.0
  {
  }

  /** `w * d` as a function of `d` is non-decreasing for `w >= 0`. */
  lemma ScaleMonotone(w: real, d1: real, d2: real)
    requires w >= 0.0 && d1 <= d2
    ensures w * d1 <= w * d2
  {
    assert w * d2 - w * d1 == w * (d2 - d1);
    NonNegativeProduct(w, d2 - d1);
  }

  /** `w * d` as a function of `d` is increasing for `w > 0`. */
  lemma ScaleStrict(w: real, d1: real, d2: real)
    requires w > 0.0 && d1 < d2
    ensures w * d1 < w * d2
  {
    assert w * d2 - w * d1 == w * (d2 - d1);
    PositiveProduct(w, d2 - d1);
  }

  /** From `k * t <= 1` with `t > 0` follows `k <= 1 / t`. */
  lemma BelowReciprocal(k: real, t: real)
    requires t > 0.0
    requires k * t <= 1.0
    ensures k <= 1.0 / t
  {
    var inv := 1.0 / t;
    assert inv * t == 1.0;
    PositiveFactor(inv, t);
    assert k == (k * t) * inv;
    assert 1.0 / t - k == (1.0 - k * t) * inv;
    NonNegativeProduct(1.0 - k * t, inv);
  }

  /** A positive part of a positive whole, as a fraction, lies in (0, 1]. */
  lemma ShareBounds(part: real, whole: real, share: real)
    requires 0.0 < part <= whole
    requires share * whole == part
    ensures 0.0 < share <= 1.0
  {
  }

  /** A share `x / (x + y)` with `0 < y < x` is more than one half. */
  lemma HalfShare(share: real, x: real, y: real)
    requires 0.0 < y < x
    requires share * (x + y) == x
    ensures share > 0.5
  {
    assert (share - 0.5) * (x + y) == x - 0.5 * (x + y);
    PositiveFactor(share - 0.5, x + y);
  }

  lemma QuotientOfSum(a: real, b: real, c: real)
    requires c != 0.0
    ensures a / c + b / c == (a + b) / c
  {
  }

  lemma SelfQuotient(c: real)
    requires c != 0.0
    ensures c / c == 1.0
  {
  }

  /** One step of counting selected mass: with `m` the new count and `x`
      the new term, `m * thr` stays below the running sum. */
  lemma MassStep(k: real, m: real, thr: real, mass: real, x: real)
    requires k * thr <= mass
    requires thr >= 0.0 && x >= 0.0
    requires (m == k + 1.0 && thr <= x) || m == k
    ensures m * thr <= mass + x
  {
    if m == k + 1.0 {
      assert m * thr == k * thr + thr;
    } else {
      assert m * thr == k * thr;
    }
  }

  lemma ProductOfFractions(a: real, b: real)
    requires 0.0 < a <= 1.0 && 0.0 < b <= 1.0
    ensures a * b <= 1.0
  {
    assert a * b <= a * 1.0;
  }

  lemma StrictProduct(a2: real, b2: real, a1: real, b1: real)
    requires 0.0 < a2 <= a1 && 0.0 < b2 <= b1
    requires a2 < a1 || b2 < b1
    ensures a2 * b2 < a1 * b1
  {
    assert a2 * b2 <= a1 * b2;
    assert a1 * b2 <= a1 * b1;
    if a2 < a1 {
      assert a2 * b2 < a1 * b2;
    } else {
      assert a1 * b2 < a1 * b1;
    }
  }
}
