/**
 * Fixed-point arithmetic of the scoring code. A `BigDecimal` of scale 2 is an
 * integer number of hundredths; `divide(…, 2, RoundingMode.HALF_UP)` and
 * `setScale(2, RoundingMode.HALF_UP)` round to the nearest hundredth with ties
 * away from zero. Java's `int` division truncates toward zero.
 */
module Decimal {

  /**
   * n / d rounded half away from zero (`RoundingMode.HALF_UP`): the result is
   * within half a unit of the exact quotient, and an exact tie goes away from zero.
   */
  function RoundHalfUp(n: int, d: int): (r: int)
    requires d > 0
    ensures n >= 0 ==> 2 * d * r - d <= 2 * n < 2 * d * r + d
    ensures n < 0 ==> 2 * d * r - d < 2 * n <= 2 * d * r + d
    ensures n >= 0 ==> r >= 0
    ensures n <= 0 ==> r <= 0
  {
    if n >= 0 then NonNegativeHalfUp(n, d) else -(NonNegativeHalfUp(-n, d) as int)
  }

  function NonNegativeHalfUp(n: nat, d: int): (r: nat)
    requires d > 0
    ensures 2 * d * r - d <= 2 * n < 2 * d * r + d
  {
    var q := (2 * n + d) / (2 * d);
    DivBracket(2 * n + d, 2 * d);
    q
  }

  /** Euclidean division brackets its dividend. */
  lemma DivBracket(a: nat, b: int)
    requires b > 0
    ensures b * (a / b) <= a < b * (a / b) + b
  {
  }

  /** Rounding is monotone in the dividend. */
  lemma {:induction false} RoundHalfUpMonotone(n: int, m: int, d: int)
    requires d > 0 && n <= m
    ensures RoundHalfUp(n, d) <= RoundHalfUp(m, d)
  {
    var r, s := RoundHalfUp(n, d), RoundHalfUp(m, d);
    if r > s {
      assert r >= s + 1;
      MulMonotone(2 * d, s + 1, r);
    }
  }

  lemma MulMonotone(k: int, a: int, b: int)
    requires k > 0 && a <= b
    ensures k * a <= k * b
  {
  }

  /** Exact quotients are returned unchanged. */
  lemma RoundHalfUpExact(q: int, d: int)
    requires d > 0
    ensures RoundHalfUp(q * d, d) == q
  {
    var r := RoundHalfUp(q * d, d);
    assert 2 * (q * d) == 2 * d * q;
    assert 2 * d * (q + 1) == 2 * d * q + 2 * d;
    assert 2 * d * (r + 1) == 2 * d * r + 2 * d;
    if r > q {
      MulMonotone(2 * d, q + 1, r);
    } else if r < q {
      MulMonotone(2 * d, r + 1, q);
    }
  }

  /** Rounding a quotient whose dividend lies between lo*d and hi*d stays in [lo, hi]. */
  lemma RoundHalfUpBetween(n: int, d: int, lo: int, hi: int)
    requires d > 0 && lo * d <= n <= hi * d
    ensures lo <= RoundHalfUp(n, d) <= hi
  {
    RoundHalfUpMonotone(lo * d, n, d);
    RoundHalfUpMonotone(n, hi * d, d);
    RoundHalfUpExact(lo, d);
    RoundHalfUpExact(hi, d);
  }

  /**
   * `value / total * 100` at scale 2, HALF_UP, as the vocational and cognitive
   * scorers compute it, or zero when the denominator is not positive.
   */
  function Percent(part: int, whole: int): (p: int)
  {
    if whole > 0 then RoundHalfUp(10000 * part, whole) else 0
  }

  /** A share of a positive whole is a percentage between 0.00 and 100.00. */
  lemma PercentInRange(part: int, whole: int)
    requires 0 <= part <= whole
    ensures 0 <= Percent(part, whole) <= 10000
  {
    if whole > 0 {
      RoundHalfUpBetween(10000 * part, whole, 0, 10000);
    }
  }

  /** The whole is 100.00 percent of itself. */
  lemma PercentOfWhole(whole: int)
    requires whole > 0
    ensures Percent(whole, whole) == 10000
  {
    RoundHalfUpExact(10000, whole);
  }

  /** The mean of `count` amounts in hundredths whose sum is `sum`, at scale 2, HALF_UP. */
  function Mean(sum: int, count: int): (m: int)
    requires count > 0
  {
    RoundHalfUp(sum, count)
  }

  /** The mean of amounts that all lie in [lo, hi] lies in [lo, hi]. */
  lemma MeanBetween(sum: int, count: int, lo: int, hi: int)
    requires count > 0 && count * lo <= sum <= count * hi
    ensures lo <= Mean(sum, count) <= hi
  {
    RoundHalfUpBetween(sum, count, lo, hi);
  }

  /** Java's `a / b` on `int` for a positive divisor: the quotient truncated toward zero. */
  function JavaDiv(a: int, b: int): (q: int)
    requires b > 0
    ensures a >= 0 ==> 0 <= a - b * q < b
    ensures a < 0 ==> -b < a - b * q <= 0
  {
    if a >= 0 then
      DivBracket(a, b);
      a / b
    else
      DivBracket(-a, b);
      NegMul(b, (-a) / b);
      -((-a) / b)
  }

  lemma NegMul(x: int, y: int)
    ensures x * (-y) == -(x * y)
  {
  }

  /** Truncating division agrees with rounding down for non-negative operands. */
  lemma JavaDivNonNegative(a: nat, b: int)
    requires b > 0
    ensures JavaDiv(a, b) == a / b
  {
  }

  /** Truncating division of a negative dividend rounds toward zero, not down. */
  lemma JavaDivNegativeExample()
    ensures JavaDiv(-7, 2) == -3 && -7 / 2 == -4
  {
  }
}
