/** Rounding of money.  Amounts are measured in paise: an exact amount is a `real`,
    an amount rounded to two decimals of a rupee is an `int`. */
module Money {

  /** `Math.round`: ties go up. */
  function HalfUp(x: real): int {
    (x + 0.5).Floor
  }

  /** `Number.prototype.toFixed` and decimal.js ROUND_HALF_UP: ties go away from zero. */
  function HalfAway(x: real): int {
    if x < 0.0 then -HalfUp(-x) else HalfUp(x)
  }

  /** Smallest integer that is not below `x` (`Math.ceil`). */
  function Ceil(x: real): int {
    -((-x).Floor)
  }

  lemma HalfUpWithinHalf(x: real)
    ensures x - 0.5 < HalfUp(x) as real <= x + 0.5
  {}

  /** `n` is the amount `x` in whole paise, to the nearest with ties up. */
  predicate IsRounded(n: int, x: real) {
    n as real - 0.5 <= x < n as real + 0.5
  }

  lemma RoundedIsNearest(x: real)
    ensures IsRounded(HalfUp(x), x)
    ensures x >= 0.0 ==> IsRounded(HalfAway(x), x)
  {}

  lemma HalfUpMonotone(x: real, y: real)
    requires x <= y
    ensures HalfUp(x) <= HalfUp(y)
  {}

  lemma HalfAwayMonotone(x: real, y: real)
    requires x <= y
    ensures HalfAway(x) <= HalfAway(y)
  {
    if x < 0.0 && y < 0.0 {
      HalfUpMonotone(-y, -x);
    }
  }

  lemma CeilMonotone(x: real, y: real)
    requires x <= y
    ensures Ceil(x) <= Ceil(y)
  {}

  /** Scaling a non-negative amount by `factor` keeps the order and the sign. */
  lemma ScaleMonotone(x: real, y: real, factor: real)
    requires 0.0 <= x <= y && 0.0 <= factor
    ensures 0.0 <= x * factor <= y * factor
  {
    assert (y - x) * factor >= 0.0;
  }

  lemma ShareWithin(amount: real, share: real)
    requires amount >= 0.0 && 0.0 <= share <= 1.0
    ensures 0.0 <= amount * share <= amount
  {
    ScaleMonotone(share, 1.0, amount);
  }

  /** A share `k` of an amount, where `k` of the fare is `x`. */
  lemma ShareSign(k: real, x: real, fare: real)
    requires fare > 0.0 && x >= 0.0 && k * fare == x
    ensures 0.0 <= k
    ensures x <= fare ==> k <= 1.0
    ensures x >= fare ==> k >= 1.0
  {
    SignTimesPositive(k, fare);
    SignTimesPositive(1.0 - k, fare);
    SignTimesPositive(k - 1.0, fare);
    assert (1.0 - k) * fare == fare - x;
    assert (k - 1.0) * fare == x - fare;
  }

  lemma SignTimesPositive(r: real, f: real)
    requires f > 0.0
    ensures r >= 0.0 <==> r * f >= 0.0
  {
    if r < 0.0 {
      assert (-r) * f > 0.0;
    }
  }

  lemma MulAssoc(a: real, b: real, c: real)
    ensures (a * b) * c == a * (b * c)
  {}

  /** Residual after taking `k` of two shares, with the division cleared. */
  lemma RestBelowFare(k: real, F: real, N: real, G: real, X: real)
    requires k * F == X
    ensures (X - N * k - G * k) * F == (F - N - G) * X
  {
    MulAssoc(N, k, F);
    MulAssoc(G, k, F);
    var p, q := N * k, G * k;
    assert (X - p - q) * F == X * F - p * F - q * F;
    assert (F - N - G) * X == F * X - N * X - G * X;
  }

  lemma RestBeyondFare(k: real, F: real, N: real, G: real, X: real)
    requires k * F == X
    ensures (X - N - G * k) * F == X * (F - G) - N * F
  {
    MulAssoc(G, k, F);
    var q := G * k;
    assert (X - N - q) * F == X * F - N * F - q * F;
    assert X * (F - G) == X * F - X * G;
  }

  /** Taking `k` of a fare away leaves the fraction the fee is. */
  lemma KeptShare(kept: real, k: real, F: real, fee: real)
    requires F > 0.0 && kept * F == fee && k * F == F - fee
    ensures k == 1.0 - kept
  {
    var d := k + kept - 1.0;
    assert d * F == k * F + kept * F - F;
    SignTimesPositive(d, F);
    SignTimesPositive(-d, F);
    assert (-d) * F == -(d * F);
  }
}
