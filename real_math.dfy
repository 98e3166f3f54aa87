/** Exact real arithmetic standing in for the dashboard's floating-point
    expressions: powers, the two cent-rounding idioms and ceilings. */
module RealMath {

  /** `Math.pow(b, n)` for a natural exponent, computed exactly. */
  function Pow(b: real, n: nat): real
  {
    if n == 0 then 1.0 else b * Pow(b, n - 1)
  }

  lemma {:induction false} PowPositive(b: real, n: nat)
    requires b > 0.0
    ensures Pow(b, n) > 0.0
  {
    if n > 0 {
      PowPositive(b, n - 1);
      assert b * Pow(b, n - 1) > 0.0;
    }
  }

  /** With a base of at least one, raising the exponent never lowers the power. */
  lemma {:induction false} PowMonotone(b: real, i: nat, j: nat)
    requires b >= 1.0 && i <= j
    ensures 1.0 <= Pow(b, i) <= Pow(b, j)
  {
    if j > i {
      PowMonotone(b, i, j - 1);
      assert Pow(b, j) == b * Pow(b, j - 1);
      assert b * Pow(b, j - 1) >= 1.0 * Pow(b, j - 1);
    } else if i > 0 {
      PowMonotone(b, i - 1, i - 1);
      assert b * Pow(b, i - 1) >= 1.0 * Pow(b, i - 1);
    }
  }

  /** A non-negative amount scaled by powers of a base of at least one grows with the exponent. */
  lemma ScaledPowMonotone(c: real, b: real, i: nat, j: nat)
    requires c >= 0.0 && b >= 1.0 && i <= j
    ensures 0.0 <= c * Pow(b, i) <= c * Pow(b, j)
  {
    PowMonotone(b, i, j);
    assert c * Pow(b, i) <= c * Pow(b, j) by {
      assert c * (Pow(b, j) - Pow(b, i)) >= 0.0;
    }
  }

  /** x is a whole number of cents. */
  predicate IsCents(x: real)
  {
    (x * 100.0).Floor as real == x * 100.0
  }

  /** `Math.round(x * 100) / 100`: Math.round takes the nearest integer and
      rounds halves upward, which is `Floor(y + 1/2)` for every y. */
  function RoundCents(x: real): (r: real)
    ensures IsCents(r)
    ensures x - 0.005 < r <= x + 0.005
  {
    ((x * 100.0 + 0.5).Floor as real) / 100.0
  }

  /** The interval of the ensures above holds exactly one whole number of cents. */
  lemma RoundCentsUnique(x: real, c: real)
    requires IsCents(c) && x - 0.005 < c <= x + 0.005
    ensures c == RoundCents(x)
  {
    var r := RoundCents(x);
    var n, m := (c * 100.0).Floor, (r * 100.0).Floor;
    assert n as real == c * 100.0 && m as real == r * 100.0;
    assert -1 < n - m < 1;
  }

  lemma RoundCentsOfCents(x: real)
    requires IsCents(x)
    ensures RoundCents(x) == x
  {
    RoundCentsUnique(x, x);
  }

  lemma RoundCentsMonotone(x: real, y: real)
    requires x <= y
    ensures RoundCents(x) <= RoundCents(y)
  {
    assert (x * 100.0 + 0.5).Floor <= (y * 100.0 + 0.5).Floor;
  }

  /** `+(x).toFixed(2)`: toFixed rounds the magnitude to the nearest cent,
      taking the larger candidate on a tie, and then restores the sign, so
      halves round away from zero. */
  function FixedCents(x: real): (r: real)
    ensures IsCents(r)
    ensures x >= 0.0 ==> x - 0.005 < r <= x + 0.005
    ensures x < 0.0 ==> x - 0.005 <= r < x + 0.005
  {
    if x < 0.0 then
      var m := RoundCents(-x);
      assert m * 100.0 == (m * 100.0).Floor as real;
      assert (-m * 100.0).Floor == -((m * 100.0).Floor);
      -m
    else RoundCents(x)
  }

  /** The two idioms agree on every non-negative amount. */
  lemma FixedCentsAgreesOnNonNegative(x: real)
    requires x >= 0.0
    ensures FixedCents(x) == RoundCents(x)
  {
  }

  /** They disagree on a negative tie: `Math.round` goes up, `toFixed` goes away from zero. */
  lemma FixedCentsDiffersOnNegativeTie()
    ensures RoundCents(-0.005) == 0.0
    ensures FixedCents(-0.005) == -0.01
  {
    assert (-0.005 * 100.0 + 0.5).Floor == 0;
    assert (0.005 * 100.0 + 0.5).Floor == 1;
  }

  /** Every negative tie splits them: an amount half a cent below -k cents
      rounds up to -k cents under `Math.round` and away from zero to
      -(k+1) cents under `toFixed`. */
  lemma FixedCentsDiffersOnNegativeTies(k: nat)
    ensures var x := -(k as real) / 100.0 - 0.005;
            && RoundCents(x) == -(k as real) / 100.0
            && FixedCents(x) == -((k + 1) as real) / 100.0
  {
    var x := -(k as real) / 100.0 - 0.005;
    assert x * 100.0 + 0.5 == -(k as real);
    assert (x * 100.0 + 0.5).Floor == -(k as int);
    assert -x * 100.0 + 0.5 == (k + 1) as real;
    assert (-x * 100.0 + 0.5).Floor == k + 1;
  }

  lemma FixedCentsMonotone(x: real, y: real)
    requires x <= y
    ensures FixedCents(x) <= FixedCents(y)
  {
    if x < 0.0 && y < 0.0 {
      RoundCentsMonotone(-y, -x);
    } else if 0.0 <= x {
      RoundCentsMonotone(x, y);
    }
  }

  /** `Math.ceil(x)`. */
  function Ceil(x: real): (r: int)
    ensures (r - 1) as real < x <= r as real
  {
    -((-x).Floor)
  }

  /** `Ceil` is the only integer bracketing x from above within one. */
  lemma CeilUnique(x: real, n: int)
    requires (n - 1) as real < x <= n as real
    ensures Ceil(x) == n
  {
  }
}
