/** sdk.Dec: fixed-point numbers with 18 decimals, kept as integers scaled by ONE. */
module Decimal {

  const ONE: int := 1_000_000_000_000_000_000

  /** r is the integer nearest to n / d, the even one if two are equally near. */
  predicate Nearest(n: int, d: int, r: int) {
    var off := 2 * (r * d - n);
    -d <= off <= d && (off == d || off == -d ==> r % 2 == 0)
  }

  /** chopPrecisionAndRound on a non-negative number. */
  function RoundUpTies(n: nat, d: int): nat
    requires d > 0
  {
    var q, rem := n / d, n % d;
    if 2 * rem < d then q
    else if 2 * rem > d then q + 1
    else if q % 2 == 0 then q else q + 1
  }

  /** chopPrecisionAndRound: symmetric in sign. */
  function RoundHalfEven(n: int, d: int): int
    requires d > 0
  {
    if n < 0 then -(RoundUpTies(-n, d) as int) else RoundUpTies(n, d)
  }

  lemma RoundUpTiesIsNearest(n: nat, d: int)
    requires d > 0
    ensures Nearest(n, d, RoundUpTies(n, d))
  {
    var q, rem := n / d, n % d;
    assert q * d - n == -rem;
    assert (q + 1) * d - n == d - rem;
  }

  lemma NearestNegated(n: int, d: int, r: int)
    requires Nearest(n, d, r)
    ensures Nearest(-n, d, -r)
  {
    assert (-r) * d == -(r * d);
  }

  /** The rounding is to the nearest integer, ties to even, and nothing else is. */
  lemma RoundHalfEvenIsNearest(n: int, d: int)
    requires d > 0
    ensures Nearest(n, d, RoundHalfEven(n, d))
  {
    if n < 0 {
      RoundUpTiesIsNearest(-n, d);
      NearestNegated(-n, d, RoundUpTies(-n, d));
    } else {
      RoundUpTiesIsNearest(n, d);
    }
  }

  lemma NearestIsUnique(n: int, d: int, r: int, s: int)
    requires d > 0 && Nearest(n, d, r) && Nearest(n, d, s)
    ensures r == s
  {
    StepsApart(d, r, s, 1);
    StepsApart(d, r, s, 2);
    StepsApart(d, s, r, 1);
    StepsApart(d, s, r, 2);
    NotTwoNearest(n, d, r, s, r * d, s * d);
  }

  /** The same without products: x and y are the multiples of d. */
  lemma NotTwoNearest(n: int, d: int, r: int, s: int, x: int, y: int)
    requires d > 0 && -d <= 2 * (x - n) <= d && -d <= 2 * (y - n) <= d
    requires 2 * (x - n) == d || 2 * (x - n) == -d ==> r % 2 == 0
    requires 2 * (y - n) == d || 2 * (y - n) == -d ==> s % 2 == 0
    requires (r + 1 <= s ==> x + d <= y) && (r + 2 <= s ==> x + 2 * d <= y)
    requires (s + 1 <= r ==> y + d <= x) && (s + 2 <= r ==> y + 2 * d <= x)
    ensures r == s
  {
  }

  lemma StepsApart(d: int, r: int, s: int, k: int)
    requires d > 0
    ensures r + k <= s ==> r * d + k * d <= s * d
  {
    Scaled(d, r + k, s);
    assert (r + k) * d == r * d + k * d;
  }

  lemma Scaled(d: int, a: int, b: int)
    requires d > 0
    ensures a <= b ==> a * d <= b * d
  {
  }

  // ---------------------------------------------------------------- products and quotients

  /** big.Int Quo: division that drops the fraction, for either sign. */
  function TruncDiv(a: int, b: int): int
    requires b != 0
  {
    if b < 0 then (if a < 0 then (-a) / (-b) else -(a / (-b)))
    else if a < 0 then -((-a) / b) else a / b
  }

  /** Dec.Mul. */
  function MulDec(a: int, b: int): int {
    RoundHalfEven(a * b, ONE)
  }

  /** Dec.Quo: 36 extra digits, cut, then rounded back to 18. */
  function QuoDec(a: int, b: int): int
    requires b != 0
  {
    RoundHalfEven(TruncDiv(a * ONE * ONE, b), ONE)
  }

  lemma FloorDown(a: int, b: int)
    requires a >= 0 && b > 0
    ensures 0 <= a - TruncDiv(a, b) * b < b && TruncDiv(a, b) >= 0
  {
    DivMod(a, b);
  }

  lemma DivMod(a: int, b: int)
    requires a >= 0 && b > 0
    ensures a == a / b * b + a % b && 0 <= a % b < b && a / b >= 0
  {
  }

  lemma QuoDecNonNegative(a: int, b: int)
    requires a >= 0 && b > 0
    ensures QuoDec(a, b) >= 0
  {
    FloorDown(a * ONE * ONE, b);
  }

  lemma TruncDivClose(a: int, b: int)
    requires b > 0
    ensures -b < TruncDiv(a, b) * b - a < b
  {
    if a < 0 {
      assert (-a) == (-a) / b * b + (-a) % b;
      assert TruncDiv(a, b) * b == -((-a) / b * b);
    } else {
      assert a == a / b * b + a % b;
    }
  }

  /** Dec.Quo is off by less than one unit in the last place. */
  lemma QuoDecClose(a: int, b: int)
    requires b > 0
    ensures -b < QuoDec(a, b) * b - a * ONE < b
  {
    var x := a * ONE * ONE;
    var t := TruncDiv(x, b);
    TruncDivClose(x, b);
    RoundHalfEvenIsNearest(t, ONE);
    QuoDecArithmetic(a, b, t, QuoDec(a, b));
  }

  lemma QuoDecArithmetic(a: int, b: int, t: int, r: int)
    requires b > 0
    requires -b < t * b - a * ONE * ONE < b
    requires -ONE <= 2 * (r * ONE - t) <= ONE
    ensures -b < r * b - a * ONE < b
  {
    ScaleBounds(2 * (r * ONE - t), ONE, b);
    assert 2 * (r * ONE - t) * b == 2 * (r * b) * ONE - 2 * (t * b);
  }

  lemma ScaleBounds(x: int, bound: int, b: int)
    requires b > 0 && -bound <= x <= bound
    ensures -(bound * b) <= x * b <= bound * b
  {
    Scaled(b, x, bound);
    Scaled(b, -bound, x);
    assert (-bound) * b == -(bound * b);
  }

  // ---------------------------------------------------------------- quotients against a bound

  /** A quotient is at least t whenever the exact one is. */
  lemma QuoDecAtLeast(a: int, b: int, t: int)
    requires b > 0 && a * ONE >= t * b
    ensures QuoDec(a, b) >= t
  {
    QuoDecClose(a, b);
    var q := QuoDec(a, b);
    assert (t - 1) * b == t * b - b;
    Scaled(b, q, t - 1);
  }

  /** A quotient is at most t whenever the exact one is. */
  lemma QuoDecAtMost(a: int, b: int, t: int)
    requires b > 0 && a * ONE <= t * b
    ensures QuoDec(a, b) <= t
  {
    QuoDecClose(a, b);
    var q := QuoDec(a, b);
    assert (t + 1) * b == t * b + b;
    Scaled(b, t + 1, q);
  }

  /** The least 36-digit fraction that is rounded to more than t units: half a unit more, or a little over half if
      half would be rounded down to the even t. */
  function JustOver(t: int): int {
    t * ONE + ONE / 2 + (if t % 2 == 0 then 1 else 0)
  }

  lemma RoundsOver(n: int, t: nat)
    ensures RoundHalfEven(n, ONE) > t <==> n >= JustOver(t)
  {
  }

  /** A quotient, cut, reaches a positive number exactly if the dividend reaches that many times the divisor. */
  lemma TruncDivReaches(n: int, b: int, c: int)
    requires b > 0 && c > 0
    ensures TruncDiv(n, b) >= c <==> n >= c * b
  {
    Scaled(b, 1, c);
    if n < 0 {
      DivMod(-n, b);
    } else {
      FloorDown(n, b);
      Scaled(b, c, TruncDiv(n, b));
      StepsApart(b, TruncDiv(n, b), c, 1);
    }
  }

  /** A quotient exceeds t exactly if the exact one, cut to 36 digits, is at least that. */
  lemma QuoDecExceeds(a: int, b: int, t: nat)
    requires b > 0
    ensures QuoDec(a, b) > t <==> a * ONE * ONE >= JustOver(t) * b
  {
    var n, c := a * ONE * ONE, JustOver(t);
    RoundsOver(TruncDiv(n, b), t);
    TruncDivReaches(n, b, c);
  }

  lemma RoundMonotone(n: nat, n': nat, d: int)
    requires d > 0 && n <= n'
    ensures RoundUpTies(n, d) <= RoundUpTies(n', d)
  {
    var r, r' := RoundUpTies(n, d), RoundUpTies(n', d);
    RoundUpTiesIsNearest(n, d);
    RoundUpTiesIsNearest(n', d);
    if n < n' {
      StepsApart(d, r', r, 1);
    }
  }

  /** More over the same is not less. */
  lemma QuoDecMonotone(a: int, a': int, b: int)
    requires 0 <= a <= a' && b > 0
    ensures QuoDec(a, b) <= QuoDec(a', b)
  {
    var n, n' := a * ONE * ONE, a' * ONE * ONE;
    FloorDown(n, b);
    FloorDown(n', b);
    var t, t' := TruncDiv(n, b), TruncDiv(n', b);
    StepsApart(b, t', t, 1);
    RoundMonotone(t, t', ONE);
  }

  /** Something over a negative number is not positive. */
  lemma QuoDecNotPositive(a: int, b: int)
    requires a >= 0 && b < 0
    ensures QuoDec(a, b) <= 0
  {
    FloorDown(a * ONE * ONE, -b);
  }
}
