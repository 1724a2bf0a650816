/**
 Exact model of Python's round(x, 2) on a ratio. Every two-decimal value in
 the analysis core is kept as an integer count of hundredths, and rounding
 a / b to the nearest integer (exact halves to the even neighbour, as
 Python's round does) gives that count.
 */
module Rounding {

  /** Nearest integer to a / b; on an exact half, the even one. */
  function RoundHalfEven(a: int, b: int): int
    requires b > 0
  {
    var q := a / b;
    var m := a % b;
    if 2 * m < b then q
    else if 2 * m > b then q + 1
    else if q % 2 == 0 then q
    else q + 1
  }

  /** The result is within half a unit of a / b, and even when exactly half-way. */
  lemma RoundNearest(a: int, b: int)
    requires b > 0
    ensures var r := RoundHalfEven(a, b);
      && -b <= 2 * (a - r * b) <= b
      && (2 * (a - r * b) == b ==> r % 2 == 0)
      && (2 * (a - r * b) == -b ==> r % 2 == 0)
  {
    var q := a / b;
    var m := a % b;
    assert a - q * b == m;
    assert a - (q + 1) * b == m - b;
  }

  lemma MulLeOne(x: int, b: int)
    requires b > 0
    requires x * b < 2 * b
    ensures x <= 1
  {
  }

  lemma MulStep(x: int, y: int, b: int)
    requires b > 0 && x < y
    ensures x * b + b <= y * b
  {
    var k := y - x - 1;
    assert k >= 0;
    assert k * b >= 0;
    assert y * b == (x + 1 + k) * b == x * b + b + k * b;
  }

  /** Two nearest-with-even-ties quotients of ordered numerators are ordered. */
  lemma NearestOrdered(a1: int, a2: int, b: int, r1: int, r2: int)
    requires b > 0 && a1 <= a2
    requires -b <= 2 * (a1 - r1 * b) <= b && -b <= 2 * (a2 - r2 * b) <= b
    requires 2 * (a1 - r1 * b) == -b ==> r1 % 2 == 0
    requires 2 * (a2 - r2 * b) == b ==> r2 % 2 == 0
    ensures r1 <= r2
  {
    if r1 > r2 {
      MulStep(r2, r1, b);
      if r1 > r2 + 1 {
        MulStep(r2 + 1, r1, b);
      }
      assert false;
    }
  }

  /** Rounding is monotone in the numerator. */
  lemma RoundMonotone(a1: int, a2: int, b: int)
    requires b > 0
    requires a1 <= a2
    ensures RoundHalfEven(a1, b) <= RoundHalfEven(a2, b)
  {
    RoundNearest(a1, b);
    RoundNearest(a2, b);
    NearestOrdered(a1, a2, b, RoundHalfEven(a1, b), RoundHalfEven(a2, b));
  }

  lemma NearestExact(c: int, b: int, r: int)
    requires b > 0
    requires -b <= 2 * (c * b - r * b) <= b
    ensures r == c
  {
    assert (c - r) * b == c * b - r * b;
    if r < c {
      assert 2 * (c - r) * b <= b;
      MulLeOne(2 * (c - r), b);
    } else if r > c {
      assert 2 * (r - c) * b <= b;
      MulLeOne(2 * (r - c), b);
    }
  }

  /** A whole quotient is returned unchanged. */
  lemma RoundExact(c: int, b: int)
    requires b > 0
    ensures RoundHalfEven(c * b, b) == c
  {
    RoundNearest(c * b, b);
    NearestExact(c, b, RoundHalfEven(c * b, b));
  }

  /** A ratio between lo and hi rounds to a value between lo and hi. */
  lemma {:induction false} RoundBetween(a: int, b: int, lo: int, hi: int)
    requires b > 0
    requires lo * b <= a <= hi * b
    ensures lo <= RoundHalfEven(a, b) <= hi
  {
    RoundMonotone(lo * b, a, b);
    RoundMonotone(a, hi * b, b);
    RoundExact(lo, b);
    RoundExact(hi, b);
  }
}
