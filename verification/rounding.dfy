/**
 * `Math.Round(double)` (midpoint rounding to even) and the clamps the grading code
 * writes with `Math.Min`/`Math.Max`. Rounding is taken over exact rationals.
 */
module Rounding {

  /** The integer nearest to `x`; an exact tie goes to the even neighbour. */
  function RoundHalfEven(x: real): (r: int)
    ensures -0.5 <= x - r as real <= 0.5
    ensures (x - r as real == 0.5 || r as real - x == 0.5) ==> r % 2 == 0
  {
    var f := x.Floor;
    var d := x - f as real;
    if d < 0.5 then f
    else if d > 0.5 then f + 1
    else if f % 2 == 0 then f
    else f + 1
  }

  /** Rounding an integral value returns it. */
  lemma RoundIntegral(n: int)
    ensures RoundHalfEven(n as real) == n
  {
  }

  /** Rounding never reverses the order of two values. */
  lemma RoundMonotone(x: real, y: real)
    requires x <= y
    ensures RoundHalfEven(x) <= RoundHalfEven(y)
  {
  }

  /** A value between two integers rounds to an integer between them. */
  lemma RoundWithin(x: real, lo: int, hi: int)
    requires lo as real <= x <= hi as real
    ensures lo <= RoundHalfEven(x) <= hi
  {
    RoundMonotone(lo as real, x);
    RoundMonotone(x, hi as real);
    RoundIntegral(lo);
    RoundIntegral(hi);
  }

  /** `Math.Min(hi, Math.Max(lo, x))`. */
  function Clamp(lo: int, hi: int, x: int): (r: int)
    requires lo <= hi
    ensures lo <= r <= hi
    ensures lo <= x <= hi ==> r == x
    ensures x < lo ==> r == lo
    ensures x > hi ==> r == hi
  {
    if x < lo then lo else if x > hi then hi else x
  }

  function Max(a: int, b: int): (r: int)
    ensures r >= a && r >= b && (r == a || r == b)
  {
    if a >= b then a else b
  }

  function Min(a: int, b: int): (r: int)
    ensures r <= a && r <= b && (r == a || r == b)
  {
    if a <= b then a else b
  }

  /** A share of a non-empty whole, scaled to percent and truncated, stays within 0..100. */
  lemma PercentShareBound(part: int, whole: int)
    requires 0 <= part <= whole && whole > 0
    ensures 0 <= (100 * part) / whole <= 100
  {
  }

  /** The ratio of a part to a positive whole lies in [0, 1]. */
  lemma RatioBound(part: real, whole: real)
    requires 0.0 <= part <= whole && whole > 0.0
    ensures 0.0 <= part / whole <= 1.0
  {
  }

  /** A ratio of a part to a positive whole, scaled by a non-negative factor, lies between 0 and that factor. */
  lemma ScaledRatioBound(part: real, whole: real, scale: real)
    requires 0.0 <= part <= whole && whole > 0.0 && scale >= 0.0
    ensures 0.0 <= part / whole * scale <= scale
  {
    var q := part / whole;
    RatioBound(part, whole);
    assert scale - q * scale == (1.0 - q) * scale;
  }

  /** Integer division by a positive divisor is monotone. */
  lemma DivMonotone(a: int, b: int, d: int)
    requires a <= b && d > 0
    ensures a / d <= b / d
  {
    var qa, qb := a / d, b / d;
    if qa > qb {
      var k := qa - qb;
      assert d * qa - d * qb == d * k;
      assert d * k == d * (k - 1) + d;
      MulNonNegative(d, k - 1);
    }
  }

  lemma MulNonNegative(x: int, y: int)
    requires x >= 0 && y >= 0
    ensures x * y >= 0
  {
  }

  /** A positive quantity is all of itself. */
  lemma SelfRatio(x: real)
    requires x > 0.0
    ensures x / x == 1.0
  {
  }

  /** C# `int` arithmetic without overflow checking: the result wraps into the 32-bit two's-complement range. */
  function WrapInt32(x: int): (r: int)
    ensures -0x8000_0000 <= r < 0x8000_0000
    ensures (x - r) % 0x1_0000_0000 == 0
    ensures -0x8000_0000 <= x < 0x8000_0000 ==> r == x
  {
    (x + 0x8000_0000) % 0x1_0000_0000 - 0x8000_0000
  }
}
