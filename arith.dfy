/**
 * Python's numeric conversions as the poster code uses them, over exact
 * rationals: `int(x)` truncates toward zero, and `min` over numbers.
 */
module Arith {

  /** Python's `int(x)` for a number `x`: the integer part, rounded toward zero. */
  function Trunc(x: real): (n: int)
    ensures 0.0 <= x ==> 0 <= n && n as real <= x < n as real + 1.0
    ensures x < 0.0 ==> n <= 0 && n as real - 1.0 < x <= n as real
  {
    if x >= 0.0 then x.Floor else -((-x).Floor)
  }

  /** Truncation never decreases when its argument grows. */
  lemma TruncMonotone(x: real, y: real)
    requires x <= y
    ensures Trunc(x) <= Trunc(y)
  {
  }

  /** Truncating a value that already is an integer gives that integer back. */
  lemma TruncOfInt(n: int)
    ensures Trunc(n as real) == n
  {
  }

  /** A value between two integers truncates to a value between them. */
  lemma TruncBetween(lo: int, x: real, hi: int)
    requires lo as real <= x <= hi as real
    ensures lo <= Trunc(x) <= hi
  {
    TruncOfInt(lo);
    TruncOfInt(hi);
    TruncMonotone(lo as real, x);
    TruncMonotone(x, hi as real);
  }

  /** Multiplying by a non-negative factor keeps the order. */
  lemma MulMonotone(a: real, b: real, d: real)
    requires a <= b && 0.0 <= d
    ensures a * d <= b * d && d * a <= d * b
  {
    assert b * d - a * d == (b - a) * d;
  }

  /** Products of non-negative factors grow with both factors. */
  lemma ProductMonotone(a1: real, a2: real, b1: real, b2: real)
    requires 0.0 <= a1 <= a2 && 0.0 <= b1 <= b2
    ensures a1 * b1 <= a2 * b2
  {
    MulMonotone(b1, b2, a1);
    MulMonotone(a1, a2, b2);
  }

  /** A product with a positive factor is zero only when the other factor is. */
  lemma CancelFactor(x: real, m: real)
    requires 0.0 < m && x * m == 0.0
    ensures x == 0.0
  {
  }

  function Min(a: int, b: int): (m: int)
    ensures m <= a && m <= b && (m == a || m == b)
  {
    if a <= b then a else b
  }

  function MinReal3(a: real, b: real, c: real): (m: real)
    ensures m <= a && m <= b && m <= c
    ensures m == a || m == b || m == c
  {
    if a <= b && a <= c then a else if b <= c then b else c
  }
}
