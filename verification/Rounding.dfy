/** Decimal rounding over exact reals: Python's round(x, d) counted in units of 10^-d. */
module Rounding {

  ghost function Abs(x: real): real {
    if x < 0.0 then -x else x
  }

  /** The nearest whole number, ties going to the even neighbour. */
  function RoundHalfEven(x: real): (n: int)
    ensures -0.5 <= x - n as real <= 0.5
    ensures (x - n as real == 0.5 || x - n as real == -0.5) ==> n % 2 == 0
  {
    var f := x.Floor;
    var r := x - f as real;
    if r < 0.5 || (r == 0.5 && f % 2 == 0) then f else f + 1
  }

  /** n is a whole number nearest to x, the even one of two. */
  predicate Nearest(x: real, n: int) {
    -0.5 <= x - n as real <= 0.5 && ((x - n as real == 0.5 || x - n as real == -0.5) ==> n % 2 == 0)
  }

  lemma RoundMonotone(x: real, y: real)
    requires x <= y
    ensures RoundHalfEven(x) <= RoundHalfEven(y)
  {
    var m, n := RoundHalfEven(x), RoundHalfEven(y);
    assert m > n ==> x - m as real >= -0.5 && y - n as real <= 0.5;
  }

  lemma RoundWhole(n: int)
    ensures RoundHalfEven(n as real) == n
  {
  }

  /** Multiplying by a positive number keeps and reflects order. */
  lemma Scaled(a: real, b: real, k: real)
    requires 0.0 < k
    ensures a * k <= b * k <==> a <= b
  {
  }

  lemma ScaleRight(a: real, b: real, k: real)
    requires 0.0 <= k && a <= b
    ensures a * k <= b * k
  {
  }

  lemma ScaleApart(t: real, j: real, k: real)
    ensures t * k - t * j == t * (k - j)
  {
  }

  /** The whole number of ticks of length e that cover a stretch of length x. */
  function Ceil(x: real): (n: int)
    ensures n as real - 1.0 < x <= n as real
  {
    -((-x).Floor)
  }
}
