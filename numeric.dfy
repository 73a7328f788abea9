/**
 * Python's numeric conversions on exact values: `round()` (ties to even),
 * `round(x, 1)`, `round(x, 2)` and `int()` (truncation toward zero).
 * Binary floating point is not modelled; the values are exact reals.
 */
module Numeric {

  /** Python's `round(x)`: the nearest integer, ties going to the even one. */
  function RoundHalfEven(x: real): (r: int)
    ensures (r as real) - 0.5 <= x <= (r as real) + 0.5
    ensures x - (x.Floor as real) == 0.5 ==> r % 2 == 0
    ensures x - (x.Floor as real) != 0.5 ==> (x - 0.5 < r as real < x + 0.5)
  {
    var f := x.Floor;
    var d := x - f as real;
    if d < 0.5 then f
    else if d > 0.5 then f + 1
    else if f % 2 == 0 then f
    else f + 1
  }

  /** Rounding leaves whole numbers unchanged. */
  lemma RoundWhole(n: int)
    ensures RoundHalfEven(n as real) == n
  {
  }

  /** Python's `round(x, 1)`. */
  function Round1(x: real): (r: real)
    ensures x - 0.05 <= r <= x + 0.05
  {
    (RoundHalfEven(x * 10.0) as real) / 10.0
  }

  /** Python's `round(x, 2)`. */
  function Round2(x: real): (r: real)
    ensures x - 0.005 <= r <= x + 0.005
  {
    (RoundHalfEven(x * 100.0) as real) / 100.0
  }

  lemma Round2Whole(n: int)
    ensures Round2(n as real) == n as real
  {
    RoundWhole(n * 100);
    assert (n as real) * 100.0 == (n * 100) as real;
  }

  /** Python's `int(x)` on a number: truncation toward zero. */
  function Truncate(x: real): (r: int)
    ensures x >= 0.0 ==> 0.0 <= r as real <= x < r as real + 1.0
    ensures x < 0.0 ==> r as real - 1.0 < x <= r as real <= 0.0
  {
    if x >= 0.0 then x.Floor else -((-x).Floor)
  }

  function MaxReal(a: real, b: real): (r: real)
    ensures r >= a && r >= b && (r == a || r == b)
  {
    if a >= b then a else b
  }
}
