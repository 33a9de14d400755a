/** `round(x, digits)`: the nearest grid point, ties to the even one. */
module Rounding {
  import opened Sums

  function RoundHalfEven(x: real): int {
    var low := x.Floor;
    var rest := x - low as real;
    if rest < 0.5 || (rest == 0.5 && low % 2 == 0) then low else low + 1
  }

  lemma RoundNear(x: real)
    ensures -0.5 <= RoundHalfEven(x) as real - x <= 0.5
  {
  }

  /** A grid point on one side of the argument stays on that side of the result. */
  lemma RoundBetween(x: real, lo: int, hi: int)
    ensures lo as real <= x ==> lo <= RoundHalfEven(x)
    ensures x <= hi as real ==> RoundHalfEven(x) <= hi
  {
  }

  /** The result is the nearest whole number, and of two equally near ones the even one. */
  lemma RoundHalfEvenExactly(x: real, n: int)
    ensures RoundHalfEven(x) == n <==>
      -0.5 <= n as real - x <= 0.5 && (n as real - x == 0.5 || n as real - x == -0.5 ==> n % 2 == 0)
  {
  }

  /** Rounding to the grid of multiples of 1 / scale. */
  function RoundTo(x: real, scale: real): real
    requires scale > 0.0
  {
    RoundHalfEven(x * scale) as real / scale
  }

  lemma RoundToNear(x: real, scale: real)
    requires scale > 0.0
    ensures -0.5 / scale <= RoundTo(x, scale) - x <= 0.5 / scale
  {
    var n := RoundHalfEven(x * scale) as real;
    RoundNear(x * scale);
    assert n / scale - x == (n - x * scale) / scale;
    QuotientOrder(-0.5, n - x * scale, scale);
    QuotientOrder(n - x * scale, 0.5, scale);
  }
}
