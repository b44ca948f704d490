/**
  Python's `round` over exact reals: `round(x)` is the nearest integer with
  ties going to the even neighbour, and `round(x, 1)` does the same on the
  first decimal place.
 */
module Rounding {

  /** `x` is a whole number. */
  predicate IsWhole(x: real)
  {
    x.Floor as real == x
  }

  /** Whole numbers are closed under addition. */
  lemma WholeSum(a: real, b: real)
    requires IsWhole(a) && IsWhole(b)
    ensures IsWhole(a + b)
  {
    assert a + b == (a.Floor + b.Floor) as real;
  }

  /** Whole numbers are closed under subtraction. */
  lemma WholeDifference(a: real, b: real)
    requires IsWhole(a) && IsWhole(b)
    ensures IsWhole(a - b)
  {
    assert a - b == (a.Floor - b.Floor) as real;
  }

  /** The absolute value of a real. */
  function Abs(x: real): real
  {
    if x < 0.0 then -x else x
  }

  /** `round(x)`: the nearest integer, halves rounded to even. */
  function RoundHalfEven(x: real): (r: int)
    ensures Abs(r as real - x) <= 0.5
    ensures Abs(r as real - x) == 0.5 ==> r % 2 == 0
  {
    var f := x.Floor;
    var d := x - f as real;
    if d < 0.5 then f
    else if d > 0.5 then f + 1
    else if f % 2 == 0 then f
    else f + 1
  }

  /** No integer is closer to `x` than `round(x)`. */
  lemma RoundIsNearest(x: real, k: int)
    ensures Abs(RoundHalfEven(x) as real - x) <= Abs(k as real - x)
  {
    var r := RoundHalfEven(x);
    var f := x.Floor;
    assert k <= f || k >= f + 1;
  }

  /** A whole number rounds to itself. */
  lemma RoundWhole(x: real)
    requires IsWhole(x)
    ensures RoundHalfEven(x) as real == x
  {
  }

  /** Rounding is monotone: it never inverts the order of two values. */
  lemma RoundMonotone(x: real, y: real)
    requires x <= y
    ensures RoundHalfEven(x) <= RoundHalfEven(y)
  {
  }

  /** `round(x, 1)`: `x` rounded half-to-even to one decimal place. */
  function RoundTenths(x: real): (r: real)
    ensures Abs(r - x) <= 0.05
    ensures IsWhole(r * 10.0)
    ensures Abs(r - x) == 0.05 ==> (r * 10.0).Floor % 2 == 0
  {
    var n := RoundHalfEven(x * 10.0);
    TenthsOf(n, x * 10.0);
    n as real / 10.0
  }

  /** Scaling the rounding of `10x` back by a tenth keeps a whole number of
      tenths, `n` of them, and a tenth of the distance to `x`. */
  lemma TenthsOf(n: int, y: real)
    requires Abs(n as real - y) <= 0.5
    ensures (n as real / 10.0) * 10.0 == n as real
    ensures IsWhole((n as real / 10.0) * 10.0)
    ensures Abs(n as real / 10.0 - y / 10.0) <= 0.05
    ensures Abs(n as real / 10.0 - y / 10.0) == 0.05 ==> Abs(n as real - y) == 0.5
  {
    assert (n as real / 10.0) * 10.0 == n as real;
    assert n as real / 10.0 - y / 10.0 == (n as real - y) / 10.0;
  }
}
