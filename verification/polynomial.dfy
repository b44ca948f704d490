/**
  Evaluation of a fitted polynomial. A fit is kept as its coefficient
  sequence, highest degree first (the order `np.polyfit` returns and
  `np.poly1d` consumes); the least-squares fit itself is not modelled.
 */
module Polynomial {

  /** `x` raised to the power `n`. */
  function Pow(x: real, n: nat): real
  {
    if n == 0 then 1.0 else x * Pow(x, n - 1)
  }

  /** The textbook meaning of the coefficients: the sum of `c[i] * x^(d - i)`
      where `d = |c| - 1` is the degree. */
  function Terms(c: seq<real>, x: real): real
  {
    if |c| == 0 then 0.0 else c[0] * Pow(x, |c| - 1) + Terms(c[1..], x)
  }

  /** Horner's rule, starting from the accumulator `acc` and consuming the
      coefficients highest degree first. */
  function HornerFrom(acc: real, c: seq<real>, x: real): real
    decreases |c|
  {
    if |c| == 0 then acc else HornerFrom(acc * x + c[0], c[1..], x)
  }

  /** Evaluation of a polynomial at `x`, as `np.poly1d.__call__` does it. */
  function Polyval(c: seq<real>, x: real): real
  {
    HornerFrom(0.0, c, x)
  }

  /** Horner's rule from an accumulator computes that accumulator shifted up
      by the length of the rest, plus the rest's textbook value. */
  lemma {:induction false} HornerFromTerms(acc: real, c: seq<real>, x: real)
    ensures HornerFrom(acc, c, x) == acc * Pow(x, |c|) + Terms(c, x)
    decreases |c|
  {
    if |c| > 0 {
      var n := |c| - 1;
      HornerFromTerms(acc * x + c[0], c[1..], x);
      calc {
        HornerFrom(acc, c, x);
        HornerFrom(acc * x + c[0], c[1..], x);
        (acc * x + c[0]) * Pow(x, n) + Terms(c[1..], x);
        acc * (x * Pow(x, n)) + c[0] * Pow(x, n) + Terms(c[1..], x);
        acc * Pow(x, |c|) + Terms(c, x);
      }
    }
  }

  /** Evaluating by Horner's rule agrees with the textbook sum of terms. */
  lemma PolyvalIsTerms(c: seq<real>, x: real)
    ensures Polyval(c, x) == Terms(c, x)
  {
    HornerFromTerms(0.0, c, x);
  }

  /** A cubic fit `[a, b, c, d]` evaluates to `a x^3 + b x^2 + c x + d`. */
  lemma PolyvalCubic(a: real, b: real, c: real, d: real, x: real)
    ensures Polyval([a, b, c, d], x) == a * x * x * x + b * x * x + c * x + d
  {
    var cs := [a, b, c, d];
    assert cs[1..] == [b, c, d];
    assert [b, c, d][1..] == [c, d];
    assert [c, d][1..] == [d];
    assert [d][1..] == [];
    calc {
      Polyval(cs, x);
      HornerFrom(a, [b, c, d], x);
      HornerFrom(a * x + b, [c, d], x);
      HornerFrom((a * x + b) * x + c, [d], x);
      ((a * x + b) * x + c) * x + d;
    }
  }
}
