/** IEEE-754 binary64 rounding, as far as the repository depends on it.
    A double is modelled by the real number it denotes.  Every value met here
    lies well inside the normal range, so subnormals, infinities and NaN do
    not arise. */
module Float64 {
  const TWO_52 := 4503599627370496.0
  const TWO_53 := 9007199254740992.0

  /** Nearest integer, ties to the even one: the default IEEE rounding direction. */
  function RoundHalfEven(y: real): (n: int)
    ensures -0.5 <= y - n as real <= 0.5
  {
    var f := y.Floor;
    var d := y - f as real;
    if d < 0.5 || (d == 0.5 && f % 2 == 0) then f else f + 1
  }

  /** The double nearest to x: 53 significant bits, ties to even. */
  function ToDouble(x: real): real
  {
    if x == 0.0 then 0.0
    else if x < 0.0 then -Nearest(-x)
    else Nearest(x)
  }

  /** A positive x is scaled by powers of two, which is exact, until its 53
      significant bits are its integer part. */
  function Nearest(x: real): (q: real)
    requires x > 0.0
    decreases x < TWO_52, if x < TWO_52 then (TWO_53 / x).Floor else x.Floor
  {
    if x >= TWO_53 then 2.0 * Nearest(x / 2.0)
    else if x >= TWO_52 then RoundHalfEven(x) as real
    else
      QuotientHalves(x);
      Nearest(2.0 * x) / 2.0
  }

  lemma QuotientHalves(x: real)
    requires 0.0 < x < TWO_52
    ensures (TWO_53 / (2.0 * x)).Floor < (TWO_53 / x).Floor
  {
    var r := TWO_53 / x;
    assert (r - 2.0) * x > 0.0;
    assert (r / 2.0) * (2.0 * x) == TWO_53;
    assert (r / 2.0).Floor as real <= r / 2.0 < r - 1.0;
  }

  /** The relative error of one rounding is at most 2^-53. */
  lemma {:induction false} RelativeError(x: real)
    requires x > 0.0
    ensures -x <= (Nearest(x) - x) * TWO_53 <= x
    decreases x < TWO_52, if x < TWO_52 then (TWO_53 / x).Floor else x.Floor
  {
    if x >= TWO_53 {
      RelativeError(x / 2.0);
    } else if x < TWO_52 {
      QuotientHalves(x);
      RelativeError(2.0 * x);
    }
  }

  /** a / 2^j */
  function Halved(a: real, j: nat): real {
    if j == 0 then a else Halved(a, j - 1) / 2.0
  }

  /** Below 2^(53-j) one rounding moves a number by at most 2^-(j+1): half a
      unit in the last place of that binade. */
  lemma {:induction false} HalfUlp(x: real, j: nat)
    requires 0.0 < x < Halved(TWO_53, j)
    ensures -Halved(0.5, j) <= Nearest(x) - x <= Halved(0.5, j)
    decreases j
  {
    if j > 0 {
      HalvedAtMost(TWO_53, j);
      HalfUlp(2.0 * x, j - 1);
    } else if x < TWO_52 {
      RelativeError(x);
    }
  }

  lemma {:induction false} HalvedAtMost(a: real, j: nat)
    requires a > 0.0 && j > 0
    ensures 0.0 < Halved(a, j) <= a / 2.0
  {
    if j > 1 { HalvedAtMost(a, j - 1); }
  }

  /** Integers below 2^53 in magnitude are doubles. */
  lemma IntegersExact(n: int)
    requires -TWO_53 < n as real < TWO_53
    ensures ToDouble(n as real) == n as real
  {
    if n > 0 {
      PositiveIntegersExact(n);
    } else if n < 0 {
      PositiveIntegersExact(-n);
    }
  }

  lemma {:induction false} PositiveIntegersExact(n: int)
    requires 0 < n && n as real < TWO_53
    ensures Nearest(n as real) == n as real
    decreases TWO_53.Floor - n
  {
    if n as real < TWO_52 {
      PositiveIntegersExact(2 * n);
    }
  }
  /** Rounding is the IEEE one: it is odd, it commutes with doubling, and where 53
      significant bits are just the integers it gives the nearest, the even one of two that
      are equally near. */
  lemma RoundsToNearestEven(x: real)
    requires x > 0.0
    ensures ToDouble(-x) == -ToDouble(x) && ToDouble(2.0 * x) == 2.0 * ToDouble(x)
    ensures TWO_52 <= x < TWO_53 ==>
              var n := ToDouble(x).Floor;
              && ToDouble(x) == n as real && -0.5 <= x - n as real <= 0.5
              && (x - n as real == 0.5 || x - n as real == -0.5 ==> n % 2 == 0)
  {
    if x < TWO_52 {
      assert Nearest(x) == Nearest(2.0 * x) / 2.0;
    } else {
      assert Nearest(2.0 * x) == 2.0 * Nearest(x);
    }
    if TWO_52 <= x < TWO_53 { TiesToEven(x); }
  }

  lemma TiesToEven(y: real)
    ensures var n := RoundHalfEven(y); y - n as real == 0.5 || y - n as real == -0.5 ==> n % 2 == 0
  {
    var f := y.Floor;
  }
}
