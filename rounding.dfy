/** Decimal rounding of exact reals, as the two halves of the application apply it:
    JavaScript's `Number(x.toFixed(k))` (ties away from zero) and Python's `round(x, k)`
    (ties to even). Both return the multiple of 10^-k nearest to x, so both are monotone. */
module Rounding {

  function Pow10(k: nat): (p: int)
    ensures p >= 1
  {
    if k == 0 then 1 else 10 * Pow10(k - 1)
  }

  /** The number of 10^-k units `Number(x.toFixed(k))` keeps: the nearest integer to x * 10^k,
      the one of larger magnitude on a tie (so below x only by less than half a unit when x
      is not negative, and above x only by less than half a unit when x is not positive). */
  function HalfAwayUnits(x: real, k: nat): (n: int)
    ensures -0.5 <= n as real - x * Pow10(k) as real <= 0.5
    ensures x >= 0.0 ==> -0.5 < n as real - x * Pow10(k) as real
    ensures x <= 0.0 ==> n as real - x * Pow10(k) as real < 0.5
    ensures x >= 0.0 ==> n >= 0
    ensures x <= 0.0 ==> n <= 0
  {
    var y := x * Pow10(k) as real;
    if x >= 0.0 then (y + 0.5).Floor else -((-y + 0.5).Floor)
  }

  /** The number of 10^-k units `round(x, k)` keeps: the nearest integer to x * 10^k,
      the even one on a tie. */
  function HalfEvenUnits(x: real, k: nat): (n: int)
    ensures -0.5 <= n as real - x * Pow10(k) as real <= 0.5
    ensures n as real - x * Pow10(k) as real == 0.5 ==> n % 2 == 0
    ensures n as real - x * Pow10(k) as real == -0.5 ==> n % 2 == 0
  {
    var y := x * Pow10(k) as real;
    var f := y.Floor;
    var d := y - f as real;
    if d > 0.5 then f + 1
    else if d < 0.5 then f
    else if f % 2 == 0 then f
    else f + 1
  }

  /** `Number(x.toFixed(k))` over exact reals. */
  function ToFixed(x: real, k: nat): (r: real)
    ensures -0.5 <= (r - x) * Pow10(k) as real <= 0.5
  {
    HalfAwayUnits(x, k) as real / Pow10(k) as real
  }

  /** Python's `round(x, k)` over exact reals. */
  function RoundHalfEven(x: real, k: nat): (r: real)
    ensures -0.5 <= (r - x) * Pow10(k) as real <= 0.5
  {
    HalfEvenUnits(x, k) as real / Pow10(k) as real
  }

  /** Nearest integers of two strictly ordered reals are ordered. */
  lemma NearestMonotone(a: real, b: real, na: int, nb: int)
    requires a < b
    requires -0.5 <= na as real - a <= 0.5
    requires -0.5 <= nb as real - b <= 0.5
    ensures na <= nb
  {
  }

  lemma ScaleStrictlyMonotone(x: real, y: real, p: real)
    requires x < y && p > 0.0
    ensures x * p < y * p
  {
    assert (y - x) * p > 0.0;
  }

  lemma ToFixedMonotone(x: real, y: real, k: nat)
    requires x <= y
    ensures ToFixed(x, k) <= ToFixed(y, k)
  {
    if x < y {
      var p := Pow10(k) as real;
      var nx, ny := HalfAwayUnits(x, k), HalfAwayUnits(y, k);
      ScaleStrictlyMonotone(x, y, p);
      NearestMonotone(x * p, y * p, nx, ny);
      DivideMonotone(nx as real, ny as real, p);
    }
  }

  lemma RoundHalfEvenMonotone(x: real, y: real, k: nat)
    requires x <= y
    ensures RoundHalfEven(x, k) <= RoundHalfEven(y, k)
  {
    if x < y {
      var p := Pow10(k) as real;
      var nx, ny := HalfEvenUnits(x, k), HalfEvenUnits(y, k);
      ScaleStrictlyMonotone(x, y, p);
      NearestMonotone(x * p, y * p, nx, ny);
      DivideMonotone(nx as real, ny as real, p);
    }
  }

  /** Rounding leaves an integer unchanged. */
  lemma RoundHalfEvenInteger(n: int, k: nat)
    ensures RoundHalfEven(n as real, k) == n as real
  {
    var p := Pow10(k);
    var u := HalfEvenUnits(n as real, k);
    assert (n * p) as real == n as real * p as real;
    assert u == n * p;
    assert u as real / p as real == n as real;
  }

  /** A value that already has at most k decimals is left unchanged by toFixed. */
  lemma ToFixedExact(n: int, k: nat)
    ensures ToFixed(n as real / Pow10(k) as real, k) == n as real / Pow10(k) as real
  {
    var p := Pow10(k) as real;
    var x := n as real / p;
    assert x * p == n as real;
    var u := HalfAwayUnits(x, k);
    assert u == n;
  }

  /** 0.123456 to four decimals is 0.1235, and the tie 0.00005 goes away from zero on both sides. */
  lemma ToFixedExamples()
    ensures ToFixed(0.123456, 4) == 0.1235
    ensures ToFixed(0.00005, 4) == 0.0001
    ensures ToFixed(-0.00005, 4) == -0.0001
  {
    assert Pow10(4) == 10000;
    assert HalfAwayUnits(0.123456, 4) == 1235;
    assert HalfAwayUnits(0.00005, 4) == 1;
    assert HalfAwayUnits(-0.00005, 4) == -1;
  }

  lemma DivideMonotone(a: real, b: real, p: real)
    requires a <= b && p > 0.0
    ensures a / p <= b / p
  {
    assert b / p - a / p == (b - a) / p;
  }
}
