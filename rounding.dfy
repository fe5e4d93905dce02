/** Rounding as Python's `round(x)`, `round(x, 2)` and pandas' `Series.round`
    do it: to the nearest value, ties to the even neighbour. The model works
    on exact reals, so ties are exact ties (binary floating point is not modelled). */
module Rounding {

  /** `round(x)`: the nearest integer, an exact half going to the even one. */
  function RoundHalfEven(x: real): (r: int)
    ensures r as real - 0.5 <= x <= r as real + 0.5
    ensures (x == r as real - 0.5 || x == r as real + 0.5) ==> r % 2 == 0
  {
    var f := x.Floor;
    var d := x - f as real;
    if d < 0.5 then f
    else if d > 0.5 then f + 1
    else if f % 2 == 0 then f
    else f + 1
  }

  /** The two properties in RoundHalfEven's contract determine its result. */
  lemma RoundHalfEvenUnique(x: real, n: int)
    requires n as real - 0.5 <= x <= n as real + 0.5
    requires (x == n as real - 0.5 || x == n as real + 0.5) ==> n % 2 == 0
    ensures RoundHalfEven(x) == n
  {
  }

  /** Whole numbers are left as they are. */
  lemma RoundWhole(n: int)
    ensures RoundHalfEven(n as real) == n
  {
    RoundHalfEvenUnique(n as real, n);
  }

  /** `round(x, 2)`: the nearest multiple of 0.01, ties to even hundredths. */
  function Round2(x: real): (r: real)
    ensures x - 0.005 <= r <= x + 0.005
  {
    RoundHalfEven(x * 100.0) as real / 100.0
  }

  /** Rounding twice to 2 decimals is rounding once. */
  lemma Round2Idempotent(x: real)
    ensures Round2(Round2(x)) == Round2(x)
  {
    var n := RoundHalfEven(x * 100.0);
    assert Round2(x) * 100.0 == n as real;
    RoundWhole(n);
  }

  /** The rule is half-to-even, not half-up: 12.5 rounds to 12 and 13.5 to 14
      (a price of 10 with a 25% markup costs the customer 12). */
  lemma HalfToEvenExamples()
    ensures RoundHalfEven(12.5) == 12 && RoundHalfEven(13.5) == 14
    ensures RoundHalfEven(10.0 * 1.25) == 12
  {
    RoundHalfEvenUnique(12.5, 12);
    RoundHalfEvenUnique(13.5, 14);
  }
}
