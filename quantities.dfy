/** Decimal rounding as the application does it: `parseFloat(x.toFixed(d))`.
    Quantities are exact reals here; `toFixed` rounds half away from zero. */
module Quantities {

  /** The integer nearest to `y`, halves rounded away from zero. */
  function RoundHalfAway(y: real): (k: int)
    ensures y - 0.5 <= k as real <= y + 0.5
    ensures y > 0.0 ==> y - 0.5 < k as real
    ensures y < 0.0 ==> k as real < y + 0.5
    ensures y >= 0.0 ==> k >= 0
    ensures y <= 0.0 ==> k <= 0
    ensures y.Floor as real == y ==> k == y.Floor
  {
    if y < 0.0 then -((-y + 0.5).Floor) else (y + 0.5).Floor
  }

  /** `parseFloat(x.toFixed(2))`: kilograms to the hundredth. */
  function Round2(x: real): (r: real)
    ensures x - 0.005 <= r <= x + 0.005
    ensures x >= 0.0 ==> r >= 0.0
    ensures x <= 0.0 ==> r <= 0.0
  {
    (RoundHalfAway(x * 100.0) as real) / 100.0
  }

  /** `x.toFixed(1)`: one decimal, as the profitability ROI shows it. */
  function Round1(x: real): (r: real)
    ensures x - 0.05 <= r <= x + 0.05
    ensures x >= 0.0 ==> r >= 0.0
    ensures x <= 0.0 ==> r <= 0.0
  {
    (RoundHalfAway(x * 10.0) as real) / 10.0
  }

  /** A quantity already given in hundredths is left as it is. */
  lemma Round2Exact(cents: int)
    ensures Round2(cents as real / 100.0) == cents as real / 100.0
  {
    var y := (cents as real / 100.0) * 100.0;
    assert y == cents as real;
    assert y.Floor == cents;
  }
}
