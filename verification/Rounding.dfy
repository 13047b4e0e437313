/** Python's built-in `round` on real numbers (nearest, ties to the even neighbour), `min` and `max`. */
module Rounding {

  function MinReal(x: real, y: real): real {
    if x <= y then x else y
  }

  function MaxReal(x: real, y: real): real {
    if x >= y then x else y
  }

  /** `round(x)`: the contract determines the result uniquely. */
  function Round(x: real): (r: int)
    ensures x - 0.5 <= r as real <= x + 0.5
    ensures r as real == x + 0.5 || r as real == x - 0.5 ==> r % 2 == 0
  {
    var below := x.Floor;
    var rest := x - below as real;
    if rest < 0.5 then below
    else if rest > 0.5 then below + 1
    else if below % 2 == 0 then below
    else below + 1
  }

  /** `round(x, d)` where `unit` is ten to the power d. */
  function RoundTo(x: real, unit: real): (r: real)
    requires unit > 0.0
  {
    Round(x * unit) as real / unit
  }

  lemma RoundMonotone(x: real, y: real)
    requires x <= y
    ensures Round(x) <= Round(y)
  {
  }

  lemma RoundInteger(n: int)
    ensures Round(n as real) == n
  {
  }

  lemma RoundToMonotone(x: real, y: real, unit: real)
    requires unit > 0.0 && x <= y
    ensures RoundTo(x, unit) <= RoundTo(y, unit)
  {
    ScaleUp(x, y, unit);
    RoundMonotone(x * unit, y * unit);
    DivideMonotone(Round(x * unit) as real, Round(y * unit) as real, unit);
  }

  lemma ScaleUp(x: real, y: real, u: real)
    requires x <= y && u >= 0.0
    ensures x * u <= y * u
  {
    assert (y - x) * u >= 0.0;
  }

  lemma DivideMonotone(x: real, y: real, u: real)
    requires x <= y && u > 0.0
    ensures x / u <= y / u
  {
    var d := (y - x) / u;
    assert d >= 0.0;
    assert (x / u + d) * u == y;
  }

  /** Rounding never leaves an interval with whole bounds. */
  lemma RoundBetween(x: real, lo: int, hi: int, unit: int)
    requires lo as real <= x <= hi as real && unit > 0
    ensures lo as real <= RoundTo(x, unit as real) <= hi as real
  {
    RoundToMonotone(lo as real, x, unit as real);
    RoundToMonotone(x, hi as real, unit as real);
    RoundToInteger(lo, unit);
    RoundToInteger(hi, unit);
  }

  lemma RoundToInteger(n: int, unit: int)
    requires unit > 0
    ensures RoundTo(n as real, unit as real) == n as real
  {
    assert n as real * unit as real == (n * unit) as real;
    RoundInteger(n * unit);
  }
}
