/** Python's `round`: nearest grid point, ties to the even one, on exact reals.

    Everything proved elsewhere about rounded prices and quantities rests on the four laws
    below: rounding is monotone, fixes the grid, errs by at most half a unit and commutes
    with negation. */
module Rounding {

  function HalfEven(x: real): (n: int)
    ensures n as real - 0.5 <= x <= n as real + 0.5
    ensures x == n as real - 0.5 || x == n as real + 0.5 ==> n % 2 == 0
  {
    var f := x.Floor;
    var d := x - f as real;
    if d < 0.5 then f
    else if d > 0.5 then f + 1
    else if f % 2 == 0 then f
    else f + 1
  }

  /** `round(x, 2)`: prices and dollar amounts. */
  function Round2(x: real): real {
    HalfEven(x * 100.0) as real / 100.0
  }

  /** `round(x, 4)`: quantities, percentages and multipliers. */
  function Round4(x: real): real {
    HalfEven(x * 10000.0) as real / 10000.0
  }

  ghost predicate OnCents(x: real) {
    x * 100.0 == (x * 100.0).Floor as real
  }

  ghost predicate OnGrid4(x: real) {
    x * 10000.0 == (x * 10000.0).Floor as real
  }

  lemma HalfEvenLaws(x: real, y: real)
    ensures x <= y ==> HalfEven(x) <= HalfEven(y)
    ensures HalfEven(-x) == -HalfEven(x)
    ensures x == x.Floor as real ==> HalfEven(x) as real == x
  {
    // two integers at distance one half from the same tie would both have to be even
  }

  lemma Round2Laws(x: real, y: real)
    ensures x <= y ==> Round2(x) <= Round2(y)
    ensures Round2(-x) == -Round2(x)
    ensures OnCents(x) ==> Round2(x) == x
    ensures OnCents(Round2(x))
    ensures x - 0.005 <= Round2(x) <= x + 0.005
  {
    HalfEvenLaws(x * 100.0, y * 100.0);
    assert (-x) * 100.0 == -(x * 100.0);
    assert Round2(x) * 100.0 == HalfEven(x * 100.0) as real;
  }

  lemma Round4Laws(x: real, y: real)
    ensures x <= y ==> Round4(x) <= Round4(y)
    ensures Round4(-x) == -Round4(x)
    ensures OnGrid4(x) ==> Round4(x) == x
    ensures OnGrid4(Round4(x))
    ensures x - 0.00005 <= Round4(x) <= x + 0.00005
  {
    HalfEvenLaws(x * 10000.0, y * 10000.0);
    assert (-x) * 10000.0 == -(x * 10000.0);
    assert Round4(x) * 10000.0 == HalfEven(x * 10000.0) as real;
  }
}
