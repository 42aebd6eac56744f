/** `round(x, 4)` on exact reals, ties to even. */
module Rounding {

  function Nearest(y: real): int {
    var f := y.Floor;
    var d := y - f as real;
    if d < 0.5 then f else if d > 0.5 then f + 1 else if f % 2 == 0 then f else f + 1
  }

  function Round4(x: real): real { Nearest(x * 10000.0) as real / 10000.0 }

  lemma NearestMonotone(x: real, y: real)
    requires x <= y
    ensures Nearest(x) <= Nearest(y)
  {
    assert x.Floor <= y.Floor;
  }

  lemma RoundMonotone(x: real, y: real)
    requires x <= y
    ensures Round4(x) <= Round4(y)
  {
    NearestMonotone(x * 10000.0, y * 10000.0);
  }

  /** Rounding moves a value by at most half a unit of the fourth decimal. */
  lemma RoundError(x: real)
    ensures -0.00005 <= Round4(x) - x <= 0.00005
  {
  }

  /** Values with four decimals are left alone. */
  lemma RoundExact(n: int)
    ensures Round4(n as real / 10000.0) == n as real / 10000.0
  {
    assert (n as real / 10000.0) * 10000.0 == n as real;
  }
}
