/** Rounding to four digits, halves to the even neighbour, as Python's `round` does. */
module Rounding {
  import opened Wrappers

  /** The nearest integer; of two, the even one. */
  function Nearest(x: real): int {
    var down, rest := x.Floor, x - x.Floor as real;
    if rest < 0.5 || (rest == 0.5 && down % 2 == 0) then down else down + 1
  }

  function Rounded(x: real): real {
    Nearest(x * 10000.0) as real / 10000.0
  }

  function RoundedCell(cell: Option<real>): Option<real> {
    match cell
    case None => None
    case Some(x) => Some(Rounded(x))
  }

  lemma NearestIsOdd(x: real)
    ensures Nearest(-x) == -Nearest(x)
  {
    var down, rest := x.Floor, x - x.Floor as real;
    if rest == 0.0 {
      assert (-x).Floor == -down;
    } else {
      assert (-x).Floor == -down - 1;
      assert -x - (-x).Floor as real == 1.0 - rest;
    }
  }

  lemma NearestIsMonotone(x: real, y: real)
    requires x <= y
    ensures Nearest(x) <= Nearest(y)
  {
    assert x.Floor <= y.Floor;
  }

  lemma RoundedIsMonotone(x: real, y: real)
    requires x <= y
    ensures Rounded(x) <= Rounded(y)
  {
    NearestIsMonotone(x * 10000.0, y * 10000.0);
  }

  lemma RoundedIsOdd(x: real)
    ensures Rounded(-x) == -Rounded(x)
  {
    NearestIsOdd(x * 10000.0);
    assert (-x) * 10000.0 == -(x * 10000.0);
  }

  /** Half of the last digit. */
  const HALF := 0.00005

  /** No value moves by more than half of the last digit. */
  lemma RoundedIsNear(x: real)
    ensures x - HALF <= Rounded(x) <= x + HALF
  {
    var scaled := x * 10000.0;
    assert scaled - 0.5 <= Nearest(scaled) as real <= scaled + 0.5;
  }

  /** The rounded value is the nearest one of four digits; halfway between two it is the
      one with an even last digit. */
  lemma RoundedIsTheNearest(x: real)
    ensures var n := Nearest(x * 10000.0);
            && Rounded(x) == n as real / 10000.0
            && n as real - 0.5 <= x * 10000.0 <= n as real + 0.5
            && (x * 10000.0 == n as real - 0.5 || x * 10000.0 == n as real + 0.5 ==> n % 2 == 0)
  {
  }
}
