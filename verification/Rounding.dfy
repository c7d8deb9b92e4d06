/** round(x, 2) on exact numbers: to the nearest hundredth, ties to the even one. */
module Rounding {

  function NearestEven(y: real): int {
    var floor := y.Floor;
    var part := y - floor as real;
    if part < 0.5 then floor
    else if part > 0.5 then floor + 1
    else if floor % 2 == 0 then floor
    else floor + 1
  }

  function Round2(x: real): real {
    NearestEven(x * 100.0) as real / 100.0
  }

  /** x is a whole number of hundredths. */
  predicate IsCents(x: real) {
    x * 100.0 == (x * 100.0).Floor as real
  }

  lemma RoundingMovesLittle(x: real)
    ensures IsCents(Round2(x))
    ensures x - 0.005 <= Round2(x) <= x + 0.005
  {
    var y := x * 100.0;
    var n := NearestEven(y);
    NearestIsNear(y);
    CentsAreWhole(n);
    assert Round2(x) == n as real / 100.0;
  }

  lemma NearestIsNear(y: real)
    ensures y - 0.5 <= NearestEven(y) as real <= y + 0.5
  {
  }

  /** Rounding to a whole number goes to the nearest one and, half-way between two, to the even one. */
  lemma NearestEvenExactly(y: real, n: int)
    ensures NearestEven(y) == n <==>
      || n as real - 0.5 < y < n as real + 0.5
      || ((y == n as real - 0.5 || y == n as real + 0.5) && n % 2 == 0)
  {
  }

  lemma CentsAreWhole(n: int)
    ensures IsCents(n as real / 100.0)
  {
    assert (n as real / 100.0) * 100.0 == n as real;
  }

  /** Hundredths are left alone. */
  lemma RoundingKeepsCents(x: real)
    requires IsCents(x)
    ensures Round2(x) == x
  {
  }

  lemma RoundingIsMonotone(x: real, y: real)
    requires x <= y
    ensures Round2(x) <= Round2(y)
  {
    var m, n := NearestEven(x * 100.0), NearestEven(y * 100.0);
    assert x * 100.0 <= y * 100.0;
    assert m <= n;
  }

  lemma CentsAddUp(x: real, y: real)
    requires IsCents(x) && IsCents(y)
    ensures IsCents(x + y)
  {
    var n := (x * 100.0).Floor + (y * 100.0).Floor;
    assert (x + y) * 100.0 == n as real;
  }

  lemma Scale(x: real, y: real, w: real)
    requires x < y && w > 0.0
    ensures x * w < y * w
  {
    assert (y - x) * w > 0.0;
  }
}
