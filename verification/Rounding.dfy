/** Python's round(x, n) on exact numbers: to the nearest multiple of 1/scale, ties to the even one. */
module Rounding {

  function HalfEven(x: real): (n: int)
    ensures n as real - 0.5 <= x <= n as real + 0.5
  {
    var f := x.Floor;
    var d := x - f as real;
    if d < 0.5 then f else if d > 0.5 then f + 1 else if f % 2 == 0 then f else f + 1
  }

  lemma HalfEvenMonotone(x: real, y: real)
    requires x <= y
    ensures HalfEven(x) <= HalfEven(y)
  {
    assert x.Floor <= y.Floor;
  }

  /** Halfway between two integers the even one is taken. */
  lemma TiesToEven(n: int)
    ensures HalfEven(n as real + 0.5) == if n % 2 == 0 then n else n + 1
  {
  }

  lemma HalfEvenOfInt(n: int)
    ensures HalfEven(n as real) == n
  {
  }

  function Round2(x: real): (r: real)
    ensures -0.005 <= r - x <= 0.005
    ensures (r * 100.0).Floor as real == r * 100.0
  {
    HalfEven(x * 100.0) as real / 100.0
  }

  function Round4(x: real): (r: real)
    ensures -0.00005 <= r - x <= 0.00005
    ensures (r * 10000.0).Floor as real == r * 10000.0
  {
    HalfEven(x * 10000.0) as real / 10000.0
  }

  function Round6(x: real): (r: real)
    ensures -0.0000005 <= r - x <= 0.0000005
    ensures (r * 1000000.0).Floor as real == r * 1000000.0
  {
    HalfEven(x * 1000000.0) as real / 1000000.0
  }

  lemma RoundMonotone(x: real, y: real)
    requires x <= y
    ensures Round2(x) <= Round2(y) && Round4(x) <= Round4(y) && Round6(x) <= Round6(y)
  {
    hide HalfEven;
    HalfEvenMonotone(x * 100.0, y * 100.0);
    HalfEvenMonotone(x * 10000.0, y * 10000.0);
    HalfEvenMonotone(x * 1000000.0, y * 1000000.0);
  }
}
