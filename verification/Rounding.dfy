/** Rounding to a number of decimals, ties to even, on exact numbers. */
module Rounding {
  /** The nearest integer; of two equally near, the even one. */
  function HalfEven(x: real): int {
    var low := x.Floor;
    var rest := x - low as real;
    if rest < 0.5 || (rest == 0.5 && low % 2 == 0) then low else low + 1
  }

  /** `round(x, digits)` for `scale == 10^digits`. */
  function RoundTo(x: real, scale: real): real
    requires scale > 0.0
  {
    HalfEven(x * scale) as real / scale
  }

  lemma HalfEvenNear(x: real)
    ensures x - 0.5 <= HalfEven(x) as real <= x + 0.5
  {
  }

  lemma HalfEvenExact(n: int)
    ensures HalfEven(n as real) == n
  {
    assert (n as real).Floor == n;
  }

  lemma HalfEvenKeepsBounds(x: real, lo: int, hi: int)
    requires lo as real <= x <= hi as real
    ensures lo <= HalfEven(x) <= hi
  {
    FloorBetween(lo, x, hi);
    if x.Floor == hi {
      assert x - x.Floor as real <= 0.0;
    }
  }

  lemma FloorBetween(lo: int, x: real, hi: int)
    requires lo as real <= x <= hi as real
    ensures lo <= x.Floor <= hi
  {
  }

  /** Of two equally near integers the even one. */
  lemma TiesToEven(n: int)
    ensures HalfEven(n as real + 0.5) % 2 == 0
  {
    assert (n as real + 0.5).Floor == n;
  }
}
