/** Decimal rounding as the backend uses it: `round(x, 6)` for percents and money,
    `round(x, 8)` for order sizes. Ties go to the even neighbour. */
module Rounding {
  const SCALE_6 := 1_000_000.0
  const SCALE_8 := 100_000_000.0

  /** Multiplying both sides of a comparison by a positive factor. */
  lemma Scale(a: real, b: real, c: real)
    requires c > 0.0
    ensures a <= b <==> a * c <= b * c
    ensures a < b <==> a * c < b * c
  {
    if a < b { assert (b - a) * c > 0.0; }
    if a > b { assert (a - b) * c > 0.0; }
  }

  lemma ProductsOrdered(a: real, b: real, c: real, x: real, y: real)
    requires a <= b && c >= 0.0 && x == a * c && y == b * c
    ensures x <= y
  {
    if c > 0.0 {
      Scale(a, b, c);
    }
  }

  lemma Divide(a: real, c: real) returns (q: real)
    requires c > 0.0
    ensures q == a / c && q * c == a
  {
    q := a / c;
  }

  /** Nearest integer to y, ties to even. */
  function HalfEven(y: real): (n: int)
    ensures -0.5 <= n as real - y <= 0.5
  {
    var low := y.Floor;
    var rest := y - low as real;
    if rest < 0.5 then low
    else if rest > 0.5 then low + 1
    else if low % 2 == 0 then low
    else low + 1
  }

  /** y rounded to a whole number of 1/scale units. */
  function RoundAt(y: real, scale: real): real
    requires scale > 0.0
  {
    HalfEven(y * scale) as real / scale
  }

  /** y is a whole number of 1/scale units. */
  ghost predicate OnGrid(y: real, scale: real) {
    y * scale == (y * scale).Floor as real
  }

  function Round6(y: real): (r: real)
    ensures -0.0000005 <= r - y <= 0.0000005
  {
    RoundAt(y, SCALE_6)
  }

  function Round8(y: real): (r: real)
    ensures -0.000000005 <= r - y <= 0.000000005
  {
    RoundAt(y, SCALE_8)
  }

  lemma HalfEvenMonotone(a: real, b: real)
    requires a <= b
    ensures HalfEven(a) <= HalfEven(b)
  {
    if a.Floor == b.Floor {
    } else {
      assert a.Floor + 1 <= b.Floor;
    }
  }

  lemma Round8Monotone(a: real, b: real)
    requires a <= b
    ensures Round8(a) <= Round8(b)
  {
    HalfEvenMonotone(a * SCALE_8, b * SCALE_8);
  }

  lemma Round6NonNegative(a: real)
    requires a >= 0.0
    ensures Round6(a) >= 0.0
  {
    HalfEvenMonotone(0.0, a * SCALE_6);
  }

  /** Rounding leaves exactly the grid points alone. */
  lemma Round8Fixpoint(a: real)
    ensures Round8(a) == a <==> OnGrid(a, SCALE_8)
  {
    var y := a * SCALE_8;
    if OnGrid(a, SCALE_8) {
      assert HalfEven(y) as real == y;
    }
    if Round8(a) == a {
      assert HalfEven(y) as real == y;
      assert y.Floor == HalfEven(y);
    }
  }

  lemma Round8OnGrid(a: real)
    ensures OnGrid(Round8(a), SCALE_8)
    ensures Round8(Round8(a)) == Round8(a)
  {
    var n := HalfEven(a * SCALE_8);
    assert Round8(a) * SCALE_8 == n as real;
    Round8Fixpoint(Round8(a));
  }

  lemma Round6OnGrid(a: real)
    ensures OnGrid(Round6(a), SCALE_6)
  {
    var n := HalfEven(a * SCALE_6);
    assert Round6(a) * SCALE_6 == n as real;
  }

  lemma GridMultiple(step: real, k: int, size: real)
    requires OnGrid(step, SCALE_8) && size == k as real * step
    ensures OnGrid(size, SCALE_8)
  {
    var q := (step * SCALE_8).Floor;
    calc {
      size * SCALE_8;
      k as real * (step * SCALE_8);
      k as real * q as real;
      (k * q) as real;
    }
  }
}
