/** For which size steps normalising an order twice is normalising it once. Above one unit of the eighth
    digit these are the steps on the grid; between half a unit and one they are p / (2p - 1) units. */
module RepeatedRounding {
  import opened Basics
  import opened Rounding
  import opened IgSizing

  /** A step of y units of the eighth digit is p / (2p - 1) of one. */
  predicate Packs(p: nat, y: real) { p > 0 && y * (2 * p - 1) as real == p as real }

  ghost predicate Packed(y: real) { exists p: nat :: Packs(p, y) }

  /** The step in units of the eighth digit. */
  function Units(d: Details): real
    requires HasStep(d)
  {
    d.sizeStep.value * SCALE_8
  }

  /** Normalising twice is normalising once, for all requests, exactly without a step, with one on the grid,
      with one of at most half a unit of the eighth digit, or with one of p / (2p - 1) units. */
  lemma NormalizationIdempotentIff(d: Details)
    ensures (forall s :: RoundedSize(d, RoundedSize(d, s)) == RoundedSize(d, s))
       <==> !HasStep(d) || StepOnGrid(d) || d.sizeStep.value <= HALF_8 || Packed(Units(d))
  {
    if !HasStep(d) || StepOnGrid(d) || d.sizeStep.value <= HALF_8 {
      forall s ensures RoundedSize(d, RoundedSize(d, s)) == RoundedSize(d, s) {
        NormalizationIdempotent(d, s);
      }
    } else if Packed(Units(d)) {
      var p: nat :| Packs(p, Units(d));
      forall s ensures RoundedSize(d, RoundedSize(d, s)) == RoundedSize(d, s) {
        PackedIdempotent(d, p, s);
      }
    } else {
      var s;
      if d.sizeStep.value > 0.00000001 {
        s := DriftingSize(d);
      } else {
        s := SmallDriftingSize(d);
      }
      assert RoundedSize(d, RoundedSize(d, s)) != RoundedSize(d, s);
    }
  }

  /* ----- Steps that pack ----- */

  /** What is left of m units after the k whole steps in them. */
  lemma Rest(m: nat, step: real) returns (k: nat, r: real)
    requires step > 0.0
    ensures FloorToStep(m as real / SCALE_8, step) == k as real * step
    ensures r == m as real - k as real * (step * SCALE_8) && 0.0 <= r < step * SCALE_8
  {
    var size := m as real / SCALE_8;
    var q := Divide(size, step);
    Scale(0.0, q, step);
    assert (size / step).Floor >= 0;
    k := (size / step).Floor;
    var stepped := FloorToStep(size, step);
    assert stepped == k as real * step;
    Associated(k as real, step);
    r := m as real - k as real * (step * SCALE_8);
    assert r == (size - stepped) * SCALE_8;
  }

  lemma Associated(k: real, step: real)
    ensures k * (step * SCALE_8) == k * step * SCALE_8
  {
  }

  /** The rest is a whole number of 1 / (2p - 1) units, and so less than half. */
  lemma PackedRest(p: nat, y: real, m: nat, k: nat, r: real)
    requires Packs(p, y) && r == m as real - k as real * y && 0.0 <= r < y
    ensures r < 0.5
  {
    var c := (2 * p - 1) as real;
    var n := m * (2 * p - 1) - k * p;
    assert r * c == n as real by {
      calc {
        r * c;
        m as real * c - k as real * (y * c);
        m as real * c - k as real * p as real;
        n as real;
      }
    }
    Scale(r, y, c);
    assert n < p;
    Scale(0.5, r, c);
  }

  lemma PackedIdempotent(d: Details, p: nat, requested: real)
    requires HasStep(d) && Packs(p, Units(d))
    ensures RoundedSize(d, RoundedSize(d, requested)) == RoundedSize(d, requested)
  {
    var m := UnitsOf(d, requested);
    PackedWhole(d, p, m);
  }

  /** A normalised size is a whole number of units. */
  lemma UnitsOf(d: Details, requested: real) returns (m: nat)
    requires HasStep(d)
    ensures RoundedSize(d, requested) == m as real / SCALE_8
  {
    var stepped := FloorToStep(Max(requested, 0.0), d.sizeStep.value);
    SteppedNonNegative(Max(requested, 0.0), d.sizeStep.value);
    HalfEvenMonotone(0.0, stepped * SCALE_8);
    m := HalfEven(stepped * SCALE_8);
  }

  lemma PackedWhole(d: Details, p: nat, m: nat)
    requires HasStep(d) && Packs(p, Units(d))
    ensures RoundedSize(d, m as real / SCALE_8) == m as real / SCALE_8
  {
    var step := d.sizeStep.value;
    var k, r := Rest(m, step);
    PackedRest(p, step * SCALE_8, m, k, r);
    Associated(k as real, step);
    hide FloorToStep, Packs;
    assert FloorToStep(m as real / SCALE_8, step) * SCALE_8 == m as real - r;
    assert HalfEven(m as real - r) == m;
  }

  /* ----- All other small steps drift ----- */

  /** A rest of more than half a unit, or of half a unit of an odd number. */
  ghost predicate Drifts(y: real, m: nat, k: nat) {
    var r := m as real - k as real * y;
    r < y && (r > 0.5 || (r == 0.5 && m % 2 == 1))
  }

  lemma DriftingRound(y: real, m: nat, k: nat)
    requires 0.5 < y < 1.0 && Drifts(y, m, k)
    ensures HalfEven((k + 1) as real * y) == m && HalfEven(k as real * y) == m - 1
  {
    var r := m as real - k as real * y;
    assert (k + 1) as real * y == k as real * y + y;
    Below(m, y - r);
    assert (k + 1) as real * y == m as real + (y - r) && k as real * y == m as real - r;
    assert (m as real - r).Floor == m - 1;
  }

  lemma Below(m: nat, part: real)
    requires 0.0 <= part < 0.5
    ensures HalfEven(m as real + part) == m
  {
    assert (m as real + part).Floor == m;
  }

  lemma SmallDriftingSize(d: Details) returns (size: real)
    requires HasStep(d) && HALF_8 < d.sizeStep.value <= 0.00000001 && !StepOnGrid(d) && !Packed(Units(d))
    ensures RoundedSize(d, RoundedSize(d, size)) < RoundedSize(d, size)
  {
    var step := d.sizeStep.value;
    assert step != 0.00000001 by { assert OnGrid(0.00000001, SCALE_8); }
    var y := step * SCALE_8;
    var m, k := DriftingPair(y);
    DriftingRound(y, m, k);
    size := (k + 1) as real * step;
    Associated((k + 1) as real, step);
    Associated(k as real, step);
    MultipleFloors(k + 1, step, size);
    DriftBetween(step, m, k);
    BetweenMultiples(m as real / SCALE_8, k + 1, step);
    hide FloorToStep, Drifts, HalfEven, Packed;
    RoundedFrom(d, size, (k + 1) as real * y, m);
    RoundedFrom(d, m as real / SCALE_8, k as real * y, m - 1);
  }

  lemma RoundedFrom(d: Details, size: real, stepped: real, n: int)
    requires HasStep(d) && size >= 0.0
    requires FloorToStep(size, d.sizeStep.value) * SCALE_8 == stepped && HalfEven(stepped) == n
    ensures RoundedSize(d, size) == n as real / SCALE_8
  {
    hide FloorToStep, HalfEven;
  }

  lemma DriftBetween(step: real, m: nat, k: nat)
    requires Drifts(step * SCALE_8, m, k)
    ensures k as real * step <= m as real / SCALE_8 < (k + 1) as real * step
  {
    Associated(k as real, step);
    assert (k + 1) as real * step == k as real * step + step;
  }

  /** The rests fall by e = 2y - 1 at a time, and from turn to turn by what y leaves over a multiple of e. */
  lemma DriftingPair(y: real) returns (m: nat, k: nat)
    requires 0.5 < y < 1.0 && !Packed(y)
    ensures Drifts(y, m, k)
  {
    var e := 2.0 * y - 1.0;
    var q, rho := Turns(y, e);
    WholePacks(y, e, q);
    if 2.0 * rho == e {
      m, k := TiedPair(y, e, q);
    } else {
      var n := FirstPastHalf(e, rho);
      m := n * q + 1;
      assert n * q >= n by { AtLeast(n, q); }
      k := 2 * m - n - 1;
      LaterRest(y, e, q, rho, n);
    }
  }

  lemma AtLeast(n: nat, q: nat)
    requires q > 0
    ensures n * q >= n
  {
  }

  lemma Turns(y: real, e: real) returns (q: nat, rho: real)
    requires 0.0 < e < y
    ensures q > 0 && rho == y - q as real * e && 0.0 <= rho < e
  {
    var ratio := Divide(y, e);
    Scale(1.0, ratio, e);
    q := ratio.Floor;
    StepBounds(ratio, q as real, y, e);
    rho := y - q as real * e;
  }

  lemma WholePacks(y: real, e: real, q: nat)
    requires q > 0 && e == 2.0 * y - 1.0
    ensures y == q as real * e ==> Packs(q, y)
  {
    var c := q as real;
    assert c * e == 2.0 * (c * y) - c;
    assert y * (2 * q - 1) as real == 2.0 * (c * y) - y;
  }

  /** The first multiple of rho past half of e is still below e. */
  lemma FirstPastHalf(e: real, rho: real) returns (n: nat)
    requires 0.0 < rho < e && 2.0 * rho != e
    ensures n > 0 && e < 2.0 * (n as real * rho) && n as real * rho < e
  {
    var half := e / 2.0;
    var ratio := Divide(half, rho);
    Scale(0.0, ratio, rho);
    var before := ratio.Floor as real;
    StepBounds(ratio, before, half, rho);
    var past := before * rho;
    n := ratio.Floor + 1;
    OneMore(ratio.Floor, rho);
    assert n as real * rho == past + rho && half - rho < past <= half;
    hide *;
    if n == 1 {
      assert past == 0.0;
    } else {
      assert 1.0 <= before;
      ProductsOrdered(1.0, before, rho, rho, past);
      assert rho <= half && 2.0 * rho != 2.0 * half;
    }
  }

  lemma OneMore(k: int, c: real)
    ensures (k + 1) as real * c == k as real * c + c
  {
  }

  lemma LaterRest(y: real, e: real, q: nat, rho: real, n: nat)
    requires 0.5 < y < 1.0 && e == 2.0 * y - 1.0 && rho == y - q as real * e && q > 0
    requires n > 0 && e < 2.0 * (n as real * rho) && n as real * rho < e && n * q >= n
    ensures Drifts(y, n * q + 1, 2 * (n * q + 1) - n - 1)
  {
    var m := n * q + 1;
    var k := 2 * m - n - 1;
    var r := m as real - k as real * y;
    assert r == n as real * rho + 1.0 - y by {
      RestIs(y, e, q, n, m);
      Distributes(n as real, y, q as real, e);
    }
  }

  lemma RestIs(y: real, e: real, q: nat, n: nat, m: nat)
    requires m == n * q + 1 && e == 2.0 * y - 1.0
    ensures m as real - (2 * m - n - 1) as real * y == n as real * y - n as real * q as real * e + 1.0 - y
  {
    var a, b, c := m as real, n as real, q as real;
    assert a == b * c + 1.0;
    calc {
      a - (2.0 * a - b - 1.0) * y;
      a - 2.0 * a * y + b * y + y;
      b * y + y - a * (2.0 * y - 1.0);
      b * y + y - a * e;
      b * y + y - (b * c + 1.0) * e;
      b * y + y - b * c * e - e;
    }
  }

  lemma Distributes(n: real, y: real, q: real, e: real)
    ensures n * (y - q * e) == n * y - n * q * e
  {
  }

  /** With half a unit left over, one of two numbers that leave it is odd. */
  lemma TiedPair(y: real, e: real, q: nat) returns (m: nat, k: nat)
    requires 0.5 < y < 1.0 && e == 2.0 * y - 1.0 && q > 0 && 2.0 * (y - q as real * e) == e
    ensures Drifts(y, m, k)
  {
    var turns := q as real * y;
    Tied(y, e, q as real, turns);
    Multiples(y, q);
    if q % 2 == 0 {
      m, k := q + 1, 2 * q;
    } else {
      m, k := 3 * q + 2, 6 * q;
    }
  }

  lemma Tied(y: real, e: real, q: real, turns: real)
    requires turns == q * y && e == 2.0 * y - 1.0 && 2.0 * (y - q * e) == e
    ensures 4.0 * turns == 2.0 * q + 1.0
  {
    assert q * e == 2.0 * turns - q;
  }

  lemma Multiples(y: real, q: nat)
    ensures (2 * q) as real * y == 2.0 * (q as real * y) && (6 * q) as real * y == 6.0 * (q as real * y)
  {
  }
}
