/** Order sizing of the IG adapter, in exact arithmetic except for the `round(.., 8)` it performs. */
module IgSizing {
  import opened Basics
  import opened Rounding

  const TINY := 0.000000001

  /** Half a unit of the eighth digit. */
  const HALF_8 := 0.000000005

  function Abs(a: real): real { if a >= 0.0 then a else -a }

  /** The two market details that constrain an order size. */
  datatype Details = Details(minDealSize: Option<real>, sizeStep: Option<real>)

  datatype Normalization =
    | Normalized(size: real)
    | RoundedToZero
    | BelowMinimum(size: real)

  predicate HasStep(d: Details) { d.sizeStep.Some? && d.sizeStep.value > 0.0 }

  function FloorToStep(size: real, step: real): (r: real)
    requires step > 0.0
    ensures size - step < r <= size
  {
    FloorBounds(size, step);
    (size / step).Floor as real * step
  }

  lemma FloorBounds(size: real, step: real)
    requires step > 0.0
    ensures size - step < (size / step).Floor as real * step <= size
  {
    var q := Divide(size, step);
    var floor := q.Floor as real;
    StepBounds(q, floor, size, step);
    assert floor == (size / step).Floor as real;
  }

  lemma StepBounds(q: real, floor: real, size: real, step: real)
    requires step > 0.0 && q * step == size && floor <= q < floor + 1.0
    ensures size - step < floor * step <= size
  {
    Scale(floor, q, step);
    var below := q - 1.0;
    assert below * step == size - step;
    Scale(below, floor, step);
  }

  /** The size after stepping down and rounding to eight places, before it is judged. */
  function RoundedSize(d: Details, requested: real): real {
    var size := Max(requested, 0.0);
    Round8(if HasStep(d) then FloorToStep(size, d.sizeStep.value) else size)
  }

  function NormalizeOrderSize(d: Details, requested: real): Normalization {
    var size := RoundedSize(d, requested);
    if size <= 0.0 then RoundedToZero
    else if d.minDealSize.Some? && size < d.minDealSize.value then BelowMinimum(size)
    else Normalized(size)
  }

  /** A positive step that is a whole number of 1e-8 units. */
  ghost predicate StepOnGrid(d: Details) {
    HasStep(d) && OnGrid(d.sizeStep.value, SCALE_8)
  }

  lemma SteppedSizeIsExact(d: Details, requested: real)
    requires StepOnGrid(d)
    ensures RoundedSize(d, requested) == FloorToStep(Max(requested, 0.0), d.sizeStep.value)
  {
    var size, step := Max(requested, 0.0), d.sizeStep.value;
    var k := (size / step).Floor;
    GridMultiple(step, k, FloorToStep(size, step));
    Round8Fixpoint(FloorToStep(size, step));
  }

  /** Normalisation never enlarges an order exactly when the broker's step lies on the
      eight-digit grid: any other instrument has a size that is rounded up. */
  lemma NeverEnlargesIffStepOnGrid(d: Details)
    ensures (forall s :: s >= 0.0 ==> RoundedSize(d, s) <= s) <==> StepOnGrid(d)
  {
    if StepOnGrid(d) {
      forall s | s >= 0.0 ensures RoundedSize(d, s) <= s {
        SteppedSizeIsExact(d, s);
      }
    } else {
      var s := EnlargedSize(d, 0.0);
      assert RoundedSize(d, s) > s;
    }
  }

  /** Off the grid sizes above any bound are rounded up. */
  lemma EnlargedSize(d: Details, least: real) returns (size: real)
    requires !StepOnGrid(d)
    ensures size >= 0.0 && size >= least && RoundedSize(d, size) > size
  {
    if !HasStep(d) {
      var whole := NatAbove(least);
      size := whole as real + 0.000000006;
      assert size * SCALE_8 == (100_000_000 * whole) as real + 0.6;
      assert (size * SCALE_8).Floor == 100_000_000 * whole;
    } else {
      var step := d.sizeStep.value;
      var q := Divide(least, step);
      var n := NatAbove(q);
      var k := LaterRoundingUp(step * SCALE_8, n);
      size := k as real * step;
      Scale(q, k as real, step);
      MultipleFloors(k, step, size);
      assert size * SCALE_8 == Multiple(k, step * SCALE_8);
      EnlargedBy(size, HalfEven(size * SCALE_8));
    }
  }

  lemma NatAbove(x: real) returns (n: nat)
    ensures n as real >= x
  {
    n := if x <= 0.0 then 0 else x.Floor + 1;
  }

  lemma EnlargedBy(s: real, n: int)
    requires n == HalfEven(s * SCALE_8) && n as real > s * SCALE_8
    ensures Round8(s) > s
  {
  }

  lemma MultipleFloors(k: nat, step: real, size: real)
    requires step > 0.0 && size == k as real * step
    ensures size >= 0.0
    ensures FloorToStep(size, step) == size
  {
    Scale(0.0, k as real, step);
    Quotient(k as real, step, size);
  }

  lemma Quotient(q: real, step: real, size: real)
    requires step > 0.0 && size == q * step
    ensures size / step == q
  {
  }

  /* ----- Multiples that round up or down ----- */

  function Multiple(k: int, y: real): real { k as real * y }

  function Frac(z: real): real { z - z.Floor as real }

  lemma NextMultiple(k: int, y: real)
    ensures Multiple(k + 1, y) == Multiple(k, y) + y
  {
  }

  /** How the fraction moves when y is added. */
  lemma FracStep(z: real, y: real)
    ensures Frac(z + y) == if Frac(z) + Frac(y) < 1.0 then Frac(z) + Frac(y) else Frac(z) + Frac(y) - 1.0
  {
    var n := z.Floor + y.Floor;
    if Frac(z) + Frac(y) < 1.0 {
      assert (z + y).Floor == n;
    } else {
      assert (z + y).Floor == n + 1;
    }
  }

  lemma OneLess(a: real, c: real)
    requires c > 0.0
    ensures ((a - c) / c).Floor == (a / c).Floor - 1
    ensures a >= 0.0 ==> (a / c).Floor >= 0
  {
    var q := Divide(a, c);
    assert (a - c) / c == q - 1.0 by { Quotient(q - 1.0, c, a - c); }
    Scale(0.0, q, c);
  }

  /** Every non-integer has multiples as late as one likes that round up. */
  lemma LaterRoundingUp(y: real, n: nat) returns (k: nat)
    requires Frac(y) > 0.0
    ensures k >= n && HalfEven(Multiple(k, y)) as real > Multiple(k, y)
  {
    if Frac(y) == 0.5 {
      k := HalfRoundingUp(y, n);
    } else if Frac(y) < 0.5 {
      k := ClimbPastHalf(y, n);
    } else {
      k := FallPastZero(y, n);
    }
  }

  lemma HalfRoundingUp(y: real, n: nat) returns (k: nat)
    requires Frac(y) == 0.5
    ensures k >= n && HalfEven(Multiple(k, y)) as real > Multiple(k, y)
  {
    var q := y.Floor;
    var t := if (q + n) % 2 == 1 then n else n + 1;
    k := 2 * t + 1;
    var z := OddMultiple(y, q, t);
    assert z % 2 == 1 && Multiple(k, y).Floor == z;
  }

  lemma OddMultiple(y: real, q: int, t: int) returns (z: int)
    requires y == q as real + 0.5
    ensures Multiple(2 * t + 1, y) == z as real + 0.5
    ensures z % 2 == (q + t) % 2
  {
    var u := t * q;
    z := 2 * u + q + t;
    assert u as real == t as real * q as real;
    assert (2 * t + 1) as real == 2.0 * t as real + 1.0;
  }

  lemma ClimbPastHalf(y: real, n: nat) returns (k: nat)
    requires 0.0 < Frac(y) < 0.5
    ensures k >= n && HalfEven(Multiple(k, y)) as real > Multiple(k, y)
  {
    k := n;
    while Frac(Multiple(k, y)) <= 0.5
      invariant k >= n
      decreases ((0.5 - Frac(Multiple(k, y))) / Frac(y)).Floor + 1
    {
      NextMultiple(k, y);
      FracStep(Multiple(k, y), y);
      OneLess(0.5 - Frac(Multiple(k, y)), Frac(y));
      k := k + 1;
    }
  }

  lemma FallPastZero(y: real, n: nat) returns (k: nat)
    requires 0.5 < Frac(y) < 1.0
    ensures k >= n && HalfEven(Multiple(k, y)) as real > Multiple(k, y)
  {
    k := n;
    var gap := 1.0 - Frac(y);
    while Frac(Multiple(k, y)) <= 0.5
      invariant k >= n
      decreases if Frac(Multiple(k, y)) > 0.5 then 0 else (Frac(Multiple(k, y)) / gap).Floor + 1
    {
      NextMultiple(k, y);
      FracStep(Multiple(k, y), y);
      OneLess(Frac(Multiple(k, y)), gap);
      k := k + 1;
    }
  }

  /** Rounding treats both signs alike. */
  lemma HalfEvenOdd(z: real)
    ensures HalfEven(-z) == -HalfEven(z)
  {
    if z == z.Floor as real {
      assert (-z).Floor == -z.Floor;
    } else {
      assert (-z).Floor == -z.Floor - 1;
    }
  }

  lemma LaterRoundingDown(y: real, n: nat) returns (k: nat)
    requires Frac(y) > 0.0
    ensures k >= n && HalfEven(Multiple(k, y)) as real < Multiple(k, y)
  {
    assert (-y).Floor == -y.Floor - 1;
    k := LaterRoundingUp(-y, n);
    assert Multiple(k, -y) == -Multiple(k, y);
    HalfEvenOdd(Multiple(k, y));
  }

  /** Asking for more never yields less. */
  lemma NormalizationMonotone(d: Details, a: real, b: real)
    requires a <= b
    ensures RoundedSize(d, a) <= RoundedSize(d, b)
  {
    var x, y := Max(a, 0.0), Max(b, 0.0);
    if HasStep(d) {
      FloorToStepMonotone(x, y, d.sizeStep.value);
      Round8Monotone(FloorToStep(x, d.sizeStep.value), FloorToStep(y, d.sizeStep.value));
    } else {
      Round8Monotone(x, y);
    }
  }

  lemma StepCount(size: real, step: real) returns (n: int)
    requires step > 0.0
    ensures FloorToStep(size, step) == n as real * step
  {
    n := (size / step).Floor;
  }

  lemma FloorToStepMonotone(x: real, y: real, step: real)
    requires x <= y && step > 0.0
    ensures FloorToStep(x, step) <= FloorToStep(y, step)
  {
    hide FloorToStep;
    var m := StepCount(x, step);
    var n := StepCount(y, step);
    StepsOrdered(m, n, step, FloorToStep(x, step), FloorToStep(y, step));
  }

  lemma StepsOrdered(m: int, n: int, step: real, low: real, high: real)
    requires step > 0.0 && low == m as real * step && high == n as real * step && low < high + step
    ensures low <= high
  {
    var a, b := m as real, n as real;
    assert (b + 1.0) * step == high + step;
    Scale(a, b + 1.0, step);
    assert m < n + 1;
    Scale(a, b, step);
  }

  /** A second normalisation changes nothing with a step on the grid, with none, or with one of at
      most half a unit of the eighth digit. */
  lemma NormalizationIdempotent(d: Details, requested: real)
    requires !HasStep(d) || StepOnGrid(d) || d.sizeStep.value <= HALF_8
    ensures RoundedSize(d, RoundedSize(d, requested)) == RoundedSize(d, requested)
  {
    var size := Max(requested, 0.0);
    if StepOnGrid(d) {
      var step := d.sizeStep.value;
      var k := (size / step).Floor;
      var q := Divide(size, step);
      Scale(0.0, q, step);
      SteppedSizeIsExact(d, requested);
      var stepped := FloorToStep(size, step);
      MultipleFloors(k, step, stepped);
      SteppedSizeIsExact(d, stepped);
    } else if HasStep(d) {
      FinelyStepped(d, requested);
    } else {
      Round8OnGrid(size);
      Round8Monotone(0.0, size);
    }
  }

  lemma FinelyStepped(d: Details, requested: real)
    requires HasStep(d) && d.sizeStep.value <= HALF_8
    ensures RoundedSize(d, RoundedSize(d, requested)) == RoundedSize(d, requested)
  {
    var size, step := Max(requested, 0.0), d.sizeStep.value;
    SteppedNonNegative(size, step);
    var n := HalfEven(FloorToStep(size, step) * SCALE_8);
    HalfEvenMonotone(0.0, FloorToStep(size, step) * SCALE_8);
    var r := RoundedSize(d, requested);
    assert r == n as real / SCALE_8 && r >= 0.0;
    var again := FloorToStep(r, step) * SCALE_8;
    assert n as real - 0.5 < again <= n as real;
    assert HalfEven(again) == n;
  }

  lemma SteppedNonNegative(size: real, step: real)
    requires size >= 0.0 && step > 0.0
    ensures FloorToStep(size, step) >= 0.0
  {
    var q := Divide(size, step);
    Scale(0.0, q, step);
    var floor := q.Floor as real;
    Scale(0.0, floor, step);
    ProductsOrdered(0.0, floor, step, 0.0, floor * step);
  }

  /** With a larger step off the grid some size loses a further step when it is normalised again. */
  lemma DriftingSize(d: Details) returns (size: real)
    requires HasStep(d) && d.sizeStep.value > 0.00000001 && !StepOnGrid(d)
    ensures RoundedSize(d, RoundedSize(d, size)) < RoundedSize(d, size)
  {
    var step := d.sizeStep.value;
    var k := LaterRoundingDown(step * SCALE_8, 1);
    size := k as real * step;
    var below := (k - 1) as real * step;
    assert below == size - step;
    if k > 1 {
      Scale(0.0, (k - 1) as real, step);
    }
    MultipleFloors(k, step, size);
    assert Round8(size) < size by {
      assert size * SCALE_8 == Multiple(k, step * SCALE_8);
    }
    hide Multiple, Round8, FloorToStep;
    var r := RoundedSize(d, size);
    assert r == Round8(size);
    BetweenMultiples(r, k, step);
    assert RoundedSize(d, r) == Round8(below);
  }

  lemma BetweenMultiples(r: real, k: nat, step: real)
    requires step > 0.0 && k > 0 && (k - 1) as real * step <= r < k as real * step
    ensures FloorToStep(r, step) == (k - 1) as real * step
  {
    var q := Divide(r, step);
    Scale((k - 1) as real, q, step);
    Scale(q, k as real, step);
    assert q.Floor == k - 1;
  }

  /** With a step on the grid less than one step is lost. */
  lemma NormalizationLosesLessThanOneStep(d: Details, requested: real)
    requires StepOnGrid(d) && requested >= 0.0
    ensures requested - d.sizeStep.value < RoundedSize(d, requested) <= requested
  {
    SteppedSizeIsExact(d, requested);
  }

  /** Whatever the step, a size that survives normalisation is at most twice the size asked for,
      because only the eight-digit rounding enlarges it and the least survivor is 1e-8. */
  lemma NormalizationAtMostDoubles(d: Details, requested: real)
    requires !NormalizeOrderSize(d, requested).RoundedToZero?
    ensures 0.00000001 <= RoundedSize(d, requested) <= 2.0 * requested
    ensures requested >= 0.000000005
  {
    var size := Max(requested, 0.0);
    var r := RoundedSize(d, requested);
    var stepped := if HasStep(d) then FloorToStep(size, d.sizeStep.value) else size;
    assert stepped <= size;
    var n := HalfEven(stepped * SCALE_8);
    assert r == n as real / SCALE_8;
    assert n >= 1;
    assert stepped * SCALE_8 >= 0.5;
  }

  /** The least size that can survive normalisation. */
  function LeastSurvivor(d: Details): (m: real)
    ensures m >= 0.00000001
  {
    Max(if d.minDealSize.Some? then d.minDealSize.value else 0.0, 0.00000001)
  }

  /** By how much normalisation may enlarge a size: not at all on the grid, and off it by half a unit
      of the eighth digit on the least survivor, so twofold at worst. */
  ghost function Lift(d: Details): (f: real)
    ensures 1.0 <= f <= 2.0
  {
    if StepOnGrid(d) then 1.0
    else
      var m := LeastSurvivor(d);
      var f := Divided(m, m - HALF_8);
      Scale(1.0, f, m - HALF_8);
      Scale(f, 2.0, m - HALF_8);
      f
  }

  function Divided(a: real, c: real): (q: real)
    requires c > 0.0
    ensures q * c == a
  {
    a / c
  }

  /** Normalisation enlarges an accepted size by that factor at most. */
  lemma NormalizationLift(d: Details, requested: real)
    requires NormalizeOrderSize(d, requested).Normalized?
    ensures 0.0 < RoundedSize(d, requested) <= Lift(d) * requested
  {
    hide *;
    Survives(d, requested);
    if StepOnGrid(d) {
      ExactLift(d, requested);
    } else {
      LiftIs(d);
      NearRequest(d, requested);
      LiftOf(LeastSurvivor(d), RoundedSize(d, requested), requested, Lift(d));
    }
  }

  lemma Survives(d: Details, requested: real)
    requires NormalizeOrderSize(d, requested).Normalized?
    ensures requested >= 0.0 && RoundedSize(d, requested) >= LeastSurvivor(d) > HALF_8
  {
    NormalizationAtMostDoubles(d, requested);
    hide RoundedSize;
  }

  lemma ExactLift(d: Details, requested: real)
    requires StepOnGrid(d) && requested >= 0.0
    ensures Lift(d) == 1.0 && RoundedSize(d, requested) <= requested
  {
    SteppedSizeIsExact(d, requested);
  }

  lemma LiftIs(d: Details)
    ensures !StepOnGrid(d) ==> Lift(d) * (LeastSurvivor(d) - HALF_8) == LeastSurvivor(d)
  {
  }

  /** The factor is reached: without a step, half a unit below an even minimum rounds up to it. */
  lemma LiftReached(d: Details, k: nat)
    requires d.sizeStep.None? && k > 0 && d.minDealSize == Some(k as real * 0.00000002)
    ensures
      var requested := LeastSurvivor(d) - HALF_8;
      NormalizeOrderSize(d, requested).Normalized? && RoundedSize(d, requested) == Lift(d) * requested
  {
    var requested := LeastSurvivor(d) - HALF_8;
    assert requested * SCALE_8 == (2 * k - 1) as real + 0.5;
    assert HalfEven(requested * SCALE_8) == 2 * k;
    LiftIs(d);
  }

  lemma NearRequest(d: Details, requested: real)
    requires requested >= 0.0
    ensures RoundedSize(d, requested) <= requested + HALF_8
  {
  }

  lemma LiftOf(m: real, r: real, requested: real, f: real)
    requires m > HALF_8 && r >= m && requested >= r - HALF_8 && f >= 1.0 && f * (m - HALF_8) == m
    ensures r <= f * requested
  {
    var extra := r - m;
    ProductsOrdered(1.0, f, extra, extra, f * extra);
    ProductsOrdered(r - HALF_8, requested, f, f * (r - HALF_8), f * requested);
    assert f * (r - HALF_8) == f * (m - HALF_8) + f * extra;
  }

  /** The smallest order the allocator may place when the request is under the minimum. */
  function RoundUp(value: real, step: real): real
    requires step > 0.0
  {
    var down := FloorToStep(value, step);
    if Abs(down - value) < TINY then down else down + step
  }

  lemma RoundUpLands(value: real, step: real)
    requires step > 0.0
    ensures value - TINY < RoundUp(value, step) < value + step
    ensures IsMultiple(RoundUp(value, step), step)
  {
    var k := (value / step).Floor;
    assert FloorToStep(value, step) == k as real * step;
    assert (k + 1) as real * step == k as real * step + step;
    assert Abs(FloorToStep(value, step) - value) < TINY ==> Times(k, step) == RoundUp(value, step);
    assert Abs(FloorToStep(value, step) - value) >= TINY ==> Times(k + 1, step) == RoundUp(value, step);
  }

  function Times(k: int, step: real): real { k as real * step }

  ghost predicate IsMultiple(size: real, step: real) {
    exists k :: Times(k, step) == size
  }

  function MinimumOrder(d: Details): real
    requires d.minDealSize.Some?
  {
    var least := d.minDealSize.value;
    if HasStep(d) then Max(least, RoundUp(least, d.sizeStep.value)) else least
  }

  /** The check made when the order is placed. */
  predicate PassesMinimum(d: Details, size: real) {
    d.minDealSize.None? || size >= d.minDealSize.value
  }

  /** The least positive size that normalisation yields, whatever the minimum. */
  function LeastOrder(d: Details): real {
    Max(0.00000001, if HasStep(d) then Round8(d.sizeStep.value) else 0.0)
  }

  lemma LeastOrderIsLeast(d: Details, requested: real)
    requires RoundedSize(d, requested) > 0.0
    ensures RoundedSize(d, requested) >= LeastOrder(d)
  {
    var size := Max(requested, 0.0);
    var stepped := if HasStep(d) then FloorToStep(size, d.sizeStep.value) else size;
    hide FloorToStep, Round8;
    LeastPositive(stepped);
    if HasStep(d) {
      SteppedAtLeast(size, d.sizeStep.value);
    }
  }

  lemma LeastPositive(y: real)
    requires Round8(y) > 0.0
    ensures Round8(y) >= 0.00000001
  {
    var n := HalfEven(y * SCALE_8);
    assert Round8(y) == n as real / SCALE_8;
  }

  lemma SteppedAtLeast(size: real, step: real)
    requires step > 0.0 && Round8(FloorToStep(size, step)) > 0.0
    ensures Round8(FloorToStep(size, step)) >= Round8(step)
  {
    var stepped := FloorToStep(size, step);
    var k := StepCount(size, step);
    hide FloorToStep;
    if k <= 0 {
      ProductsOrdered(k as real, 0.0, step, stepped, 0.0);
      Round8Monotone(stepped, 0.0);
    } else {
      ProductsOrdered(1.0, k as real, step, step, stepped);
      Round8Monotone(step, stepped);
    }
  }

  /** Some request of at least 1e-8 is normalised to it. */
  lemma LeastOrderOccurs(d: Details) returns (size: real)
    ensures size >= 0.00000001 && RoundedSize(d, size) == LeastOrder(d)
  {
    size := 0.00000001;
    if HasStep(d) {
      var step := d.sizeStep.value;
      if step >= 0.00000001 {
        size := step;
        MultipleFloors(1, step, step);
        Round8Monotone(0.00000001, step);
        assert Round8(0.00000001) == 0.00000001;
      } else {
        SmallStep(step);
      }
    }
  }

  lemma SmallStep(step: real)
    requires 0.0 < step < 0.00000001
    ensures Round8(FloorToStep(0.00000001, step)) == 0.00000001 >= Round8(step)
  {
    var stepped := FloorToStep(0.00000001, step);
    if step > HALF_8 {
      BetweenMultiples(0.00000001, 2, step);
    } else {
      assert stepped > HALF_8;
    }
    assert HALF_8 * SCALE_8 == 0.5 && 0.5 < stepped * SCALE_8 <= 1.0;
    assert HalfEven(stepped * SCALE_8) == 1;
    assert HalfEven(step * SCALE_8) <= 1;
  }

  /** Stop distance used for sizing: never below the broker's minimum nor below 1e-9. */
  function EffectiveStopDistance(entryPrice: real, stopLoss: Option<real>,
                                 fallback: Option<real>, minStop: Option<real>): (distance: real)
    ensures distance >= TINY
    ensures minStop.Some? ==> distance >= minStop.value
  {
    if stopLoss.Some? then
      var distance := Abs(entryPrice - stopLoss.value);
      Max(if minStop.Some? then Max(distance, minStop.value) else distance, TINY)
    else
      var distance := Max(if fallback.Some? then fallback.value else 0.0, TINY);
      if minStop.Some? then Max(distance, minStop.value) else distance
  }

  function RiskPerUnit(stopDistance: real, priceIncrement: real, valuePerIncrement: real): real {
    stopDistance / Max(priceIncrement, TINY) * valuePerIncrement
  }

  function QuotedSize(riskAmount: real, riskPerUnit: real): real {
    Max(riskAmount / Max(riskPerUnit, TINY), 0.0)
  }

  lemma QuotedSizeSpendsRisk(riskAmount: real, riskPerUnit: real)
    requires riskAmount >= 0.0
    ensures QuotedSize(riskAmount, riskPerUnit) * Max(riskPerUnit, TINY) == riskAmount
  {
    var u := Max(riskPerUnit, TINY);
    assert riskAmount / u >= 0.0;
  }

  lemma DivideMonotone(a: real, b: real, c: real)
    requires a <= b && c > 0.0
    ensures a / c <= b / c
  {
    var x := Divide(a, c);
    var y := Divide(b, c);
    Scale(x, y, c);
    Scale(y, x, c);
  }

  lemma DivideAntitone(money: real, small: real, large: real)
    requires money >= 0.0 && 0.0 < small <= large
    ensures money / large <= money / small
  {
    var x := Divide(money, small);
    var y := Divide(money, large);
    Scale(0.0, y, large);
    Scale(y, 0.0, large);
    ProductsOrdered(small, large, y, small * y, large * y);
    Scale(y, x, small);
    Scale(x, y, small);
  }

  /** A larger stop distance carries at least as much risk per unit. */
  lemma RiskPerUnitMonotone(small: real, large: real, priceIncrement: real, valuePerIncrement: real)
    requires small <= large && valuePerIncrement >= 0.0
    ensures RiskPerUnit(small, priceIncrement, valuePerIncrement)
         <= RiskPerUnit(large, priceIncrement, valuePerIncrement)
  {
    var increment := Max(priceIncrement, TINY);
    DivideMonotone(small, large, increment);
    var x, y := small / increment, large / increment;
    ProductsOrdered(x, y, valuePerIncrement, x * valuePerIncrement, y * valuePerIncrement);
  }

  /** Whatever the stop asked for, no quote is larger than the broker's minimum stop distance allows. */
  lemma QuoteRespectsMinimumStop(riskAmount: real, entryPrice: real, stopLoss: Option<real>, fallback: Option<real>,
                                 minStop: real, priceIncrement: real, valuePerIncrement: real)
    requires riskAmount >= 0.0 && valuePerIncrement >= 0.0
    ensures
      var stop := EffectiveStopDistance(entryPrice, stopLoss, fallback, Some(minStop));
      QuotedSize(riskAmount, RiskPerUnit(stop, priceIncrement, valuePerIncrement))
      <= QuotedSize(riskAmount, RiskPerUnit(minStop, priceIncrement, valuePerIncrement))
  {
    var stop := EffectiveStopDistance(entryPrice, stopLoss, fallback, Some(minStop));
    RiskPerUnitMonotone(minStop, stop, priceIncrement, valuePerIncrement);
    hide RiskPerUnit, EffectiveStopDistance;
    var least := RiskPerUnit(minStop, priceIncrement, valuePerIncrement);
    var unit := RiskPerUnit(stop, priceIncrement, valuePerIncrement);
    DivideAntitone(riskAmount, Max(least, TINY), Max(unit, TINY));
  }
}
