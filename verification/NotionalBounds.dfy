/** Notional limits within one cycle: per trade and gross. Rounding up to the minimum order can pass
    them by at most the tolerance, and the eight-digit rounding by half a unit at the price of the
    plan; both at most once. */
module NotionalBounds {
  import opened Basics
  import opened Rounding
  import opened IgSizing
  import opened Allocator
  import opened BudgetBounds
  import opened SizingCoherence

  /** Size step and minimum are whole numbers of 1e-8 units, so rounding to eight places is exact. */
  ghost predicate SizesOnGrid(d: Details) {
    StepOnGrid(d) && (d.minDealSize.Some? ==> OnGrid(d.minDealSize.value, SCALE_8))
  }

  lemma MinimumOrderOnGrid(d: Details)
    requires SizesOnGrid(d) && d.minDealSize.Some?
    ensures OnGrid(MinimumOrder(d), SCALE_8)
  {
    var least, step := d.minDealSize.value, d.sizeStep.value;
    var n := StepCount(least, step);
    var up := RoundUp(least, step);
    if Abs(FloorToStep(least, step) - least) < TINY {
      GridMultiple(step, n, up);
    } else {
      assert up == (n + 1) as real * step;
      GridMultiple(step, n + 1, up);
    }
  }

  /** What the eight-digit rounding may add to a size: half a unit, or nothing on the grid. */
  ghost predicate RoundsBy(d: Details, unit: real) { unit == HALF_8 || (unit == 0.0 && SizesOnGrid(d)) }

  /** The size of a decision is within the tolerance of the capped size, up to that rounding. */
  lemma FinalSizeWithin(s: Settings, d: Details, q: Quantity, hardLimit: real, unit: real)
    requires s.Valid() && RoundsBy(d, unit) && q.risk > 0.0
    requires FitToBroker(s, d, q, hardLimit).Fits?
    ensures 0.0 <= Round8(FitToBroker(s, d, q, hardLimit).quantity.size) <= q.size * Tolerance(s) + unit
  {
    hide RoundedSize, MinimumOrder, Tolerance, SizesOnGrid;
    FitSizeAboveFloor(s, d, q, hardLimit);
    var size := FitSize(s, d, q, hardLimit);
    assert FitToBroker(s, d, q, hardLimit).quantity.size == size;
    Round8Monotone(0.0, size);
    assert Round8(0.0) == 0.0;
    if NormalizeOrderSize(d, q.size).Normalized? {
      RoundedTwice(d, q.size);
      SteppedSizeBelow(s, d, q.size, unit);
    } else {
      RiskWithinTolerance(s, d, q, hardLimit);
      ResizedRatio(q, size, Tolerance(s));
      RoundedMinimum(d, unit);
    }
  }

  lemma RoundedMinimum(d: Details, unit: real)
    requires RoundsBy(d, unit) && d.minDealSize.Some?
    ensures Round8(MinimumOrder(d)) <= MinimumOrder(d) + unit
  {
    if unit == 0.0 {
      MinimumOrderOnGrid(d);
      Round8Fixpoint(MinimumOrder(d));
    }
  }

  lemma SteppedSizeBelow(s: Settings, d: Details, requested: real, unit: real)
    requires s.Valid() && RoundsBy(d, unit) && requested >= 0.0
    ensures RoundedSize(d, requested) <= requested * Tolerance(s) + unit
  {
    if unit == 0.0 {
      SteppedSizeIsExact(d, requested);
    } else {
      NearRequest(d, requested);
    }
    hide FloorToStep, RoundedSize;
    ProductsOrdered(1.0, Tolerance(s), requested, requested, Tolerance(s) * requested);
  }

  lemma RiskWithinTolerance(s: Settings, d: Details, q: Quantity, hardLimit: real)
    requires FitToBroker(s, d, q, hardLimit).Fits? && !NormalizeOrderSize(d, q.size).Normalized?
    ensures Resized(q, MinimumOrder(d)).risk <= q.risk * Tolerance(s)
  {
    hide Resized, MinimumOrder, RoundedSize, Tolerance;
  }

  lemma ResizedRatio(q: Quantity, size: real, tolerance: real)
    requires q.size >= TINY && q.risk > 0.0 && Resized(q, size).risk <= q.risk * tolerance
    ensures size <= tolerance * q.size
  {
    var ratio := Divide(size, q.size);
    Scale(ratio, tolerance, q.risk);
    Scale(ratio, tolerance, q.size);
  }

  lemma NotionalScales(size: real, price: real, f: real)
    requires f >= 0.0
    ensures Notional(size * f, price) == Notional(size, price) * f
  {
    var n := size * price;
    assert size * f * price == n * f;
    if f > 0.0 {
      Scale(0.0, n, f);
    }
  }

  lemma NotionalIs(size: real, price: real) returns (n: real)
    requires size >= 0.0
    ensures n == size * Abs(price) && n == Notional(size, price)
  {
    n := Notional(size, price);
    var product := size * price;
    assert size * -price == -product;
    if size > 0.0 {
      if price >= 0.0 { Scale(0.0, price, size); } else { Scale(price, 0.0, size); }
    }
  }

  lemma NotionalMonotone(small: real, large: real, price: real)
    requires 0.0 <= small <= large
    ensures Notional(small, price) <= Notional(large, price)
  {
    var low := NotionalIs(small, price);
    var high := NotionalIs(large, price);
    ProductsOrdered(small, large, Abs(price), low, high);
  }

  lemma TolerantNotional(size: real, base: real, price: real, tolerance: real, unit: real, cap: real)
    requires 0.0 <= size <= base * tolerance + unit && tolerance > 0.0 && unit >= 0.0 && base > 0.0
    requires Notional(base, price) <= cap
    ensures Notional(size, price) <= tolerance * cap + unit * Abs(price)
  {
    Scale(0.0, base, tolerance);
    var most := base * tolerance;
    NotionalMonotone(size, most + unit, price);
    var n := NotionalIs(most + unit, price);
    var m := NotionalIs(most, price);
    assert n == m + unit * Abs(price);
    NotionalScales(base, price, tolerance);
    hide Notional;
    Scale(Notional(base, price), cap, tolerance);
  }

  /** The capped size is worth exactly the capped notional. */
  lemma CapSizeNotional(s: Settings, p: Plan, allocatable: real, rawSize: real, grossRoom: real)
    requires s.Valid() && allocatable > 0.0 && grossRoom >= 0.0
    requires CapSize(s, p, allocatable, rawSize, Notional(rawSize, p.entryPrice), grossRoom).Fits?
    ensures
      var rawNotional := Notional(rawSize, p.entryPrice);
      var q := CapSize(s, p, allocatable, rawSize, rawNotional, grossRoom).quantity;
      Notional(q.size, p.entryPrice) == CappedNotional(s, rawNotional, grossRoom)
  {
    var rawNotional := Notional(rawSize, p.entryPrice);
    var notional := CappedNotional(s, rawNotional, grossRoom);
    hide Notional;
    CappedIsScaled(p, allocatable, rawSize, rawNotional, notional);
    var f := Divide(notional, rawNotional);
    NotionalScales(rawSize, p.entryPrice, f);
    assert Capped(p, allocatable, rawSize, rawNotional, notional).size == rawSize * f;
    assert rawNotional * f == notional;
  }

  lemma CappedOfferNotional(s: Settings, p: Plan, allocatable: real, grossRoom: real)
    requires s.Valid() && allocatable > 0.0 && grossRoom >= 0.0
    requires CappedOffer(s, p, allocatable, grossRoom).Fits?
    ensures Notional(CappedOffer(s, p, allocatable, grossRoom).quantity.size, p.entryPrice)
            <= Min(s.maxPositionNotional, grossRoom)
  {
    hide ScaledSize, Notional, CapSize;
    CapSizeNotional(s, p, allocatable, ScaledSize(p, allocatable), grossRoom);
  }

  function GrossLimit(s: Settings, equity: real): real { equity * (s.maxGrossExposurePercent / 100.0) }

  function GrossUsed(open: Ledger, cycle: Ledger): real { open.gross + cycle.gross }

  /** A selected notional is within the tolerance of both the per-trade cap and the gross room, up to
      the rounding of its size. */
  lemma SelectedNotionalWithin(s: Settings, id: string, p: Plan, open: Ledger, cycle: Ledger, unit: real)
    requires s.Valid() && RoundsBy(p.details, unit) && AllocateCandidate(s, id, p, open, cycle).selected
    ensures
      var notional := Notional(AllocateCandidate(s, id, p, open, cycle).size, p.entryPrice);
      notional <= Tolerance(s) * Min(s.maxPositionNotional, GrossRoom(s, p.equity, open, cycle))
                  + unit * Abs(p.entryPrice)
  {
    hide AllocateCandidate, CappedFor, GrossRoom, Notional;
    var size := SelectedSize(s, id, p, open, cycle, unit);
    TolerantNotional(size, CappedFor(s, p, open, cycle).quantity.size, p.entryPrice, Tolerance(s), unit,
                     Min(s.maxPositionNotional, GrossRoom(s, p.equity, open, cycle)));
  }

  lemma CappedForNotional(s: Settings, p: Plan, open: Ledger, cycle: Ledger)
    requires s.Valid() && Offer(s, p, open, cycle).Fits?
    ensures CappedFor(s, p, open, cycle).Fits?
    ensures
      var q := CappedFor(s, p, open, cycle).quantity;
      && q.size > 0.0 && q.risk > 0.0
      && Notional(q.size, p.entryPrice) <= Min(s.maxPositionNotional, GrossRoom(s, p.equity, open, cycle))
  {
    hide Notional, CappedOffer, FitToBroker;
    var allocatable := Min(p.requestedRisk, Available(s, p, open, cycle));
    CappedOfferWithin(s, p, allocatable, GrossRoom(s, p.equity, open, cycle));
    CappedOfferNotional(s, p, allocatable, GrossRoom(s, p.equity, open, cycle));
  }

  lemma SelectedSize(s: Settings, id: string, p: Plan, open: Ledger, cycle: Ledger, unit: real) returns (size: real)
    requires s.Valid() && RoundsBy(p.details, unit) && AllocateCandidate(s, id, p, open, cycle).selected
    ensures size == AllocateCandidate(s, id, p, open, cycle).size
    ensures CappedFor(s, p, open, cycle).Fits? && CappedFor(s, p, open, cycle).quantity.size > 0.0
    ensures 0.0 <= size <= CappedFor(s, p, open, cycle).quantity.size * Tolerance(s) + unit
    ensures Notional(CappedFor(s, p, open, cycle).quantity.size, p.entryPrice)
            <= Min(s.maxPositionNotional, GrossRoom(s, p.equity, open, cycle))
  {
    hide CappedOffer, FitToBroker, Tolerance, RoundsBy;
    CappedForNotional(s, p, open, cycle);
    var q, available := CappedFor(s, p, open, cycle).quantity, Available(s, p, open, cycle);
    size := Round8(FitToBroker(s, p.details, q, available).quantity.size);
    FinalSizeWithin(s, p.details, q, available, unit);
  }

  /** Bounds on the plans of a cycle: their equity, their price and what rounding may add. */
  ghost predicate Within(plans: seq<Plan>, equity: real, price: real, unit: real) {
    forall i :: 0 <= i < |plans| ==>
      plans[i].equity <= equity && Abs(plans[i].entryPrice) <= price && RoundsBy(plans[i].details, unit)
  }

  /** Gross notional ends at most at its starting value or the tolerated gross limit, up to one
      rounding of a size. */
  lemma {:induction false} CycleKeepsGross(s: Settings, id: string, open: Ledger, cycle: Ledger,
                                           plans: seq<Plan>, equity: real, price: real, unit: real)
    requires s.Valid() && Within(plans, equity, price, unit) && GrossUsed(open, cycle) >= 0.0
    decreases |plans|
    ensures
      GrossUsed(open, cycle) <= GrossUsed(open, Spend(s, id, open, cycle, plans).1)
      <= Max(GrossUsed(open, cycle), Tolerance(s) * GrossLimit(s, equity) + unit * price)
  {
    if plans != [] {
      var p := plans[0];
      var d := AllocateCandidate(s, id, p, open, cycle);
      if d.selected {
        SelectedNotionalWithin(s, id, p, open, cycle, unit);
        NoneWithoutRoom(s, id, p, open, cycle);
        GrossStep(s, p, open, cycle, Notional(d.size, p.entryPrice), equity, price, unit);
      }
      hide AllocateCandidate, GrossLimit, Tolerance, Notional, RoundsBy;
      CycleKeepsGross(s, id, open, Reserve(cycle, p, d), plans[1..], equity, price, unit);
    }
  }

  lemma NoneWithoutRoom(s: Settings, id: string, p: Plan, open: Ledger, cycle: Ledger)
    requires s.Valid() && AllocateCandidate(s, id, p, open, cycle).selected
    ensures GrossRoom(s, p.equity, open, cycle) > 0.0
  {
    if GrossRoom(s, p.equity, open, cycle) == 0.0 {
      NoRoomNoOffer(s, p, open, cycle);
    }
  }

  lemma GrossStep(s: Settings, p: Plan, open: Ledger, cycle: Ledger, spent: real, equity: real, price: real, unit: real)
    requires s.Valid() && p.equity <= equity && GrossUsed(open, cycle) >= 0.0
    requires unit >= 0.0 && Abs(p.entryPrice) <= price && GrossRoom(s, p.equity, open, cycle) > 0.0
    requires 0.0 <= spent <= Tolerance(s) * Min(s.maxPositionNotional, GrossRoom(s, p.equity, open, cycle))
                             + unit * Abs(p.entryPrice)
    ensures GrossUsed(open, cycle) + spent
         <= Max(GrossUsed(open, cycle), Tolerance(s) * GrossLimit(s, equity) + unit * price)
  {
    var used, limit := GrossUsed(open, cycle), GrossLimit(s, equity);
    var room, tolerance := GrossRoom(s, p.equity, open, cycle), Tolerance(s);
    Scale(p.equity, equity, s.maxGrossExposurePercent / 100.0);
    assert room <= limit - used;
    var cap := Min(s.maxPositionNotional, room);
    hide GrossUsed, GrossLimit, GrossRoom, Tolerance;
    ProductsOrdered(cap, room, tolerance, tolerance * cap, tolerance * room);
    ProductsOrdered(Abs(p.entryPrice), price, unit, unit * Abs(p.entryPrice), unit * price);
    SpendWithinGross(limit, used, room, spent - unit * Abs(p.entryPrice), tolerance);
  }

  lemma SpendWithinGross(limit: real, used: real, room: real, spent: real, tolerance: real)
    requires used >= 0.0 && tolerance >= 1.0
    requires 0.0 < room <= limit - used && spent <= tolerance * room
    ensures used + spent <= tolerance * limit
  {
    var most := tolerance * (limit - used);
    ProductsOrdered(room, limit - used, tolerance, tolerance * room, most);
    TolerantRoom(limit, used, tolerance);
  }

  lemma TolerantRoom(limit: real, used: real, tolerance: real)
    requires used >= 0.0 && tolerance >= 1.0
    ensures used + tolerance * (limit - used) <= tolerance * limit
  {
    if used > 0.0 {
      Scale(1.0, tolerance, used);
    }
  }

  /** Once the gross limit is used up, by an overshoot or exactly, nothing more is selected. */
  lemma {:induction false} NothingSelectedPastGrossLimit(s: Settings, id: string, open: Ledger, cycle: Ledger,
                                                         plans: seq<Plan>)
    requires s.Valid()
    requires forall i :: 0 <= i < |plans| ==> GrossUsed(open, cycle) >= GrossLimit(s, plans[i].equity)
    decreases |plans|
    ensures Spend(s, id, open, cycle, plans).1 == cycle
    ensures forall d :: d in Spend(s, id, open, cycle, plans).0 ==> !d.selected
  {
    if plans != [] {
      var p := plans[0];
      if AllocateCandidate(s, id, p, open, cycle).selected {
        NoRoomNoOffer(s, p, open, cycle);
      }
      NothingSelectedPastGrossLimit(s, id, open, cycle, plans[1..]);
    }
  }

  lemma NoRoomNoOffer(s: Settings, p: Plan, open: Ledger, cycle: Ledger)
    requires s.Valid() && GrossRoom(s, p.equity, open, cycle) == 0.0
    ensures Offer(s, p, open, cycle).Refused?
  {
    hide ScaledSize, Notional, Capped;
  }
}
