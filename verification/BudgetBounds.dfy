/** What one cycle of the greedy pass keeps: every budget, every count and the gross notional,
    for cycles of any length. */
module BudgetBounds {
  import opened Basics
  import opened Rounding
  import opened IgSizing
  import opened Allocator

  const HALF_MICRO := 0.0000005

  /* ----- One offer ----- */

  lemma Fraction(part: real, whole: real)
    requires 0.0 <= part <= whole && whole > 0.0
    ensures 0.0 <= part / whole <= 1.0
    ensures part > 0.0 ==> part / whole > 0.0
    ensures part / whole * whole == part
  {
    var f := Divide(part, whole);
    Scale(0.0, f, whole);
    Scale(f, 1.0, whole);
  }

  lemma Shrinks(x: real, f: real)
    requires x >= 0.0 && 0.0 <= f <= 1.0
    ensures 0.0 <= x * f <= x
    ensures x > 0.0 && f > 0.0 ==> x * f > 0.0
  {
    if x > 0.0 {
      Scale(0.0, f, x);
      Scale(f, 1.0, x);
    }
  }

  /** Capping the notional scales size and risk by the same fraction. */
  lemma CappedIsScaled(p: Plan, allocatable: real, rawSize: real, rawNotional: real, notional: real)
    requires rawSize > 0.0 && 0.0 <= notional <= rawNotional && rawNotional > 0.0
    ensures
      var q := Capped(p, allocatable, rawSize, rawNotional, notional);
      var f := notional / rawNotional;
      0.0 <= f <= 1.0 && q.size == rawSize * f && q.risk == allocatable * f
  {
    var f := notional / rawNotional;
    Fraction(notional, rawNotional);
    Ratio(rawSize, f);
  }

  lemma Ratio(x: real, f: real)
    requires x > 0.0
    ensures x * f / x == f
  {
  }

  /** Rounding lifts a quantity on this instrument by the factor at most. */
  ghost predicate LiftedBy(d: Details, factor: real) { Lift(d) <= factor }

  lemma NormalizedWithin(d: Details, requested: real, factor: real)
    requires LiftedBy(d, factor) && requested > 0.0 && NormalizeOrderSize(d, requested).Normalized?
    ensures 0.0 < RoundedSize(d, requested) <= factor * requested
  {
    hide Lift, RoundedSize;
    NormalizationLift(d, requested);
    ProductsOrdered(Lift(d), factor, requested, Lift(d) * requested, factor * requested);
  }

  lemma ResizedWithin(q: Quantity, size: real, factor: real)
    requires q.size > 0.0 && q.risk >= 0.0 && 0.0 < size <= factor * q.size && factor >= 1.0
    ensures 0.0 <= Resized(q, size).risk <= factor * q.risk && Resized(q, size).size == size
  {
    var base := Max(q.size, TINY);
    var ratio := Divide(size, base);
    Scale(q.size, base, factor);
    Scale(0.0, ratio, base);
    Scale(ratio, factor, base);
    if q.risk > 0.0 {
      Scale(0.0, ratio, q.risk);
      Scale(ratio, factor, q.risk);
    }
  }

  lemma FitWithin(s: Settings, d: Details, q: Quantity, hardLimit: real, factor: real)
    requires LiftedBy(d, factor) && q.size > 0.0 && 0.0 <= q.risk <= hardLimit
    requires FitToBroker(s, d, q, hardLimit).Fits?
    ensures 0.0 <= FitToBroker(s, d, q, hardLimit).quantity.risk <= factor * hardLimit
    ensures FitToBroker(s, d, q, hardLimit).quantity.size > 0.0
  {
    LiftAtLeastOne(d);
    hide Lift, Resized, MinimumOrder;
    if NormalizeOrderSize(d, q.size).Normalized? {
      NormalizedWithin(d, q.size, factor);
      hide RoundedSize;
      ResizedWithin(q, RoundedSize(d, q.size), factor);
      ProductsOrdered(q.risk, hardLimit, factor, factor * q.risk, factor * hardLimit);
    } else {
      hide RoundedSize;
      MinimumOrderPositive(d, q.size);
      ResizedNonNegative(q, MinimumOrder(d));
      ProductsOrdered(1.0, factor, hardLimit, hardLimit, factor * hardLimit);
    }
  }

  lemma LiftAtLeastOne(d: Details)
    ensures Lift(d) >= 1.0
  {
  }

  lemma MinimumOrderPositive(d: Details, requested: real)
    requires NormalizeOrderSize(d, requested).BelowMinimum?
    ensures d.minDealSize.Some? && MinimumOrder(d) > 0.0
  {
    hide RoundUp;
  }

  lemma ResizedNonNegative(q: Quantity, size: real)
    requires q.size > 0.0 && q.risk >= 0.0 && size > 0.0
    ensures Resized(q, size).risk >= 0.0 && Resized(q, size).size == size
  {
    var ratio := Divide(size, Max(q.size, TINY));
    Scale(0.0, ratio, Max(q.size, TINY));
    if q.risk > 0.0 {
      Scale(0.0, ratio, q.risk);
    }
  }

  /** Capping leaves a positive size and no more risk than was granted. */
  lemma CapSizeWithin(s: Settings, p: Plan, allocatable: real, rawSize: real, rawNotional: real, grossRoom: real)
    requires s.Valid() && allocatable > 0.0 && grossRoom >= 0.0
    requires CapSize(s, p, allocatable, rawSize, rawNotional, grossRoom).Fits?
    ensures
      var q := CapSize(s, p, allocatable, rawSize, rawNotional, grossRoom).quantity;
      q.size > 0.0 && 0.0 < q.risk <= allocatable
  {
    var notional := CappedNotional(s, rawNotional, grossRoom);
    CappedIsScaled(p, allocatable, rawSize, rawNotional, notional);
    Shrinks(allocatable, notional / rawNotional);
  }

  lemma CappedOfferWithin(s: Settings, p: Plan, allocatable: real, grossRoom: real)
    requires s.Valid() && allocatable > 0.0 && grossRoom >= 0.0
    requires CappedOffer(s, p, allocatable, grossRoom).Fits?
    ensures
      var q := CappedOffer(s, p, allocatable, grossRoom).quantity;
      q.size > 0.0 && 0.0 < q.risk <= allocatable
  {
    hide ScaledSize, Notional;
    var rawSize := ScaledSize(p, allocatable);
    CapSizeWithin(s, p, allocatable, rawSize, Notional(rawSize, p.entryPrice), grossRoom);
  }

  /** An offer never exceeds the room of the tightest budget by more than the rounding lift. */
  lemma OfferWithin(s: Settings, p: Plan, open: Ledger, cycle: Ledger, factor: real)
    requires s.Valid() && LiftedBy(p.details, factor)
    requires Offer(s, p, open, cycle).Fits?
    ensures Available(s, p, open, cycle) > 0.0
    ensures 0.0 <= Offer(s, p, open, cycle).quantity.risk <= factor * Available(s, p, open, cycle)
    ensures Offer(s, p, open, cycle).quantity.size > 0.0
  {
    hide Lift, LiftedBy, CappedOffer, FitToBroker, Available, GrossRoom;
    var available := Available(s, p, open, cycle);
    var allocatable := Min(p.requestedRisk, available);
    var grossRoom := GrossRoom(s, p.equity, open, cycle);
    CappedOfferWithin(s, p, allocatable, grossRoom);
    FitWithin(s, p.details, CappedOffer(s, p, allocatable, grossRoom).quantity, available, factor);
  }

  /* ----- One step ----- */

  lemma ShareElsewhere(p: Plan, d: Decision, a: Account)
    requires a !in Accounts(p)
    ensures Share(ExposureOf(p, d), a) == 0.0
  {
    var accounts := Accounts(p);
    assert accounts[0] == Portfolio && accounts[1] == Cycle && accounts[2] == Strategy(p.strategy);
    assert accounts[3] == Family(p.family) && accounts[4] == Instrument(p.instrument);
    if a.Currency? {
      forall i | 0 <= i < |p.currencies| ensures p.currencies[i] != a.code {
        assert accounts[5 + i] == CurrencyAccounts(p.currencies)[i];
      }
      NotCollected(p.currencies, Part(ExposureOf(p, d)), a.code);
    }
  }

  lemma NotCollected(keys: seq<string>, part: real, key: string)
    requires key !in keys
    ensures Collected(keys, part, key) == 0.0
  {
  }

  /** Spending at most the lifted room of an account keeps it within the lifted limit. */
  lemma SpendWithinRoom(limit: real, used: real, room: real, factor: real, spent: real)
    requires factor == 1.0 || (factor >= 1.0 && used >= 0.0)
    requires 0.0 < room <= Max(limit - used, 0.0) && spent <= factor * room + HALF_MICRO
    ensures used + spent <= factor * limit + HALF_MICRO
  {
    var left := limit - used;
    ProductsOrdered(room, left, factor, factor * room, factor * left);
    assert factor * left == factor * limit - factor * used;
    if factor > 1.0 {
      ProductsOrdered(1.0, factor, used, used, factor * used);
    }
  }

  /** One candidate keeps every account within its old value or its limit, give or take the rounding. */
  lemma StepKeepsBudget(s: Settings, id: string, p: Plan, open: Ledger, cycle: Ledger, factor: real, a: Account)
    requires s.Valid() && LiftedBy(p.details, factor)
    requires factor == 1.0 || Used(open, cycle, a) >= 0.0
    ensures
      var d := AllocateCandidate(s, id, p, open, cycle);
      var after := Used(open, Reserve(cycle, p, d), a);
      && (d.selected ==> d.risk >= 0.0)
      && Used(open, cycle, a) <= after <= Max(Used(open, cycle, a), factor * Limit(s, a) + HALF_MICRO)
  {
    var d := AllocateCandidate(s, id, p, open, cycle);
    if d.selected {
      OfferWithin(s, p, open, cycle, factor);
      var risk := Offer(s, p, open, cycle).quantity.risk;
      assert d.risk == Round6(risk);
      Round6NonNegative(risk);
      ReservedWithin(s, p, d, open, cycle, factor, a);
    }
  }

  lemma ReservedWithin(s: Settings, p: Plan, d: Decision, open: Ledger, cycle: Ledger, factor: real, a: Account)
    requires LiftedBy(p.details, factor)
    requires factor == 1.0 || Used(open, cycle, a) >= 0.0
    requires Available(s, p, open, cycle) > 0.0
    requires 0.0 <= d.risk <= factor * Available(s, p, open, cycle) + HALF_MICRO
    ensures
      var after := Used(open, Charge(cycle, ExposureOf(p, d)), a);
      Used(open, cycle, a) <= after <= Max(Used(open, cycle, a), factor * Limit(s, a) + HALF_MICRO)
  {
    LiftAtLeastOne(p.details);
    hide Share, Charge, Limit, Value, Accounts, Lift;
    var e := ExposureOf(p, d);
    assert e.risk == d.risk;
    ChargeRaisesByShare(cycle, e, a);
    ShareBounds(e, a);
    if a in Accounts(p) {
      var available := Available(s, p, open, cycle);
      assert available <= Room(s, open, cycle, a);
      SpendWithinRoom(Limit(s, a), Used(open, cycle, a), available, factor, Share(e, a));
    } else {
      ShareElsewhere(p, d, a);
    }
  }

  /* ----- A whole cycle ----- */

  ghost predicate AllLiftedBy(plans: seq<Plan>, factor: real) {
    forall i :: 0 <= i < |plans| ==> LiftedBy(plans[i].details, factor)
  }

  /** Over a cycle of any length no account ends above both its starting value and its limit,
      apart from one rounding of the last percent selected. With every size step on the
      eight-digit grid the factor is 1; with no premise on the instruments it is 2 at most. */
  lemma {:induction false} CycleKeepsBudget(s: Settings, id: string, open: Ledger, cycle: Ledger,
                                            plans: seq<Plan>, factor: real, a: Account)
    requires s.Valid() && AllLiftedBy(plans, factor)
    requires factor == 1.0 || Used(open, cycle, a) >= 0.0
    decreases |plans|
    ensures
      Used(open, cycle, a) <= Used(open, Spend(s, id, open, cycle, plans).1, a)
      <= Max(Used(open, cycle, a), factor * Limit(s, a) + HALF_MICRO)
  {
    if plans != [] {
      var d := AllocateCandidate(s, id, plans[0], open, cycle);
      StepKeepsBudget(s, id, plans[0], open, cycle, factor, a);
      CycleKeepsBudget(s, id, open, Reserve(cycle, plans[0], d), plans[1..], factor, a);
    }
  }

  /** The three position counts. */
  lemma {:induction false} CycleKeepsCounts(s: Settings, id: string, open: Ledger, cycle: Ledger, plans: seq<Plan>,
                                            strategy: string)
    decreases |plans|
    ensures
      var after := Spend(s, id, open, cycle, plans).1;
      && cycle.positions <= after.positions
      && IntMax(open.positions + cycle.positions, s.maxOpenPositions) >= open.positions + after.positions
      && IntMax(cycle.positions, s.maxNewPositionsPerCycle) >= after.positions
      && IntMax(StrategyCount(open, cycle, strategy), s.maxPositionsPerStrategy)
         >= StrategyCount(open, after, strategy) >= StrategyCount(open, cycle, strategy)
  {
    if plans != [] {
      var d := AllocateCandidate(s, id, plans[0], open, cycle);
      CycleKeepsCounts(s, id, open, Reserve(cycle, plans[0], d), plans[1..], strategy);
    }
  }

  function StrategyCount(open: Ledger, cycle: Ledger, strategy: string): int {
    Count(open.strategyPositions, strategy) + Count(cycle.strategyPositions, strategy)
  }
}
