/** The other half of the budget bounds: a plan is refused only for a reason that holds, and what
    it is granted uses up something that limits it. */
module GrantCompleteness {
  import opened Basics
  import opened Rounding
  import opened IgSizing
  import opened Allocator
  import opened BudgetBounds
  import opened SizingCoherence
  import opened NotionalBounds

  /** Some account the plan draws on is used up. */
  ghost predicate SomeAccountExhausted(s: Settings, p: Plan, open: Ledger, cycle: Ledger) {
    exists a :: a in Accounts(p) && Used(open, cycle, a) >= Limit(s, a)
  }

  lemma AvailableIff(s: Settings, p: Plan, open: Ledger, cycle: Ledger)
    ensures Available(s, p, open, cycle) > 0.0 <==> !SomeAccountExhausted(s, p, open, cycle)
  {
    hide Used, Limit, Accounts;
    var binding := Binding(s, p, open, cycle);
    if Available(s, p, open, cycle) > 0.0 {
      forall a | a in Accounts(p) ensures Used(open, cycle, a) < Limit(s, a) {
        assert Room(s, open, cycle, binding) <= Room(s, open, cycle, a);
      }
    } else {
      assert binding in Accounts(p) && Used(open, cycle, binding) >= Limit(s, binding);
    }
  }

  lemma ScaledPositiveIff(p: Plan, allocatable: real)
    requires p.requestedRisk > 0.0 && allocatable > 0.0
    ensures ScaledSize(p, allocatable) > 0.0 <==> p.requestedSize > 0.0
  {
    var t := Divide(allocatable, p.requestedRisk);
    Scale(0.0, t, p.requestedRisk);
    Scale(0.0, p.requestedSize, t);
    Scale(p.requestedSize, 0.0, t);
  }

  lemma NotionalPositiveIff(size: real, price: real)
    requires size > 0.0
    ensures Notional(size, price) > 0.0 <==> price != 0.0
  {
    if price > 0.0 {
      Scale(0.0, price, size);
    } else if price < 0.0 {
      Scale(price, 0.0, size);
    }
  }

  lemma CapSizeIff(s: Settings, p: Plan, allocatable: real, rawSize: real, rawNotional: real, grossRoom: real)
    requires s.Valid() && grossRoom >= 0.0
    ensures CapSize(s, p, allocatable, rawSize, rawNotional, grossRoom).Fits?
       <==> rawSize > 0.0 && rawNotional > 0.0 && grossRoom > 0.0
  {
    if rawSize > 0.0 && rawNotional > 0.0 {
      var notional := CappedNotional(s, rawNotional, grossRoom);
      CappedIsScaled(p, allocatable, rawSize, rawNotional, notional);
      Fraction(notional, rawNotional);
      Shrinks(rawSize, notional / rawNotional);
    }
  }

  /** The broker takes the capped size as it is, or as the minimum order within tolerance and limit. */
  ghost predicate BrokerTakes(s: Settings, p: Plan, open: Ledger, cycle: Ledger) {
    var capped := CappedFor(s, p, open, cycle);
    && capped.Fits?
    && match NormalizeOrderSize(p.details, capped.quantity.size)
       case Normalized(_) => true
       case RoundedToZero => false
       case BelowMinimum(_) =>
         var up := Resized(capped.quantity, MinimumOrder(p.details)).risk;
         up <= capped.quantity.risk * Tolerance(s) && up <= Available(s, p, open, cycle)
  }

  lemma GrossRoomIff(s: Settings, equity: real, open: Ledger, cycle: Ledger)
    ensures GrossRoom(s, equity, open, cycle) == Max(GrossLimit(s, equity) - GrossUsed(open, cycle), 0.0)
  {
  }

  lemma CappedForIff(s: Settings, p: Plan, open: Ledger, cycle: Ledger)
    requires s.Valid()
    ensures Min(p.requestedRisk, Available(s, p, open, cycle)) > 0.0 ==>
      (CappedFor(s, p, open, cycle).Fits? <==>
       p.requestedSize > 0.0 && p.entryPrice != 0.0 && GrossUsed(open, cycle) < GrossLimit(s, p.equity))
  {
    var allocatable, room := Min(p.requestedRisk, Available(s, p, open, cycle)), GrossRoom(s, p.equity, open, cycle);
    GrossRoomIff(s, p.equity, open, cycle);
    hide Available, GrossRoom, GrossUsed, GrossLimit, Notional, ScaledSize, CapSize;
    if allocatable > 0.0 {
      ScaledPositiveIff(p, allocatable);
      var rawSize := ScaledSize(p, allocatable);
      if rawSize > 0.0 {
        NotionalPositiveIff(rawSize, p.entryPrice);
      }
      CapSizeIff(s, p, allocatable, rawSize, Notional(rawSize, p.entryPrice), room);
    }
  }

  lemma BrokerTakesIff(s: Settings, p: Plan, open: Ledger, cycle: Ledger)
    ensures Offer(s, p, open, cycle).Fits?
       <==> Min(p.requestedRisk, Available(s, p, open, cycle)) > 0.0 && BrokerTakes(s, p, open, cycle)
    ensures BrokerTakes(s, p, open, cycle) ==> CappedFor(s, p, open, cycle).Fits?
  {
    hide Available, GrossRoom, CappedOffer, Resized, MinimumOrder, Tolerance, RoundedSize;
  }

  /** A plan is offered a quantity exactly when it asks for something at a price, every account it
      draws on and the gross limit have room, and the broker takes the size. */
  lemma OfferedIff(s: Settings, p: Plan, open: Ledger, cycle: Ledger)
    requires s.Valid()
    ensures Offer(s, p, open, cycle).Fits? <==>
      && p.requestedRisk > 0.0 && p.requestedSize > 0.0 && p.entryPrice != 0.0
      && !SomeAccountExhausted(s, p, open, cycle)
      && GrossUsed(open, cycle) < GrossLimit(s, p.equity)
      && BrokerTakes(s, p, open, cycle)
  {
    AvailableIff(s, p, open, cycle);
    CappedForIff(s, p, open, cycle);
    BrokerTakesIff(s, p, open, cycle);
    hide SomeAccountExhausted, Available, GrossUsed, GrossLimit, CappedFor, FitToBroker, Offer, BrokerTakes;
  }

  /** A plan is selected exactly when it is offered a quantity and no position limit is reached. */
  lemma SelectedIff(s: Settings, id: string, p: Plan, open: Ledger, cycle: Ledger)
    requires s.Valid()
    ensures AllocateCandidate(s, id, p, open, cycle).selected <==>
      && open.positions + cycle.positions < s.maxOpenPositions
      && StrategyCount(open, cycle, p.strategy) < s.maxPositionsPerStrategy
      && cycle.positions < s.maxNewPositionsPerCycle
      && p.requestedRisk > 0.0 && p.requestedSize > 0.0 && p.entryPrice != 0.0
      && !SomeAccountExhausted(s, p, open, cycle)
      && GrossUsed(open, cycle) < GrossLimit(s, p.equity)
      && BrokerTakes(s, p, open, cycle)
  {
    OfferedIff(s, p, open, cycle);
    hide Offer, SomeAccountExhausted, GrossUsed, GrossLimit, BrokerTakes, Binding;
  }

  /** No position limit turns the plan away. */
  predicate CountsLeft(s: Settings, p: Plan, open: Ledger, cycle: Ledger) {
    && open.positions + cycle.positions < s.maxOpenPositions
    && StrategyCount(open, cycle, p.strategy) < s.maxPositionsPerStrategy
    && cycle.positions < s.maxNewPositionsPerCycle
  }

  /** A plan is rejected for an exhausted budget exactly when it gets past the position limits and some
      account it draws on is used up, or it asks for no risk at all. */
  lemma ExhaustedIff(s: Settings, id: string, p: Plan, open: Ledger, cycle: Ledger)
    requires s.Valid()
    ensures AllocateCandidate(s, id, p, open, cycle).reason.Exhausted?
       <==> CountsLeft(s, p, open, cycle) && (p.requestedRisk <= 0.0 || SomeAccountExhausted(s, p, open, cycle))
  {
    AvailableIff(s, p, open, cycle);
    NoneExhaustedByCapping(s, p, open, cycle);
    hide SomeAccountExhausted, CappedOffer, FitToBroker, Binding, Available, Round6, Round8;
  }

  /** Such a rejection names a used-up account of the plan exactly when there is one; otherwise it is
      spurious, and the plan asked for no risk. */
  lemma ExhaustionIsReal(s: Settings, id: string, p: Plan, open: Ledger, cycle: Ledger)
    requires s.Valid() && AllocateCandidate(s, id, p, open, cycle).reason.Exhausted?
    ensures NamesExhausted(s, p, open, cycle, AllocateCandidate(s, id, p, open, cycle))
       <==> SomeAccountExhausted(s, p, open, cycle)
    ensures !SomeAccountExhausted(s, p, open, cycle) ==> p.requestedRisk <= 0.0
  {
    ExhaustedIff(s, id, p, open, cycle);
    AvailableIff(s, p, open, cycle);
    BindingNamed(s, id, p, open, cycle);
    hide Used, Limit, Accounts, AllocateCandidate, Tightest, Label;
    if SomeAccountExhausted(s, p, open, cycle) {
      var a := Binding(s, p, open, cycle);
      assert a in Accounts(p) && Used(open, cycle, a) >= Limit(s, a);
    }
  }

  ghost predicate NamesExhausted(s: Settings, p: Plan, open: Ledger, cycle: Ledger, d: Decision) {
    exists a :: a in Accounts(p) && Used(open, cycle, a) >= Limit(s, a)
                && d.reason == Exhausted(Label(a)) && d.binding == Some(Label(a))
  }

  lemma BindingNamed(s: Settings, id: string, p: Plan, open: Ledger, cycle: Ledger)
    requires AllocateCandidate(s, id, p, open, cycle).reason.Exhausted?
    ensures
      var d, a := AllocateCandidate(s, id, p, open, cycle), Binding(s, p, open, cycle);
      d.reason == Exhausted(Label(a)) && d.binding == Some(Label(a))
  {
    NoneExhaustedByCapping(s, p, open, cycle);
    hide CappedOffer, FitToBroker, Binding, Available, Label, Round6, Round8;
  }

  lemma NoneExhaustedByCapping(s: Settings, p: Plan, open: Ledger, cycle: Ledger)
    ensures
      var available := Available(s, p, open, cycle);
      Min(p.requestedRisk, available) > 0.0 && Offer(s, p, open, cycle).Refused? ==>
        !Offer(s, p, open, cycle).reason.Exhausted?
  {
    hide Available, GrossRoom, Resized, MinimumOrder, RoundedSize, ScaledSize, Notional, Capped;
  }

  /** Nothing is held back: before the broker rounds it, the granted quantity is the whole request,
      or all the room of the tightest account, or is worth the per-trade cap or the gross room. */
  lemma GrantIsMaximal(s: Settings, p: Plan, open: Ledger, cycle: Ledger)
    requires s.Valid() && Offer(s, p, open, cycle).Fits?
    ensures CappedFor(s, p, open, cycle).Fits?
    ensures
      var q := CappedFor(s, p, open, cycle).quantity;
      var worth := Notional(q.size, p.entryPrice);
      || (q.size == p.requestedSize && q.risk == p.requestedRisk && q.amount == p.riskAmount)
      || q.risk == Available(s, p, open, cycle)
      || worth == s.maxPositionNotional
      || worth == GrossRoom(s, p.equity, open, cycle)
  {
    OfferedIff(s, p, open, cycle);
    var available, room := Available(s, p, open, cycle), GrossRoom(s, p.equity, open, cycle);
    var allocatable := Min(p.requestedRisk, available);
    hide Offer, FitToBroker, Available, GrossRoom, SomeAccountExhausted, GrossUsed, GrossLimit, BrokerTakes;
    CappedOfferMaximal(s, p, allocatable, room);
  }

  lemma CappedOfferMaximal(s: Settings, p: Plan, allocatable: real, grossRoom: real)
    requires s.Valid() && 0.0 < allocatable <= p.requestedRisk && grossRoom >= 0.0
    requires CappedOffer(s, p, allocatable, grossRoom).Fits?
    ensures
      var q := CappedOffer(s, p, allocatable, grossRoom).quantity;
      var worth := Notional(q.size, p.entryPrice);
      || (q.risk == allocatable
          && (allocatable == p.requestedRisk ==> q.size == p.requestedSize && q.amount == p.riskAmount))
      || worth == s.maxPositionNotional
      || worth == grossRoom
  {
    var rawSize := ScaledSize(p, allocatable);
    var rawNotional := Notional(rawSize, p.entryPrice);
    var notional := CappedNotional(s, rawNotional, grossRoom);
    CapSizeNotional(s, p, allocatable, rawSize, grossRoom);
    CapSizeWithin(s, p, allocatable, rawSize, rawNotional, grossRoom);
    if notional == rawNotional {
      Whole(p, allocatable, rawSize, rawNotional);
    }
  }

  lemma Whole(p: Plan, allocatable: real, rawSize: real, rawNotional: real)
    requires rawSize > 0.0 && rawNotional > 0.0 && 0.0 < allocatable <= p.requestedRisk
    requires rawSize == ScaledSize(p, allocatable)
    ensures
      var q := Capped(p, allocatable, rawSize, rawNotional, rawNotional);
      q.size == rawSize && q.risk == allocatable
      && (allocatable == p.requestedRisk ==> q.size == p.requestedSize && q.amount == p.riskAmount)
  {
    assert rawNotional / rawNotional == 1.0 && rawSize / rawSize == 1.0;
    assert p.requestedRisk / p.requestedRisk == 1.0;
  }
}
