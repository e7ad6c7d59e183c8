/** Size, risk percent and risk money of an offer stay one quantity through budget scaling,
    notional capping and broker normalisation, and the size offered can be placed. */
module SizingCoherence {
  import opened Basics
  import opened Rounding
  import opened IgSizing
  import opened Allocator
  import opened BudgetBounds

  /** Three readings of one stake: units at a risk each, money, and a percentage of equity. */
  ghost predicate Coherent(q: Quantity, riskPerUnit: real, equity: real) {
    q.size * riskPerUnit == q.amount && q.amount == equity * (q.risk / 100.0)
  }

  /** A plan whose size was quoted by the IG adapter for the money it asked for. */
  ghost predicate QuotedByIg(p: Plan, riskPerUnit: real) {
    && riskPerUnit > 0.0 && p.equity > 0.0 && p.requestedRisk >= 0.0
    && p.riskAmount == p.equity * (p.requestedRisk / 100.0)
    && p.requestedSize == QuotedSize(p.riskAmount, riskPerUnit)
  }

  lemma QuoteIsCoherent(p: Plan, riskPerUnit: real)
    requires QuotedByIg(p, riskPerUnit)
    ensures Coherent(Quantity(p.requestedSize, p.requestedRisk, p.riskAmount), Max(riskPerUnit, TINY), p.equity)
  {
    var percent := p.requestedRisk / 100.0;
    assert p.equity * percent >= 0.0 by { if percent > 0.0 { Scale(0.0, p.equity, percent); } }
    QuotedSizeSpendsRisk(p.riskAmount, riskPerUnit);
  }

  /** Scaling the three readings together keeps them one quantity. */
  lemma ScaledStaysCoherent(q: Quantity, g: real, r: Quantity, riskPerUnit: real, equity: real)
    requires Coherent(q, riskPerUnit, equity)
    requires r.size == q.size * g && r.risk == q.risk * g && r.amount == q.amount * g
    ensures Coherent(r, riskPerUnit, equity)
  {
    calc {
      r.size * riskPerUnit;
      q.size * riskPerUnit * g;
      r.amount;
    }
    calc {
      r.amount;
      equity * (q.risk / 100.0) * g;
      equity * (q.risk * g / 100.0);
      equity * (r.risk / 100.0);
    }
  }

  /** Capping multiplies the quoted quantity by one fraction throughout. */
  lemma CappedScalesQuote(p: Plan, allocatable: real, rawNotional: real, notional: real) returns (g: real)
    requires p.requestedRisk > 0.0 && rawNotional > 0.0 && 0.0 <= notional <= rawNotional
    requires ScaledSize(p, allocatable) > 0.0
    ensures
      var q := Capped(p, allocatable, ScaledSize(p, allocatable), rawNotional, notional);
      q.size == p.requestedSize * g && q.risk == p.requestedRisk * g && q.amount == p.riskAmount * g
  {
    var t := Divide(allocatable, p.requestedRisk);
    var raw := ScaledSize(p, allocatable);
    var f := notional / rawNotional;
    CappedIsScaled(p, allocatable, raw, rawNotional, notional);
    var q := Capped(p, allocatable, raw, rawNotional, notional);
    g := t * f;
    assert q.risk == p.requestedRisk * g by { Associate(p.requestedRisk, t, f, allocatable); }
    assert q.size == p.requestedSize * g by { Associate(p.requestedSize, t, f, raw); }
    var u := Divide(q.risk, p.requestedRisk);
    assert u == g by { Cancel(u, g, p.requestedRisk); }
  }

  lemma Associate(a: real, t: real, f: real, at: real)
    requires at == a * t
    ensures at * f == a * (t * f)
  {
  }

  lemma Cancel(u: real, g: real, c: real)
    requires c > 0.0 && u * c == c * g
    ensures u == g
  {
    Scale(u, g, c);
    Scale(g, u, c);
  }

  /** The capped quantity an offer is normalised from. */
  function CappedFor(s: Settings, p: Plan, open: Ledger, cycle: Ledger): Fit {
    CappedOffer(s, p, Min(p.requestedRisk, Available(s, p, open, cycle)), GrossRoom(s, p.equity, open, cycle))
  }

  lemma CappedOfferScalesQuote(s: Settings, p: Plan, allocatable: real, grossRoom: real) returns (g: real)
    requires s.Valid() && p.requestedRisk > 0.0 && grossRoom >= 0.0
    requires CappedOffer(s, p, allocatable, grossRoom).Fits?
    ensures
      var q := CappedOffer(s, p, allocatable, grossRoom).quantity;
      q.size == p.requestedSize * g && q.risk == p.requestedRisk * g && q.amount == p.riskAmount * g
  {
    hide ScaledSize, Notional, Capped;
    var rawNotional := Notional(ScaledSize(p, allocatable), p.entryPrice);
    g := CappedScalesQuote(p, allocatable, rawNotional, CappedNotional(s, rawNotional, grossRoom));
  }

  lemma CappedForCoherent(s: Settings, p: Plan, open: Ledger, cycle: Ledger, riskPerUnit: real)
    requires s.Valid() && QuotedByIg(p, riskPerUnit)
    requires Min(p.requestedRisk, Available(s, p, open, cycle)) > 0.0 && CappedFor(s, p, open, cycle).Fits?
    ensures Coherent(CappedFor(s, p, open, cycle).quantity, Max(riskPerUnit, TINY), p.equity)
  {
    hide Coherent, CappedOffer, Available, GrossRoom, QuotedSize;
    QuoteIsCoherent(p, riskPerUnit);
    var g := CappedOfferScalesQuote(s, p, Min(p.requestedRisk, Available(s, p, open, cycle)),
                                    GrossRoom(s, p.equity, open, cycle));
    ScaledStaysCoherent(Quantity(p.requestedSize, p.requestedRisk, p.riskAmount), g,
                        CappedFor(s, p, open, cycle).quantity, Max(riskPerUnit, TINY), p.equity);
  }

  /** The 1e-9 floor the service divides by is never reached: anything smaller has been
      rounded to zero before. */
  lemma FitSizeAboveFloor(s: Settings, d: Details, q: Quantity, hardLimit: real)
    requires FitToBroker(s, d, q, hardLimit).Fits?
    ensures q.size >= TINY
  {
    hide RoundUp, Resized, MinimumOrder;
    NormalizationAtMostDoubles(d, q.size);
  }

  lemma ResizedStaysCoherent(q: Quantity, size: real, riskPerUnit: real, equity: real)
    requires Coherent(q, riskPerUnit, equity) && q.size >= TINY
    ensures Coherent(Resized(q, size), riskPerUnit, equity)
  {
    var ratio := Divide(size, q.size);
    ScaledStaysCoherent(q, ratio, Resized(q, size), riskPerUnit, equity);
  }

  /** Every offer made for an IG quote is coherent before the final rounding, at the unit risk
      the quote divided by. */
  lemma OfferIsCoherent(s: Settings, p: Plan, open: Ledger, cycle: Ledger, riskPerUnit: real)
    requires s.Valid() && QuotedByIg(p, riskPerUnit) && Offer(s, p, open, cycle).Fits?
    ensures Coherent(Offer(s, p, open, cycle).quantity, Max(riskPerUnit, TINY), p.equity)
  {
    hide QuotedSize, Coherent;
    var available := Available(s, p, open, cycle);
    CappedForCoherent(s, p, open, cycle, riskPerUnit);
    var q := CappedFor(s, p, open, cycle).quantity;
    FitSizeAboveFloor(s, p.details, q, available);
    var size := FitSize(s, p.details, q, available);
    ResizedStaysCoherent(q, size, Max(riskPerUnit, TINY), p.equity);
  }

  /** At the instrument's own unit risk it is coherent exactly when that reaches 1e-9. */
  lemma OfferCoherentIff(s: Settings, p: Plan, open: Ledger, cycle: Ledger, riskPerUnit: real)
    requires s.Valid() && QuotedByIg(p, riskPerUnit) && Offer(s, p, open, cycle).Fits?
    ensures Coherent(Offer(s, p, open, cycle).quantity, riskPerUnit, p.equity) <==> riskPerUnit >= TINY
  {
    hide Offer, QuotedSize;
    OfferIsCoherent(s, p, open, cycle, riskPerUnit);
    var q := Offer(s, p, open, cycle).quantity;
    if riskPerUnit < TINY {
      OfferSizePositive(s, p, open, cycle);
      Scale(riskPerUnit, TINY, q.size);
    }
  }

  /** Size, percent and money of a decision are the coherent readings of one offer, each rounded to its digits. */
  lemma DecisionRoundsOffer(s: Settings, id: string, p: Plan, open: Ledger, cycle: Ledger, riskPerUnit: real)
    returns (q: Quantity)
    requires s.Valid() && QuotedByIg(p, riskPerUnit) && AllocateCandidate(s, id, p, open, cycle).selected
    ensures Coherent(q, Max(riskPerUnit, TINY), p.equity)
    ensures
      var d := AllocateCandidate(s, id, p, open, cycle);
      && OnGrid(d.size, SCALE_8) && -HALF_8 <= d.size - q.size <= HALF_8
      && OnGrid(d.risk, SCALE_6) && -HALF_MICRO <= d.risk - q.risk <= HALF_MICRO
      && OnGrid(d.amount, SCALE_6) && -HALF_MICRO <= d.amount - q.amount <= HALF_MICRO
  {
    q := Offer(s, p, open, cycle).quantity;
    OfferIsCoherent(s, p, open, cycle, riskPerUnit);
    hide Offer, Coherent, Binding;
    Round8OnGrid(q.size);
    Round6OnGrid(q.risk);
    Round6OnGrid(q.amount);
  }

  lemma OfferSizePositive(s: Settings, p: Plan, open: Ledger, cycle: Ledger)
    requires s.Valid() && Offer(s, p, open, cycle).Fits?
    ensures Offer(s, p, open, cycle).quantity.size > 0.0
  {
    OfferWithin(s, p, open, cycle, 2.0);
  }

  /** What a fit resizes the quantity to: the normalised size or the minimum order. */
  lemma FitSize(s: Settings, d: Details, q: Quantity, hardLimit: real) returns (size: real)
    requires FitToBroker(s, d, q, hardLimit).Fits?
    ensures size > 0.0 && FitToBroker(s, d, q, hardLimit) == Fits(Resized(q, size))
    ensures NormalizeOrderSize(d, q.size).Normalized? ==> size == RoundedSize(d, q.size)
    ensures !NormalizeOrderSize(d, q.size).Normalized? ==> d.minDealSize.Some? && size == MinimumOrder(d)
  {
    hide Resized, RoundUp, RoundedSize;
    size := if NormalizeOrderSize(d, q.size).Normalized? then RoundedSize(d, q.size) else MinimumOrder(d);
  }

  /** The minimum order survives the eight-digit rounding, or no size falls below the minimum. */
  predicate MinimumKept(d: Details) {
    d.minDealSize.None? || Round8(MinimumOrder(d)) >= d.minDealSize.value || LeastOrder(d) >= d.minDealSize.value
  }

  /** Every size the allocator selects passes the minimum check made when the order is placed, while
      the market details stay the same, on instruments whose minimum order survives the rounding. */
  lemma SelectedSizeIsPlaceable(s: Settings, id: string, p: Plan, open: Ledger, cycle: Ledger)
    requires AllocateCandidate(s, id, p, open, cycle).selected && MinimumKept(p.details)
    ensures PassesMinimum(p.details, AllocateCandidate(s, id, p, open, cycle).size)
  {
    var available := Available(s, p, open, cycle);
    var q := CappedFor(s, p, open, cycle).quantity;
    var size := FitSize(s, p.details, q, available);
    assert AllocateCandidate(s, id, p, open, cycle).size == Round8(size);
    RoundedTwice(p.details, q.size);
    hide Round8, LeastOrder, MinimumOrder, RoundedSize, FitToBroker, AllocateCandidate, Available, CappedFor;
    if !NormalizeOrderSize(p.details, q.size).Normalized? && p.details.minDealSize.Some? {
      LeastOrderBelow(s, p.details, q, available);
    }
  }

  lemma LeastOrderBelow(s: Settings, d: Details, q: Quantity, hardLimit: real)
    requires FitToBroker(s, d, q, hardLimit).Fits? && !NormalizeOrderSize(d, q.size).Normalized?
    ensures d.minDealSize.Some? && LeastOrder(d) < d.minDealSize.value
  {
    hide RoundedSize, LeastOrder, Resized, MinimumOrder;
    LeastOrderIsLeast(d, q.size);
  }

  lemma RoundedTwice(d: Details, requested: real)
    ensures Round8(RoundedSize(d, requested)) == RoundedSize(d, requested)
  {
    var size := Max(requested, 0.0);
    Round8OnGrid(if HasStep(d) then FloorToStep(size, d.sizeStep.value) else size);
  }
}
