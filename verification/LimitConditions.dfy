/** Exactly which instruments keep the risk limits, and exactly which ones only yield orders that can
    be placed, over all settings, ledgers and plans the allocator can receive. */
module LimitConditions {
  import opened Basics
  import opened Rounding
  import opened IgSizing
  import opened Allocator
  import opened BudgetBounds
  import opened SizingCoherence
  import opened AllocationCycle
  import opened SamplePlans

  /** A plan on this instrument as screening and an IG quote produce it. */
  ghost predicate Receivable(s: Settings, d: Details, p: Plan, riskPerUnit: real) {
    s.Valid() && p.details == d && WellFormed(p) && QuotedByIg(p, riskPerUnit)
  }

  /* ----- Risk limits ----- */

  /** No plan on this instrument can push any account past its limit by more than a rounding. */
  ghost predicate KeepsLimits(d: Details) {
    forall s: Settings, id: string, p: Plan, unit: real, open: Ledger, cycle: Ledger, a: Account ::
      Receivable(s, d, p, unit) ==> StepWithinLimit(s, id, p, open, cycle, a)
  }

  ghost predicate StepWithinLimit(s: Settings, id: string, p: Plan, open: Ledger, cycle: Ledger, a: Account) {
    Used(open, Reserve(cycle, p, AllocateCandidate(s, id, p, open, cycle)), a)
    <= Max(Used(open, cycle, a), Limit(s, a) + HALF_MICRO)
  }

  /** The limits are kept exactly on instruments whose size step is on the eight-digit grid, with or
      without a minimum size; on any other the rounding up of some quoted size breaks a limit. */
  lemma KeepsLimitsIffStepOnGrid(d: Details)
    ensures KeepsLimits(d) <==> StepOnGrid(d)
  {
    if StepOnGrid(d) {
      forall s: Settings, id: string, p: Plan, unit: real, open: Ledger, cycle: Ledger, a: Account
        | Receivable(s, d, p, unit)
        ensures StepWithinLimit(s, id, p, open, cycle, a)
      {
        OnGridStep(s, id, p, open, cycle, a);
      }
    } else {
      var s, p, unit := LimitBroken(d);
      assert !StepWithinLimit(s, "c", p, EMPTY, EMPTY, Portfolio);
    }
  }

  lemma OnGridStep(s: Settings, id: string, p: Plan, open: Ledger, cycle: Ledger, a: Account)
    requires s.Valid() && StepOnGrid(p.details)
    ensures StepWithinLimit(s, id, p, open, cycle, a)
  {
    assert LiftedBy(p.details, 1.0);
    hide AllocateCandidate, Used, Reserve, Limit, StepOnGrid, LiftedBy;
    StepKeepsBudget(s, id, p, open, cycle, 1.0, a);
  }

  lemma ExcessRatio(size: real, enlarged: real) returns (ratio: real, limit: real)
    requires 0.0 < size < enlarged
    ensures ratio * size == enlarged && limit > 0.0 && limit * (ratio - 1.0) == 0.000002
  {
    ratio := Divide(enlarged, size);
    Scale(1.0, ratio, size);
    limit := Divide(0.000002, ratio - 1.0);
    Scale(0.0, limit, ratio - 1.0);
  }

  /** A quoted plan on empty ledgers that passes the portfolio limit. */
  lemma LimitBroken(d: Details) returns (s: Settings, p: Plan, unit: real)
    requires !StepOnGrid(d)
    ensures Receivable(s, d, p, unit)
    ensures !StepWithinLimit(s, "c", p, EMPTY, EMPTY, Portfolio)
  {
    hide AllocateCandidate, RoundedSize, WellFormed, QuotedByIg, FitToBroker, UnitRisk, SampleOn, Reserve, Used,
        StepOnGrid, Round8;
    var size := EnlargedSize(d, Max(1.0, if d.minDealSize.Some? then d.minDealSize.value else 0.0));
    var ratio, limit := ExcessRatio(size, RoundedSize(d, size));
    s, p, unit := Uniform(limit, size, 1.0), Sample(d, limit, size), UnitRisk(limit);
    SampleIsQuoted("i", d, limit, size);
    SampleDecided(limit, size, 1.0, d, limit, size, "c");
    EnlargedFit(s, d, Quantity(size, limit, p.riskAmount), ratio, limit);
    var decision := AllocateCandidate(s, "c", p, EMPTY, EMPTY);
    assert decision.risk > limit + HALF_MICRO;
    PortfolioCharged(p, decision);
  }

  lemma EnlargedFit(s: Settings, d: Details, q: Quantity, ratio: real, limit: real)
    requires q.size >= TINY && q.risk == limit && limit * (ratio - 1.0) == 0.000002
    requires RoundedSize(d, q.size) > 0.0 && ratio * q.size == RoundedSize(d, q.size)
    requires d.minDealSize.Some? ==> RoundedSize(d, q.size) >= d.minDealSize.value
    ensures
      var fit := FitToBroker(s, d, q, limit);
      fit.Fits? && fit.quantity.risk == limit + 0.000002
  {
    hide RoundedSize;
    Quotient(ratio, q.size, RoundedSize(d, q.size));
    assert Resized(q, RoundedSize(d, q.size)).risk == limit * ratio;
    assert limit * ratio == limit * (ratio - 1.0) + limit;
  }

  lemma PortfolioCharged(p: Plan, d: Decision)
    requires d.selected
    ensures Used(EMPTY, Reserve(EMPTY, p, d), Portfolio) == d.risk && Used(EMPTY, EMPTY, Portfolio) == 0.0
  {
  }

  /* ----- Placement ----- */

  /** Every order the allocator may select on this instrument passes the minimum at placement. */
  ghost predicate AlwaysPlaceable(d: Details) {
    forall s: Settings, id: string, p: Plan, unit: real, open: Ledger, cycle: Ledger ::
      Receivable(s, d, p, unit) && AllocateCandidate(s, id, p, open, cycle).selected ==>
        PassesMinimum(d, AllocateCandidate(s, id, p, open, cycle).size)
  }

  /** That holds exactly when the minimum order survives the eight-digit rounding, or no normalised
      size falls below the minimum, so that it is never rounded up. */
  lemma AlwaysPlaceableIff(d: Details)
    ensures AlwaysPlaceable(d) <==> MinimumKept(d)
  {
    if MinimumKept(d) {
      forall s: Settings, id: string, p: Plan, unit: real, open: Ledger, cycle: Ledger
        | Receivable(s, d, p, unit) && AllocateCandidate(s, id, p, open, cycle).selected
        ensures PassesMinimum(d, AllocateCandidate(s, id, p, open, cycle).size)
      {
        SelectedSizeIsPlaceable(s, id, p, open, cycle);
      }
    } else {
      var s, p, unit := MinimumIsRefused(d);
      assert AllocateCandidate(s, "c", p, EMPTY, EMPTY).selected;
    }
  }

  /** Otherwise some quoted plan is selected at a size below the minimum and refused at placement. */
  lemma MinimumIsRefused(d: Details) returns (s: Settings, p: Plan, unit: real)
    requires !MinimumKept(d)
    ensures Receivable(s, d, p, unit)
    ensures AllocateCandidate(s, "c", p, EMPTY, EMPTY).selected
    ensures !PassesMinimum(d, AllocateCandidate(s, "c", p, EMPTY, EMPTY).size)
  {
    assert d.minDealSize.Some?;
    hide MinimumKept, MinimumOrder, RoundedSize, LeastOrder, AllocateCandidate, QuotedByIg, SampleOn, Uniform, UnitRisk;
    var size := LeastOrderOccurs(d);
    var growth := Divide(MinimumOrder(d), size);
    RoundsUp(d, size, growth);
    s, p, unit := Uniform(growth + 1.0, size, 100.0 * growth), Sample(d, 1.0, size), UnitRisk(1.0);
    SampleIsQuoted("i", d, 1.0, size);
    RefusedSample(d, size, growth);
  }

  lemma RefusedSample(d: Details, size: real, growth: real)
    requires NormalizeOrderSize(d, size).BelowMinimum? && d.minDealSize.Some?
    requires size >= 0.00000001 && growth > 0.0 && growth * size == MinimumOrder(d)
    requires Round8(MinimumOrder(d)) < d.minDealSize.value
    ensures
      var s, p := Uniform(growth + 1.0, size, 100.0 * growth), Sample(d, 1.0, size);
      var decision := AllocateCandidate(s, "c", p, EMPTY, EMPTY);
      s.Valid() && decision.selected && !PassesMinimum(d, decision.size)
  {
    hide AllocateCandidate, Sample, FitToBroker, RoundedSize, MinimumOrder, Round8, Round6;
    var s, p := Uniform(growth + 1.0, size, 100.0 * growth), Sample(d, 1.0, size);
    SampleDecided(growth + 1.0, size, 100.0 * growth, d, 1.0, size, "c");
    MinimumTaken(s, d, Quantity(size, 1.0, p.riskAmount), growth);
  }

  lemma RoundsUp(d: Details, size: real, growth: real)
    requires !MinimumKept(d) && size >= 0.00000001 && RoundedSize(d, size) == LeastOrder(d)
    requires growth * size == MinimumOrder(d)
    ensures NormalizeOrderSize(d, size).BelowMinimum? && growth > 0.0
    ensures Round8(MinimumOrder(d)) < d.minDealSize.value
  {
    hide Round8, RoundUp;
    assert MinimumOrder(d) >= d.minDealSize.value > 0.0;
    Scale(0.0, growth, size);
    Scale(growth, 0.0, size);
  }

  lemma MinimumTaken(s: Settings, d: Details, q: Quantity, growth: real)
    requires NormalizeOrderSize(d, q.size).BelowMinimum? && d.minDealSize.Some?
    requires q.size >= TINY && q.risk == 1.0 && growth > 0.0 && growth * q.size == MinimumOrder(d)
    requires s.roundUpTolerancePercent == 100.0 * growth
    ensures FitToBroker(s, d, q, growth + 1.0).Fits?
    ensures FitToBroker(s, d, q, growth + 1.0).quantity.size == MinimumOrder(d)
  {
    hide RoundedSize, MinimumOrder;
    Quotient(growth, q.size, MinimumOrder(d));
    assert Resized(q, MinimumOrder(d)).risk == growth;
    assert Tolerance(s) == 1.0 + growth;
  }
}
