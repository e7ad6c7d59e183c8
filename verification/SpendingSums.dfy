/** What a cycle spends, added up over its plans and decisions: the money and the percents of the
    selected ones, which is what the ledger has grown by and what the limits bound. */
module SpendingSums {
  import opened Basics
  import opened IgSizing
  import opened Allocator
  import opened BudgetBounds
  import opened NotionalBounds

  /** What a decision is worth at its plan's price. */
  function Worth(p: Plan, d: Decision): real { Abs(d.size * p.entryPrice) }

  /** What the selected decisions are worth. */
  function SelectedNotional(plans: seq<Plan>, ds: seq<Decision>): real
    requires |ds| == |plans|
  {
    if plans == [] then 0.0
    else (if ds[0].selected then Worth(plans[0], ds[0]) else 0.0) + SelectedNotional(plans[1..], ds[1..])
  }

  function Occurrences(codes: seq<string>, code: string): nat {
    if codes == [] then 0 else (if codes[0] == code then 1 else 0) + Occurrences(codes[1..], code)
  }

  /** The part of a percent that a plan puts on an account: all of it on the accounts it names, and an
      equal part on each of its currencies. */
  function PercentOn(p: Plan, percent: real, a: Account): real {
    match a
    case Portfolio => percent
    case Cycle => percent
    case Strategy(n) => if p.strategy == n then percent else 0.0
    case Family(n) => if p.family == n then percent else 0.0
    case Instrument(n) => if p.instrument == n then percent else 0.0
    case Currency(code) =>
      if code in p.currencies then Occurrences(p.currencies, code) as real * (percent / |p.currencies| as real) else 0.0
  }

  /** The percents of the selected decisions on an account. */
  function SelectedPercent(plans: seq<Plan>, ds: seq<Decision>, a: Account): real
    requires |ds| == |plans|
  {
    if plans == [] then 0.0
    else (if ds[0].selected then PercentOn(plans[0], ds[0].risk, a) else 0.0) + SelectedPercent(plans[1..], ds[1..], a)
  }

  function SelectedCount(ds: seq<Decision>): nat {
    if ds == [] then 0 else (if ds[0].selected then 1 else 0) + SelectedCount(ds[1..])
  }

  function SelectedFor(plans: seq<Plan>, ds: seq<Decision>, strategy: string): nat
    requires |ds| == |plans|
  {
    if plans == [] then 0
    else (if ds[0].selected && plans[0].strategy == strategy then 1 else 0) + SelectedFor(plans[1..], ds[1..], strategy)
  }

  lemma {:induction false} CollectedIs(codes: seq<string>, part: real, code: string)
    ensures Collected(codes, part, code) == Occurrences(codes, code) as real * part
    ensures code !in codes ==> Occurrences(codes, code) == 0
  {
    if codes != [] {
      CollectedIs(codes[1..], part, code);
      var n := Occurrences(codes[1..], code);
      assert (n + 1) as real * part == n as real * part + part;
    } else {
      assert 0.0 * part == 0.0;
    }
  }

  lemma ShareIs(p: Plan, d: Decision, a: Account)
    ensures Share(ExposureOf(p, d), a) == PercentOn(p, d.risk, a)
  {
    if a.Currency? {
      CollectedIs(p.currencies, Part(ExposureOf(p, d)), a.code);
    }
  }

  lemma ReserveAdds(cycle: Ledger, p: Plan, d: Decision, a: Account)
    ensures
      var after := Reserve(cycle, p, d);
      && after.gross == cycle.gross + (if d.selected then Worth(p, d) else 0.0)
      && Value(after, a) == Value(cycle, a) + (if d.selected then PercentOn(p, d.risk, a) else 0.0)
  {
    if d.selected {
      ChargeRaisesByShare(cycle, ExposureOf(p, d), a);
      ShareIs(p, d, a);
    }
  }

  lemma ReserveCounts(cycle: Ledger, p: Plan, d: Decision, strategy: string)
    ensures
      var after := Reserve(cycle, p, d);
      && after.positions == cycle.positions + (if d.selected then 1 else 0)
      && Count(after.strategyPositions, strategy)
         == Count(cycle.strategyPositions, strategy) + (if d.selected && p.strategy == strategy then 1 else 0)
  {
    hide AddEach, Notional;
  }

  /** A cycle decides its plans in order, and its ledger grows by what the selected decisions are worth and by
      their percents, account by account. */
  lemma SpendAddsUp(s: Settings, id: string, open: Ledger, cycle: Ledger, plans: seq<Plan>, a: Account)
    ensures
      var (ds, after) := Spend(s, id, open, cycle, plans);
      && |ds| == |plans| && (forall i :: 0 <= i < |plans| ==> ds[i].id == plans[i].id)
      && after.gross - cycle.gross == SelectedNotional(plans, ds)
      && Value(after, a) - Value(cycle, a) == SelectedPercent(plans, ds, a)
  {
    SpendDecides(s, id, open, cycle, plans);
    hide Spend, SelectedNotional, SelectedPercent, Value;
    NotionalAddsUp(s, id, open, cycle, plans);
    PercentAddsUp(s, id, open, cycle, plans, a);
  }

  lemma {:induction false} SpendDecides(s: Settings, id: string, open: Ledger, cycle: Ledger, plans: seq<Plan>)
    decreases |plans|
    ensures
      var ds := Spend(s, id, open, cycle, plans).0;
      |ds| == |plans| && forall i :: 0 <= i < |plans| ==> ds[i].id == plans[i].id
  {
    if plans != [] {
      var d := AllocateCandidate(s, id, plans[0], open, cycle);
      DecidesItsPlan(s, id, plans[0], open, cycle);
      hide AllocateCandidate, Reserve;
      SpendDecides(s, id, open, Reserve(cycle, plans[0], d), plans[1..]);
    }
  }

  lemma {:induction false} NotionalAddsUp(s: Settings, id: string, open: Ledger, cycle: Ledger, plans: seq<Plan>)
    decreases |plans|
    ensures
      var (ds, after) := Spend(s, id, open, cycle, plans);
      |ds| == |plans| && after.gross - cycle.gross == SelectedNotional(plans, ds)
  {
    if plans != [] {
      var d := AllocateCandidate(s, id, plans[0], open, cycle);
      ReserveAdds(cycle, plans[0], d, Portfolio);
      hide AllocateCandidate, Reserve, SelectedNotional, Worth;
      NotionalAddsUp(s, id, open, Reserve(cycle, plans[0], d), plans[1..]);
      FirstAdds(plans, d, Spend(s, id, open, Reserve(cycle, plans[0], d), plans[1..]).0, Portfolio);
    }
  }

  lemma {:induction false} PercentAddsUp(s: Settings, id: string, open: Ledger, cycle: Ledger, plans: seq<Plan>,
                                         a: Account)
    decreases |plans|
    ensures
      var (ds, after) := Spend(s, id, open, cycle, plans);
      |ds| == |plans| && Value(after, a) - Value(cycle, a) == SelectedPercent(plans, ds, a)
  {
    if plans != [] {
      var d := AllocateCandidate(s, id, plans[0], open, cycle);
      ReserveAdds(cycle, plans[0], d, a);
      hide AllocateCandidate, Reserve, SelectedPercent, PercentOn, Value;
      PercentAddsUp(s, id, open, Reserve(cycle, plans[0], d), plans[1..], a);
      FirstAdds(plans, d, Spend(s, id, open, Reserve(cycle, plans[0], d), plans[1..]).0, a);
    }
  }

  lemma FirstAdds(plans: seq<Plan>, d: Decision, rest: seq<Decision>, a: Account)
    requires plans != [] && |rest| == |plans| - 1
    ensures SelectedNotional(plans, [d] + rest)
         == (if d.selected then Worth(plans[0], d) else 0.0) + SelectedNotional(plans[1..], rest)
    ensures SelectedPercent(plans, [d] + rest, a)
         == (if d.selected then PercentOn(plans[0], d.risk, a) else 0.0) + SelectedPercent(plans[1..], rest, a)
  {
    hide PercentOn, Worth;
    assert ([d] + rest)[1..] == rest;
  }

  lemma DecidesItsPlan(s: Settings, id: string, p: Plan, open: Ledger, cycle: Ledger)
    ensures AllocateCandidate(s, id, p, open, cycle).id == p.id
  {
    hide Offer, Binding;
  }

  /** So do its position counts. */
  lemma {:induction false} SpendCounts(s: Settings, id: string, open: Ledger, cycle: Ledger, plans: seq<Plan>,
                                       strategy: string)
    decreases |plans|
    ensures
      var (ds, after) := Spend(s, id, open, cycle, plans);
      && |ds| == |plans|
      && after.positions - cycle.positions == SelectedCount(ds)
      && Count(after.strategyPositions, strategy) - Count(cycle.strategyPositions, strategy)
         == SelectedFor(plans, ds, strategy)
  {
    if plans != [] {
      var d := AllocateCandidate(s, id, plans[0], open, cycle);
      ReserveCounts(cycle, plans[0], d, strategy);
      hide AllocateCandidate, Reserve;
      SpendCounts(s, id, open, Reserve(cycle, plans[0], d), plans[1..], strategy);
      var rest := Spend(s, id, open, Reserve(cycle, plans[0], d), plans[1..]);
      assert ([d] + rest.0)[1..] == rest.0;
    }
  }

  /* ----- The limits on what is selected ----- */

  /** What a cycle selects is worth at most what the tolerated gross limit leaves over the open book, or
      nothing where the book is past it. */
  lemma SelectedNotionalWithinLimit(s: Settings, id: string, open: Ledger, plans: seq<Plan>, equity: real, price: real,
                                    unit: real)
    requires s.Valid() && Within(plans, equity, price, unit) && open.gross >= 0.0
    ensures
      var ds := Spend(s, id, open, EMPTY, plans).0;
      && |ds| == |plans|
      && 0.0 <= SelectedNotional(plans, ds)
         <= Max(0.0, Tolerance(s) * (equity * (s.maxGrossExposurePercent / 100.0)) + unit * price - open.gross)
  {
    hide Spend, Within, Tolerance;
    SpendAddsUp(s, id, open, EMPTY, plans, Portfolio);
    CycleKeepsGross(s, id, open, EMPTY, plans, equity, price, unit);
  }

  /** The setting that limits an account. */
  function SettingFor(s: Settings, a: Account): real {
    match a
    case Portfolio => s.maxOpenRisk
    case Cycle => s.maxNewRiskPerCycle
    case Strategy(_) => s.maxRiskPerStrategy
    case Family(_) => s.maxRiskPerFamily
    case Instrument(_) => s.maxRiskPerInstrument
    case Currency(_) => s.maxRiskPerCurrency
  }

  lemma LimitIs(s: Settings, a: Account)
    ensures SettingFor(s, a) == Limit(s, a)
  {
  }

  lemma SelectedPercentWithin(s: Settings, id: string, open: Ledger, plans: seq<Plan>, factor: real, a: Account)
    requires s.Valid() && AllLiftedBy(plans, factor) && (factor == 1.0 || Value(open, a) >= 0.0)
    ensures
      var ds := Spend(s, id, open, EMPTY, plans).0;
      var used := if a.Cycle? then 0.0 else Value(open, a);
      && |ds| == |plans|
      && 0.0 <= SelectedPercent(plans, ds, a) <= Max(0.0, factor * Limit(s, a) + HALF_MICRO - used)
  {
    hide Spend, AllLiftedBy, Limit;
    SpendAddsUp(s, id, open, EMPTY, plans, a);
    assert Value(EMPTY, a) == 0.0;
    CycleKeepsBudget(s, id, open, EMPTY, plans, factor, a);
  }

  /** The percents a cycle selects on an account come to at most what its setting, lifted by the rounding of
      sizes, leaves over the open book, plus one rounding. */
  lemma SelectedPercentWithinLimit(s: Settings, id: string, open: Ledger, plans: seq<Plan>, factor: real, a: Account)
    requires s.Valid() && AllLiftedBy(plans, factor) && (factor == 1.0 || Value(open, a) >= 0.0)
    ensures
      var ds := Spend(s, id, open, EMPTY, plans).0;
      var used := if a.Cycle? then 0.0 else Value(open, a);
      && |ds| == |plans|
      && 0.0 <= SelectedPercent(plans, ds, a) <= Max(0.0, factor * SettingFor(s, a) + HALF_MICRO - used)
  {
    hide *;
    LimitIs(s, a);
    SelectedPercentWithin(s, id, open, plans, factor, a);
  }

  /** The positions a cycle selects, in total and for one strategy, fit what the limits leave over the open
      book, and its own limit. */
  lemma SelectedCountWithinLimit(s: Settings, id: string, open: Ledger, plans: seq<Plan>, strategy: string)
    requires s.Valid()
    ensures
      var ds := Spend(s, id, open, EMPTY, plans).0;
      && |ds| == |plans|
      && SelectedCount(ds) <= s.maxNewPositionsPerCycle
      && SelectedCount(ds) <= IntMax(0, s.maxOpenPositions - open.positions)
      && SelectedFor(plans, ds, strategy)
         <= IntMax(0, s.maxPositionsPerStrategy - Count(open.strategyPositions, strategy))
  {
    hide Spend;
    SpendCounts(s, id, open, EMPTY, plans, strategy);
    CycleKeepsCounts(s, id, open, EMPTY, plans, strategy);
    assert Count(EMPTY.strategyPositions, strategy) == 0;
  }
}
