/** Counting a cycle: every candidate is decided once, and the persisted summary balances. */
module CycleAccounting {
  import opened Basics
  import opened Rounding
  import opened Allocator
  import opened BudgetBounds
  import opened PlanSelection
  import opened AllocationCycle

  /* ----- One decision per candidate ----- */

  function Ids(ds: seq<Decision>): multiset<nat> {
    if ds == [] then multiset{} else Ids(ds[..|ds| - 1]) + multiset{ds[|ds| - 1].id}
  }

  function PlanIds(ps: seq<Plan>): multiset<nat> {
    if ps == [] then multiset{} else PlanIds(ps[..|ps| - 1]) + multiset{ps[|ps| - 1].id}
  }

  function UpTo(n: nat): multiset<nat> {
    if n == 0 then multiset{} else UpTo(n - 1) + multiset{n - 1}
  }

  lemma UpToOnce(n: nat, i: nat)
    ensures UpTo(n)[i] == if i < n then 1 else 0
  {
  }

  lemma IdsAppend(xs: seq<Decision>, ys: seq<Decision>)
    ensures Ids(xs + ys) == Ids(xs) + Ids(ys)
  {
    if ys == [] {
      assert xs + ys == xs;
    } else {
      assert (xs + ys)[..|xs + ys| - 1] == xs + ys[..|ys| - 1];
      IdsAppend(xs, ys[..|ys| - 1]);
    }
  }

  lemma PlanIdsAppend(xs: seq<Plan>, ys: seq<Plan>)
    ensures PlanIds(xs + ys) == PlanIds(xs) + PlanIds(ys)
  {
    if ys == [] {
      assert xs + ys == xs;
    } else {
      assert (xs + ys)[..|xs + ys| - 1] == xs + ys[..|ys| - 1];
      PlanIdsAppend(xs, ys[..|ys| - 1]);
    }
  }

  lemma IdsSnoc(xs: seq<Decision>, x: Decision)
    ensures Ids(xs + [x]) == Ids(xs) + multiset{x.id}
  {
    assert (xs + [x])[..|xs|] == xs;
  }

  lemma PlanIdsSnoc(xs: seq<Plan>, x: Plan)
    ensures PlanIds(xs + [x]) == PlanIds(xs) + multiset{x.id}
  {
    assert (xs + [x])[..|xs|] == xs;
  }

  lemma Extract<T>(xs: seq<T>, x: T) returns (before: seq<T>, after: seq<T>)
    requires x in multiset(xs)
    ensures xs == before + [x] + after
    ensures multiset(before + after) == multiset(xs) - multiset{x}
  {
    var j :| 0 <= j < |xs| && xs[j] == x;
    before, after := xs[..j], xs[j + 1..];
    assert xs == before + [x] + after;
  }

  /** The ids depend only on which plans there are, not on their order. */
  lemma {:induction false} PlanIdsOfMultiset(xs: seq<Plan>, ys: seq<Plan>)
    requires multiset(xs) == multiset(ys)
    ensures PlanIds(xs) == PlanIds(ys)
  {
    if xs == [] {
      assert |multiset(ys)| == 0;
    } else {
      var earlier, x := xs[..|xs| - 1], xs[|xs| - 1];
      LastOut(xs);
      var before, after := Extract(ys, x);
      PlanIdsOfMultiset(earlier, before + after);
      PlanIdsAppend(before, after);
      PlanIdsAppend(before + [x], after);
      PlanIdsSnoc(before, x);
    }
  }

  lemma LastOut<T>(xs: seq<T>)
    requires xs != []
    ensures xs[|xs| - 1] in multiset(xs)
    ensures multiset(xs[..|xs| - 1]) == multiset(xs) - multiset{xs[|xs| - 1]}
  {
    assert xs == xs[..|xs| - 1] + [xs[|xs| - 1]];
  }

  lemma RejectAllIds(ps: seq<Plan>, reason: Reason)
    ensures Ids(RejectAll(ps, reason)) == PlanIds(ps)
  {
    if ps != [] {
      RejectAllIds(ps[..|ps| - 1], reason);
      assert RejectAll(ps, reason)[..|ps| - 1] == RejectAll(ps[..|ps| - 1], reason);
    }
  }

  lemma DecisionId(s: Settings, cycleId: string, p: Plan, open: Ledger, cycle: Ledger)
    ensures AllocateCandidate(s, cycleId, p, open, cycle).id == p.id
  {
    hide Offer, Binding, Label, Round6, Round8;
  }

  lemma {:induction false} SpendIds(s: Settings, cycleId: string, open: Ledger, cycle: Ledger, plans: seq<Plan>)
    decreases |plans|
    ensures |Spend(s, cycleId, open, cycle, plans).0| == |plans|
    ensures Ids(Spend(s, cycleId, open, cycle, plans).0) == PlanIds(plans)
  {
    if plans != [] {
      hide AllocateCandidate, Reserve;
      DecisionId(s, cycleId, plans[0], open, cycle);
      var d := AllocateCandidate(s, cycleId, plans[0], open, cycle);
      var next := Reserve(cycle, plans[0], d);
      SpendIds(s, cycleId, open, next, plans[1..]);
      IdsAppend([d], Spend(s, cycleId, open, next, plans[1..]).0);
      PlanIdsAppend([plans[0]], plans[1..]);
      assert plans == [plans[0]] + plans[1..];
    }
  }

  lemma ScreenedId(s: Settings, catalogue: map<string, seq<string>>, cycleId: string, id: nat, c: Candidate)
    ensures
      match ScreenOne(s, catalogue, cycleId, id, c)
      case Decided(d) => d.id == id
      case Planned(p) => p.id == id
  {
    hide RequestedRisk, FamilyName, CurrencyBuckets;
  }

  lemma CollectIds(earlier: (seq<Decision>, seq<Plan>), r: Screened)
    ensures
      var next := Collect(earlier, r);
      Ids(next.0) + PlanIds(next.1) == Ids(earlier.0) + PlanIds(earlier.1)
        + multiset{match r case Decided(d) => d.id case Planned(p) => p.id}
  {
    match r {
      case Decided(d) => IdsSnoc(earlier.0, d);
      case Planned(p) => PlanIdsSnoc(earlier.1, p);
    }
  }

  lemma {:induction false} ScreenIds(s: Settings, catalogue: map<string, seq<string>>, cycleId: string,
      cs: seq<Candidate>)
    ensures Ids(Screen(s, catalogue, cycleId, cs).0) + PlanIds(Screen(s, catalogue, cycleId, cs).1) == UpTo(|cs|)
  {
    if cs != [] {
      hide ScreenOne, Ids, PlanIds, Collect;
      var n := |cs| - 1;
      ScreenedId(s, catalogue, cycleId, n, cs[n]);
      CollectIds(Screen(s, catalogue, cycleId, cs[..n]), ScreenOne(s, catalogue, cycleId, n, cs[n]));
      ScreenIds(s, catalogue, cycleId, cs[..n]);
    }
  }

  lemma SelectionIds(plans: seq<Plan>)
    ensures
      PlanIds(OnePass(plans)) + PlanIds(RestOf(SignalOf, Ranked(plans)))
      + PlanIds(ConflictLosers(FirstOf(SignalOf, Ranked(plans)))) == PlanIds(plans)
  {
    var kept, rest := OnePass(plans), RestOf(SignalOf, Ranked(plans));
    var losers := ConflictLosers(FirstOf(SignalOf, Ranked(plans)));
    EveryPlanDecidedOnce(plans);
    PlanIdsOfMultiset(kept + rest + losers, plans);
    PlanIdsAppend(kept + rest, losers);
    PlanIdsAppend(kept, rest);
  }

  /** Exactly one decision per candidate, whatever the candidates and the broker's answers. */
  lemma EveryCandidateDecidedOnce(s: Settings, catalogue: map<string, seq<string>>, cycleId: string,
                                  open: Ledger, cs: seq<Candidate>)
    ensures Ids(RawOutcome(s, catalogue, cycleId, open, cs).0) == UpTo(|cs|)
  {
    hide Spend, Screen, FirstOf, RestOf, Ranked, ConflictLosers, Ids, PlanIds;
    var screened := Screen(s, catalogue, cycleId, cs);
    var rest := RestOf(SignalOf, Ranked(screened.1));
    var losers := ConflictLosers(FirstOf(SignalOf, Ranked(screened.1)));
    var spent := Spend(s, cycleId, open, EMPTY, OnePass(screened.1)).0;
    var duplicates, conflicts := RejectAll(rest, WeakerDuplicate), RejectAll(losers, DirectionConflict);
    ScreenIds(s, catalogue, cycleId, cs);
    SelectionIds(screened.1);
    RejectAllIds(rest, WeakerDuplicate);
    RejectAllIds(losers, DirectionConflict);
    SpendIds(s, cycleId, open, EMPTY, OnePass(screened.1));
    IdsAppend(screened.0, duplicates);
    IdsAppend(screened.0 + duplicates, conflicts);
    IdsAppend(screened.0 + duplicates + conflicts, spent);
  }

  /** How often the i-th candidate is decided. */
  lemma DecisionsOf(s: Settings, catalogue: map<string, seq<string>>, cycleId: string, open: Ledger,
                    cs: seq<Candidate>, i: nat)
    ensures Ids(RawOutcome(s, catalogue, cycleId, open, cs).0)[i] == if i < |cs| then 1 else 0
  {
    hide RawOutcome, Ids;
    EveryCandidateDecidedOnce(s, catalogue, cycleId, open, cs);
    UpToOnce(|cs|, i);
  }

  /* ----- The persisted summary ----- */

  /** Counters of a cycle. A dictionary of counts is a multiset of the things counted. */
  datatype Summary = Summary(
    candidates: nat, approved: nat, rejected: nat,
    requestedRisk: real, allocatedRisk: real,
    rejectionReasons: multiset<Reason>, bindingBudgets: multiset<Budget>,
    unsupportedSizing: nat, approximateLive: nat, underMinimum: nat, budget: nat, conflict: nat)

  const BLANK := Summary(0, 0, 0, 0.0, 0.0, multiset{}, multiset{}, 0, 0, 0, 0, 0)

  predicate UnsupportedSizing(r: Reason) { r.SizingQuoteUnavailable? || r.BrokerMetadataUnavailable? }
  predicate UnderMinimum(r: Reason) { r.BelowMinSize? || r.SizeRoundedToZero? }
  predicate OverBudget(r: Reason) {
    r.Exhausted? || r.PortfolioPositionLimit? || r.StrategyPositionLimit? || r.CyclePositionLimit?
    || r.GrossExposureLimit?
  }
  predicate Conflicting(r: Reason) { r.WeakerDuplicate? || r.DirectionConflict? }

  function One(b: bool): nat { if b then 1 else 0 }

  /** Entry decisions only; anything else is left out of the summary. */
  predicate IsEntry(cs: seq<Candidate>, d: Decision) { d.id < |cs| && cs[d.id].signal.Entry? }

  function Note(m: Summary, d: Decision): Summary {
    Summary(
      m.candidates + 1,
      m.approved + One(d.selected),
      m.rejected + One(!d.selected),
      m.requestedRisk + d.requestedRisk,
      m.allocatedRisk + (if d.selected then d.risk else 0.0),
      m.rejectionReasons + (if d.selected then multiset{} else multiset{d.reason}),
      m.bindingBudgets + (if d.binding.Some? then multiset{d.binding.value} else multiset{}),
      m.unsupportedSizing + One(UnsupportedSizing(d.reason)),
      m.approximateLive + One(d.reason.ApproximateSizingUnsupported?),
      m.underMinimum + One(UnderMinimum(d.reason)),
      m.budget + One(OverBudget(d.reason)),
      m.conflict + One(Conflicting(d.reason)))
  }

  function Tally(cs: seq<Candidate>, ds: seq<Decision>): Summary {
    if ds == [] then BLANK
    else
      var earlier, d := Tally(cs, ds[..|ds| - 1]), ds[|ds| - 1];
      if IsEntry(cs, d) then Note(earlier, d) else earlier
  }

  /** The increments made for one entry decision. */
  method NoteDecision(m: Summary, d: Decision) returns (next: Summary)
    ensures next == Note(m, d)
  {
    var approved, rejected, granted := m.approved, m.rejected, m.allocatedRisk;
    var reasons, budgets := m.rejectionReasons, m.bindingBudgets;
    if d.binding.Some? {
      budgets := budgets + multiset{d.binding.value};
    }
    if d.selected {
      approved, granted := approved + 1, granted + d.risk;
    } else {
      rejected, reasons := rejected + 1, reasons + multiset{d.reason};
    }
    next := Summary(
      m.candidates + 1, approved, rejected, m.requestedRisk + d.requestedRisk, granted, reasons, budgets,
      m.unsupportedSizing + One(UnsupportedSizing(d.reason)),
      m.approximateLive + One(d.reason.ApproximateSizingUnsupported?),
      m.underMinimum + One(UnderMinimum(d.reason)),
      m.budget + One(OverBudget(d.reason)),
      m.conflict + One(Conflicting(d.reason)));
  }

  /** Counts the decisions of a cycle. */
  method Summarise(cs: seq<Candidate>, ds: seq<Decision>) returns (m: Summary)
    ensures m == Tally(cs, ds)
  {
    hide Note;
    m := BLANK;
    for n := 0 to |ds|
      invariant m == Tally(cs, ds[..n])
    {
      assert ds[..n + 1][..n] == ds[..n];
      if IsEntry(cs, ds[n]) {
        m := NoteDecision(m, ds[n]);
      }
    }
    assert ds[..|ds|] == ds;
  }

  /** A selected entry decision carries the reason for selection, and a decision has no other
      cycle id than the current one. */
  ghost predicate ProperlyMarked(cs: seq<Candidate>, cycleId: string, ds: seq<Decision>) {
    && (forall i :: 0 <= i < |ds| && ds[i].selected && IsEntry(cs, ds[i]) ==> ds[i].reason.Allocated?)
    && (forall i :: 0 <= i < |ds| ==> ds[i].cycleId == cycleId || ds[i].cycleId == UNASSIGNED)
  }

  /** Approvals and rejections make up the candidates, the reasons make up the rejections, and
      the five blocked counters never overlap. */
  lemma {:induction false} SummaryBalances(cs: seq<Candidate>, cycleId: string, ds: seq<Decision>)
    requires ProperlyMarked(cs, cycleId, ds)
    ensures
      var m := Tally(cs, ds);
      && m.approved + m.rejected == m.candidates
      && |m.rejectionReasons| == m.rejected
      && m.unsupportedSizing + m.approximateLive + m.underMinimum + m.budget + m.conflict <= m.rejected
  {
    if ds != [] {
      SummaryBalances(cs, cycleId, ds[..|ds| - 1]);
    }
  }

  function AllocatedOver(cs: seq<Candidate>, ds: seq<Decision>): real {
    if ds == [] then 0.0
    else AllocatedOver(cs, ds[..|ds| - 1])
         + (if IsEntry(cs, ds[|ds| - 1]) && ds[|ds| - 1].selected then ds[|ds| - 1].risk else 0.0)
  }

  lemma {:induction false} TallyAllocated(cs: seq<Candidate>, ds: seq<Decision>)
    ensures Tally(cs, ds).allocatedRisk == AllocatedOver(cs, ds)
  {
    if ds != [] {
      TallyAllocated(cs, ds[..|ds| - 1]);
    }
  }

  lemma AllocatedAppend(cs: seq<Candidate>, xs: seq<Decision>, ys: seq<Decision>)
    ensures AllocatedOver(cs, xs + ys) == AllocatedOver(cs, xs) + AllocatedOver(cs, ys)
  {
    if ys == [] {
      assert xs + ys == xs;
    } else {
      assert (xs + ys)[..|xs + ys| - 1] == xs + ys[..|ys| - 1];
      AllocatedAppend(cs, xs, ys[..|ys| - 1]);
    }
  }

  lemma NothingAllocated(cs: seq<Candidate>, ds: seq<Decision>)
    requires forall i :: 0 <= i < |ds| ==> !ds[i].selected || !IsEntry(cs, ds[i])
    ensures AllocatedOver(cs, ds) == 0.0
  {
    if ds != [] {
      NothingAllocated(cs, ds[..|ds| - 1]);
    }
  }

  ghost predicate EntryPlans(cs: seq<Candidate>, ps: seq<Plan>) {
    forall i :: 0 <= i < |ps| ==> ps[i].id < |cs| && cs[ps[i].id].signal.Entry?
  }

  lemma {:induction false} ScreenedAreMarked(s: Settings, catalogue: map<string, seq<string>>, cycleId: string,
                                             cs: seq<Candidate>, n: nat)
    requires n <= |cs|
    ensures
      var screened := Screen(s, catalogue, cycleId, cs[..n]);
      && EntryPlans(cs, screened.1)
      && (forall i :: 0 <= i < |screened.0| ==> !screened.0[i].selected || !IsEntry(cs, screened.0[i]))
      && (forall i :: 0 <= i < |screened.0| ==> screened.0[i].cycleId == cycleId || screened.0[i].cycleId == UNASSIGNED)
  {
    if n > 0 {
      ScreenedAreMarked(s, catalogue, cycleId, cs, n - 1);
      assert cs[..n][..n - 1] == cs[..n - 1];
      MarkedOne(s, catalogue, cycleId, n - 1, cs[n - 1]);
      hide ScreenOne;
    }
  }

  lemma MarkedOne(s: Settings, catalogue: map<string, seq<string>>, cycleId: string, id: nat, c: Candidate)
    ensures
      match ScreenOne(s, catalogue, cycleId, id, c)
      case Decided(d) =>
        d.id == id && (d.selected ==> c.signal.NonEntry?) && (d.cycleId == cycleId || d.cycleId == UNASSIGNED)
      case Planned(p) => p.id == id && c.signal.Entry?
  {
    hide RequestedRisk, FamilyName, CurrencyBuckets;
  }

  /** The risk the selected plans are given is the risk the ledger records. */
  lemma {:induction false} SpendAllocates(s: Settings, cycleId: string, open: Ledger, cycle: Ledger,
                                          cs: seq<Candidate>, plans: seq<Plan>)
    requires EntryPlans(cs, plans)
    decreases |plans|
    ensures
      var spent := Spend(s, cycleId, open, cycle, plans);
      AllocatedOver(cs, spent.0) == spent.1.total - cycle.total
  {
    if plans != [] {
      DecisionId(s, cycleId, plans[0], open, cycle);
      hide AllocateCandidate;
      var d := AllocateCandidate(s, cycleId, plans[0], open, cycle);
      var next := Reserve(cycle, plans[0], d);
      SpendAllocates(s, cycleId, open, next, cs, plans[1..]);
      AllocatedAppend(cs, [d], Spend(s, cycleId, open, next, plans[1..]).0);
      assert [d][..0] == [];
    }
  }

  lemma {:induction false} SpendMarks(s: Settings, cycleId: string, open: Ledger, cycle: Ledger,
                                      cs: seq<Candidate>, plans: seq<Plan>)
    decreases |plans|
    ensures ProperlyMarked(cs, cycleId, Spend(s, cycleId, open, cycle, plans).0)
  {
    if plans != [] {
      Marked(s, cycleId, plans[0], open, cycle);
      hide AllocateCandidate, Reserve, IsEntry;
      var d := AllocateCandidate(s, cycleId, plans[0], open, cycle);
      var next := Reserve(cycle, plans[0], d);
      SpendMarks(s, cycleId, open, next, cs, plans[1..]);
      assert ProperlyMarked(cs, cycleId, [d]);
      MarkedAppend(cs, cycleId, [d], Spend(s, cycleId, open, next, plans[1..]).0);
      hide ProperlyMarked;
    }
  }

  lemma Marked(s: Settings, cycleId: string, p: Plan, open: Ledger, cycle: Ledger)
    ensures
      var d := AllocateCandidate(s, cycleId, p, open, cycle);
      && (d.selected ==> d.reason.Allocated? && d.cycleId == cycleId)
      && (!d.selected ==> d.cycleId == UNASSIGNED)
  {
    hide Offer, Binding, Label, Round6, Round8;
  }

  lemma OnePassOfEntries(cs: seq<Candidate>, plans: seq<Plan>)
    requires EntryPlans(cs, plans)
    ensures EntryPlans(cs, OnePass(plans))
  {
    SurvivorsAreBest(plans);
    forall i | 0 <= i < |OnePass(plans)|
      ensures OnePass(plans)[i].id < |cs| && cs[OnePass(plans)[i].id].signal.Entry?
    {
      assert OnePass(plans)[i] in plans;
    }
  }

  /** The allocated risk of the summary, before it is rounded, is the selected risk of the ledger. */
  lemma SummaryMatchesLedger(s: Settings, catalogue: map<string, seq<string>>, cycleId: string,
                             open: Ledger, cs: seq<Candidate>)
    ensures
      var raw := RawOutcome(s, catalogue, cycleId, open, cs);
      Tally(cs, raw.0).allocatedRisk == raw.1.total
  {
    var screened := Screen(s, catalogue, cycleId, cs);
    var plans := OnePass(screened.1);
    assert cs[..|cs|] == cs;
    ScreenedAreMarked(s, catalogue, cycleId, cs, |cs|);
    OnePassOfEntries(cs, screened.1);
    SpendAllocates(s, cycleId, open, EMPTY, cs, plans);
    hide Spend, Screen, FirstOf, RestOf, Ranked, ConflictLosers, AllocatedOver, Tally, OnePass, EntryPlans;
    var duplicates := RejectAll(RestOf(SignalOf, Ranked(screened.1)), WeakerDuplicate);
    var conflicts := RejectAll(ConflictLosers(FirstOf(SignalOf, Ranked(screened.1))), DirectionConflict);
    var spent := Spend(s, cycleId, open, EMPTY, plans).0;
    TallyAllocated(cs, RawOutcome(s, catalogue, cycleId, open, cs).0);
    NothingAllocated(cs, screened.0);
    NothingAllocated(cs, duplicates);
    NothingAllocated(cs, conflicts);
    AllocatedAppend(cs, screened.0, duplicates);
    AllocatedAppend(cs, screened.0 + duplicates, conflicts);
    AllocatedAppend(cs, screened.0 + duplicates + conflicts, spent);
  }

  lemma MarkedAppend(cs: seq<Candidate>, cycleId: string, xs: seq<Decision>, ys: seq<Decision>)
    requires ProperlyMarked(cs, cycleId, xs) && ProperlyMarked(cs, cycleId, ys)
    ensures ProperlyMarked(cs, cycleId, xs + ys)
  {
  }

  /** The decisions of a cycle meet the premise under which its summary balances. */
  lemma OutcomeIsMarked(s: Settings, catalogue: map<string, seq<string>>, cycleId: string,
                        open: Ledger, cs: seq<Candidate>)
    ensures ProperlyMarked(cs, cycleId, RawOutcome(s, catalogue, cycleId, open, cs).0)
  {
    var screened := Screen(s, catalogue, cycleId, cs);
    var plans := OnePass(screened.1);
    assert cs[..|cs|] == cs;
    ScreenedAreMarked(s, catalogue, cycleId, cs, |cs|);
    OnePassOfEntries(cs, screened.1);
    SpendMarks(s, cycleId, open, EMPTY, cs, plans);
    hide Spend, Screen, FirstOf, RestOf, Ranked, ConflictLosers, AllocatedOver, OnePass, EntryPlans;
    var duplicates := RejectAll(RestOf(SignalOf, Ranked(screened.1)), WeakerDuplicate);
    var conflicts := RejectAll(ConflictLosers(FirstOf(SignalOf, Ranked(screened.1))), DirectionConflict);
    MarkedAppend(cs, cycleId, screened.0, duplicates);
    MarkedAppend(cs, cycleId, screened.0 + duplicates, conflicts);
    MarkedAppend(cs, cycleId, screened.0 + duplicates + conflicts, Spend(s, cycleId, open, EMPTY, plans).0);
  }

  lemma NoteIgnoresCycleId(m: Summary, d: Decision, cycleId: string)
    ensures Note(m, Assign(cycleId, d)) == Note(m, d) && Assign(cycleId, d).id == d.id
  {
  }

  /** Filling in the cycle id disturbs nothing that is counted. */
  lemma {:induction false} AssignmentIsNeutral(cs: seq<Candidate>, cycleId: string, ds: seq<Decision>)
    ensures Tally(cs, AssignAll(cycleId, ds)) == Tally(cs, ds)
    ensures Ids(AssignAll(cycleId, ds)) == Ids(ds)
  {
    if ds != [] {
      hide Note, Assign;
      var earlier, d := ds[..|ds| - 1], ds[|ds| - 1];
      AssignmentIsNeutral(cs, cycleId, earlier);
      assert AssignAll(cycleId, ds)[..|ds| - 1] == AssignAll(cycleId, earlier);
      NoteIgnoresCycleId(Tally(cs, earlier), d, cycleId);
    }
  }

  /** The whole of what is reported for a cycle: one decision per candidate, all with the cycle's
      id, and a summary that balances and agrees with the ledger. */
  lemma CycleBalances(s: Settings, catalogue: map<string, seq<string>>, cycleId: string, open: Ledger,
      cs: seq<Candidate>)
    ensures
      var raw := RawOutcome(s, catalogue, cycleId, open, cs);
      var decisions := AssignAll(cycleId, raw.0);
      var m := Tally(cs, decisions);
      && Ids(decisions) == UpTo(|cs|)
      && (forall i :: 0 <= i < |decisions| ==> decisions[i].cycleId == cycleId)
      && m.approved + m.rejected == m.candidates
      && |m.rejectionReasons| == m.rejected
      && m.unsupportedSizing + m.approximateLive + m.underMinimum + m.budget + m.conflict <= m.rejected
      && m.allocatedRisk == raw.1.total
  {
    hide RawOutcome, Tally, Ids;
    var raw := RawOutcome(s, catalogue, cycleId, open, cs);
    AssignmentIsNeutral(cs, cycleId, raw.0);
    EveryCandidateDecidedOnce(s, catalogue, cycleId, open, cs);
    OutcomeIsMarked(s, catalogue, cycleId, open, cs);
    SummaryBalances(cs, cycleId, raw.0);
    SummaryMatchesLedger(s, catalogue, cycleId, open, cs);
  }

  /** A whole cycle, from the candidates on, leaves every budget at most at its old value or its
      limit plus one rounding, the limit lifted by the factor that covers every plan's instrument. */
  lemma AllocationKeepsBudget(s: Settings, catalogue: map<string, seq<string>>, cycleId: string, open: Ledger,
                              cs: seq<Candidate>, factor: real, a: Account)
    requires s.Valid() && AllLiftedBy(Contenders(s, catalogue, cycleId, cs), factor)
    requires factor == 1.0 || Used(open, EMPTY, a) >= 0.0
    ensures Used(open, RawOutcome(s, catalogue, cycleId, open, cs).1, a)
         <= Max(Used(open, EMPTY, a), factor * Limit(s, a) + HALF_MICRO)
  {
    hide Screen, OnePass, Spend, Limit, Used, AllLiftedBy;
    CycleKeepsBudget(s, cycleId, open, EMPTY, Contenders(s, catalogue, cycleId, cs), factor, a);
  }
}
