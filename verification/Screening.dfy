/** What becomes of the candidates that never compete: signals that are no entries pass through, and an
    entry that cannot be planned is refused for the first thing that stands in its way. */
module Screening {
  import opened Basics
  import opened Allocator
  import opened PlanSelection
  import opened AllocationCycle
  import opened CycleAccounting

  /** What can stand in the way of a plan, in the order in which it is looked at. */
  const OBSTACLES: seq<Reason> := [
    StaleSignal, AccountEquityUnavailable, AccountEquityInvalid, BrokerMetadataUnavailable,
    SizingQuoteUnavailable, ApproximateSizingUnsupported
  ]

  /** This stands in the way of planning an entry. */
  ghost predicate Obstructs(s: Settings, c: Candidate, reason: Reason)
    requires c.signal.Entry?
  {
    || (reason == StaleSignal && c.signal.ageSeconds > s.staleAfterSeconds)
    || (reason == AccountEquityUnavailable && c.funds == FundsFailed)
    || (reason == AccountEquityInvalid && exists x: real :: c.funds == FundsRead(x) && x <= 0.0)
    || (reason == BrokerMetadataUnavailable && c.market == MarketFailed)
    || (reason == SizingQuoteUnavailable && c.market.MarketRead?
        && (!c.market.quote.available || c.market.quote.precision == Unsupported))
    || (reason == ApproximateSizingUnsupported && c.market.MarketRead?
        && c.market.quote.precision == Approximate && c.live)
  }

  ghost predicate Obstructed(s: Settings, c: Candidate) {
    c.signal.Entry? && exists k :: 0 <= k < |OBSTACLES| && Obstructs(s, c, OBSTACLES[k])
  }

  /** The reason is the first obstacle. */
  ghost predicate FirstObstacle(s: Settings, c: Candidate, reason: Reason) {
    c.signal.Entry? && exists k :: 0 <= k < |OBSTACLES| && reason == OBSTACLES[k] && StandsFirst(s, c, k)
  }

  ghost predicate StandsFirst(s: Settings, c: Candidate, k: nat)
    requires c.signal.Entry? && k < |OBSTACLES|
  {
    Obstructs(s, c, OBSTACLES[k]) && forall j :: 0 <= j < k ==> !Obstructs(s, c, OBSTACLES[j])
  }

  /** A decision that lets a signal through as it is. */
  predicate PassesThrough(d: Decision, id: nat, cycleId: string) {
    d == Decision(id, cycleId, true, NonEntryPassthrough, 0.0, 0.0, 0.0, 0.0, None)
  }

  /** A refusal: nothing is granted, no budget is named, and the percent asked for is kept. */
  ghost predicate Refuses(s: Settings, c: Candidate, d: Decision, id: nat) {
    && d.id == id && !d.selected && FirstObstacle(s, c, d.reason) && d.binding == None
    && d.size == d.risk == d.amount == 0.0
    && c.signal.Entry? && AsksFor(s, c.signal.riskPercent, d.requestedRisk)
  }

  lemma ScreensOne(s: Settings, catalogue: map<string, seq<string>>, cycleId: string, id: nat, c: Candidate)
    requires s.Valid()
    ensures
      var r := ScreenOne(s, catalogue, cycleId, id, c);
      && (c.signal.NonEntry? ==> r.Decided? && PassesThrough(r.decision, id, cycleId))
      && (Obstructed(s, c) ==> r.Decided? && Refuses(s, c, r.decision, id))
      && (c.signal.Entry? && !Obstructed(s, c) <==> r.Planned?)
  {
    if c.signal.Entry? {
      FirstIs(s, c);
      hide OBSTACLES, CurrencyBuckets, FamilyName;
    }
  }

  /** The first obstacle, if any. */
  lemma FirstIs(s: Settings, c: Candidate)
    requires c.signal.Entry?
    ensures
      if c.signal.ageSeconds > s.staleAfterSeconds then FirstObstacle(s, c, StaleSignal)
      else if c.funds.FundsFailed? then FirstObstacle(s, c, AccountEquityUnavailable)
      else if c.funds.equity <= 0.0 then FirstObstacle(s, c, AccountEquityInvalid)
      else if c.market.MarketFailed? then FirstObstacle(s, c, BrokerMetadataUnavailable)
      else if !c.market.quote.available || c.market.quote.precision.Unsupported? then
        FirstObstacle(s, c, SizingQuoteUnavailable)
      else if c.market.quote.precision.Approximate? && c.live then FirstObstacle(s, c, ApproximateSizingUnsupported)
      else !Obstructed(s, c)
    ensures Obstructed(s, c) <==> exists reason :: FirstObstacle(s, c, reason)
  {
    var stale := c.signal.ageSeconds > s.staleAfterSeconds;
    assert Obstructs(s, c, OBSTACLES[0]) <==> stale;
    assert Obstructs(s, c, OBSTACLES[1]) <==> c.funds.FundsFailed?;
    assert Obstructs(s, c, OBSTACLES[2]) <==> c.funds.FundsRead? && c.funds.equity <= 0.0;
    assert Obstructs(s, c, OBSTACLES[3]) <==> c.market.MarketFailed?;
    assert Obstructs(s, c, OBSTACLES[4]) <==>
      c.market.MarketRead? && (!c.market.quote.available || c.market.quote.precision.Unsupported?);
    assert Obstructs(s, c, OBSTACLES[5]) <==>
      c.market.MarketRead? && c.market.quote.precision.Approximate? && c.live;
    if Obstructed(s, c) {
      var k := LeastObstacle(s, c);
      assert FirstObstacle(s, c, OBSTACLES[k]);
    }
    if reason :| FirstObstacle(s, c, reason) {
      var k :| 0 <= k < |OBSTACLES| && reason == OBSTACLES[k] && StandsFirst(s, c, k);
      assert Obstructs(s, c, OBSTACLES[k]);
    }
    assert stale ==> StandsFirst(s, c, 0);
    assert !stale && c.funds.FundsFailed? ==> StandsFirst(s, c, 1);
    if !stale && c.funds.FundsRead? {
      assert c.funds.equity <= 0.0 ==> StandsFirst(s, c, 2);
      if c.funds.equity > 0.0 {
        assert c.market.MarketFailed? ==> StandsFirst(s, c, 3);
        assert Obstructs(s, c, OBSTACLES[4]) ==> StandsFirst(s, c, 4);
        assert !Obstructs(s, c, OBSTACLES[4]) && Obstructs(s, c, OBSTACLES[5]) ==> StandsFirst(s, c, 5);
      }
    }
  }

  lemma LeastObstacle(s: Settings, c: Candidate) returns (k: nat)
    requires Obstructed(s, c)
    ensures k < |OBSTACLES| && StandsFirst(s, c, k)
  {
    k := 0;
    while !Obstructs(s, c, OBSTACLES[k])
      invariant k < |OBSTACLES|
      invariant forall j :: 0 <= j < k ==> !Obstructs(s, c, OBSTACLES[j])
      decreases |OBSTACLES| - k
    {
      k := k + 1;
    }
  }

  /* ----- The whole list ----- */

  lemma {:induction false} ScreenDecides(s: Settings, catalogue: map<string, seq<string>>, cycleId: string,
                                         cs: seq<Candidate>, i: nat)
    requires s.Valid() && i < |cs| && (cs[i].signal.NonEntry? || Obstructed(s, cs[i]))
    ensures exists k :: 0 <= k < |Screen(s, catalogue, cycleId, cs).0|
                        && ScreenedOut(s, cycleId, cs, i, Screen(s, catalogue, cycleId, cs).0[k])
  {
    var n := |cs| - 1;
    var earlier, r := Screen(s, catalogue, cycleId, cs[..n]), ScreenOne(s, catalogue, cycleId, n, cs[n]);
    if i == n {
      ScreensOne(s, catalogue, cycleId, n, cs[n]);
      hide ScreenOne, Refuses, Obstructed;
      assert Screen(s, catalogue, cycleId, cs).0[|earlier.0|] == r.decision;
    } else {
      ScreenDecides(s, catalogue, cycleId, cs[..n], i);
      hide ScreenOne, Refuses, Obstructed;
      var k :| 0 <= k < |earlier.0| && ScreenedOut(s, cycleId, cs[..n], i, earlier.0[k]);
      assert Screen(s, catalogue, cycleId, cs).0[k] == earlier.0[k];
    }
  }

  /** What screening decides for the i-th candidate. */
  ghost predicate ScreenedOut(s: Settings, cycleId: string, cs: seq<Candidate>, i: nat, d: Decision)
    requires i < |cs|
  {
    if cs[i].signal.NonEntry? then PassesThrough(d, i, cycleId) else Refuses(s, cs[i], d, i)
  }

  lemma {:induction false} IdsOf(ds: seq<Decision>, k: nat, l: nat)
    requires k < l < |ds| && ds[k].id == ds[l].id
    ensures Ids(ds)[ds[k].id] >= 2
  {
    var n := |ds| - 1;
    if l < n {
      IdsOf(ds[..n], k, l);
    } else {
      OnceIn(ds[..n], k);
    }
  }

  lemma {:induction false} OnceIn(ds: seq<Decision>, k: nat)
    requires k < |ds|
    ensures Ids(ds)[ds[k].id] >= 1
  {
    if k < |ds| - 1 {
      OnceIn(ds[..|ds| - 1], k);
    }
  }

  /** In the decisions of a whole cycle a candidate whose signal is no entry is selected as it is, and an entry
      that something obstructs is refused for the first obstacle; that is its only decision. */
  lemma ScreenedOutFinally(s: Settings, catalogue: map<string, seq<string>>, cycleId: string, open: Ledger,
                           cs: seq<Candidate>, i: nat, k: nat)
    requires s.Valid() && i < |cs| && (cs[i].signal.NonEntry? || Obstructed(s, cs[i]))
    requires k < |RawOutcome(s, catalogue, cycleId, open, cs).0|
    requires RawOutcome(s, catalogue, cycleId, open, cs).0[k].id == i
    ensures
      var d := AssignAll(cycleId, RawOutcome(s, catalogue, cycleId, open, cs).0)[k];
      ScreenedOut(s, cycleId, cs, i, d) && d.cycleId == cycleId
  {
    var raw, screened := RawOutcome(s, catalogue, cycleId, open, cs).0, Screen(s, catalogue, cycleId, cs).0;
    ScreenDecides(s, catalogue, cycleId, cs, i);
    var j :| 0 <= j < |screened| && ScreenedOut(s, cycleId, cs, i, screened[j]);
    RawStartsScreened(s, catalogue, cycleId, open, cs);
    OutcomeIsMarked(s, catalogue, cycleId, open, cs);
    hide RawOutcome, Screen, Obstructed, FirstObstacle;
    DecisionsOf(s, catalogue, cycleId, open, cs, i);
    if j < k {
      IdsOf(raw, j, k);
    } else if k < j {
      IdsOf(raw, k, j);
    }
    assert raw[k] == screened[j];
  }

  lemma RawStartsScreened(s: Settings, catalogue: map<string, seq<string>>, cycleId: string, open: Ledger,
                          cs: seq<Candidate>)
    ensures
      var raw, screened := RawOutcome(s, catalogue, cycleId, open, cs).0, Screen(s, catalogue, cycleId, cs).0;
      |screened| <= |raw| && forall j :: 0 <= j < |screened| ==> raw[j] == screened[j]
  {
    hide Screen, Spend, OnePass, FirstOf, RestOf, Ranked, ConflictLosers;
  }

  /** Every candidate has a decision, and it is one only. */
  lemma DecisionOf(s: Settings, catalogue: map<string, seq<string>>, cycleId: string, open: Ledger,
                   cs: seq<Candidate>, i: nat) returns (k: nat)
    requires i < |cs|
    ensures k < |RawOutcome(s, catalogue, cycleId, open, cs).0|
    ensures RawOutcome(s, catalogue, cycleId, open, cs).0[k].id == i
    ensures forall l :: 0 <= l < |RawOutcome(s, catalogue, cycleId, open, cs).0| && l != k ==>
        RawOutcome(s, catalogue, cycleId, open, cs).0[l].id != i
  {
    hide RawOutcome;
    var raw := RawOutcome(s, catalogue, cycleId, open, cs).0;
    DecisionsOf(s, catalogue, cycleId, open, cs, i);
    k := PlaceOf(raw, i);
    forall l | 0 <= l < |raw| && l != k ensures raw[l].id != i {
      if raw[l].id == i {
        IdsOf(raw, if l < k then l else k, if l < k then k else l);
      }
    }
  }

  lemma {:induction false} PlaceOf(ds: seq<Decision>, id: nat) returns (k: nat)
    requires Ids(ds)[id] >= 1
    ensures k < |ds| && ds[k].id == id
  {
    if ds[|ds| - 1].id == id {
      k := |ds| - 1;
    } else {
      k := PlaceOf(ds[..|ds| - 1], id);
    }
  }
}
