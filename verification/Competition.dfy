/** Which plans never reach the budgets, and to which plan each of them loses: one of the same direction for a
    weaker duplicate, and the surviving one of the opposite direction for a direction conflict. */
module Competition {
  import opened Basics
  import opened Ordering
  import opened Allocator
  import opened PlanSelection
  import opened PlanRanking
  import opened AllocationCycle

  /* ----- Who loses to whom ----- */

  /** Another plan of the same instrument, and of the same direction or not, that this one does not beat. */
  ghost predicate LosesTo(p: Plan, q: Plan, sameDirection: bool) {
    && q != p && q.instrument == p.instrument && (q.direction == p.direction <==> sameDirection)
    && !Beats(p, q)
  }

  lemma {:induction false} RestHasFirst<K(!new)>(key: Plan -> K, xs: seq<Plan>, p: Plan)
    requires p in RestOf(key, xs)
    ensures p in xs && exists q :: q in FirstOf(key, xs) && key(q) == key(p)
  {
    FirstAndRestPartition(key, xs);
    assert p in multiset(RestOf(key, xs));
    assert p in multiset(xs);
    var i :| 0 <= i < |xs| && xs[i] == p;
    assert HasKey(key, xs, key(p));
    FirstOfKeys(key, xs);
    assert HasKey(key, FirstOf(key, xs), key(p));
    var j :| 0 <= j < |FirstOf(key, xs)| && key(FirstOf(key, xs)[j]) == key(p);
    assert FirstOf(key, xs)[j] in FirstOf(key, xs);
  }

  /** A plan that occurs once is kept or dropped by the first stage, not both. */
  lemma DroppedOnce(plans: seq<Plan>, p: Plan)
    requires multiset(plans)[p] == 1
    ensures p in RestOf(SignalOf, Ranked(plans)) ==> p !in FirstOf(SignalOf, Ranked(plans))
    ensures p in ConflictLosers(FirstOf(SignalOf, Ranked(plans))) ==> p !in OnePass(plans)
    ensures p !in OnePass(plans) ==>
              p in RestOf(SignalOf, Ranked(plans)) || p in ConflictLosers(FirstOf(SignalOf, Ranked(plans)))
  {
    hide FirstOf, RestOf, Ranked, ConflictLosers;
    var first, rest := FirstOf(SignalOf, Ranked(plans)), RestOf(SignalOf, Ranked(plans));
    RankedContents(plans);
    FirstAndRestPartition(SignalOf, Ranked(plans));
    EveryPlanDecidedOnce(plans);
    Counted(first, p);
    Counted(rest, p);
    Counted(ConflictLosers(first), p);
    Counted(OnePass(plans), p);
  }

  lemma Counted(xs: seq<Plan>, p: Plan)
    ensures p in xs <==> multiset(xs)[p] > 0
  {
  }

  lemma RankedContents(plans: seq<Plan>)
    ensures multiset(Ranked(plans)) == multiset(plans)
    ensures Sorted(PlanLe, Ranked(plans))
  {
    SortContents(PlanLe, plans);
    RankedSorted(plans);
  }

  lemma DuplicateLoses(plans: seq<Plan>, p: Plan)
    requires p in RestOf(SignalOf, Ranked(plans)) && multiset(plans)[p] == 1
    ensures exists q :: q in plans && LosesTo(p, q, true)
  {
    hide FirstOf, RestOf, Ranked, Beats, PlanLe;
    RestHasFirst(SignalOf, Ranked(plans), p);
    var q :| q in FirstOf(SignalOf, Ranked(plans)) && SignalOf(q) == SignalOf(p);
    DroppedOnce(plans, p);
    RankedContents(plans);
    FirstOfMember(SignalOf, Ranked(plans), q);
    Counted(Ranked(plans), q);
    Counted(plans, q);
    PlanLePreorder();
    FirstOfLeads(SignalOf, PlanLe, Ranked(plans), q, p);
    NotBeaten(q, p);
    assert q in plans && LosesTo(p, q, true);
  }

  lemma SurvivorOf(plans: seq<Plan>, p: Plan) returns (q: Plan)
    requires p in plans
    ensures q in OnePass(plans) && q.instrument == p.instrument && !Beats(p, q)
  {
    hide OnePass, Beats, PlanLe;
    SurvivorsAreBest(plans);
    q :| q in OnePass(plans) && q.instrument == p.instrument;
    NotBeaten(q, p);
  }

  lemma ConflictLoserIsPlan(plans: seq<Plan>, p: Plan)
    requires p in ConflictLosers(FirstOf(SignalOf, Ranked(plans)))
    ensures p in plans && p in FirstOf(SignalOf, Ranked(plans))
  {
    hide FirstOf, RestOf, Ranked, ConflictLosers;
    var kept := FirstOf(SignalOf, Ranked(plans));
    ConflictPartition(kept);
    Counted(ConflictLosers(kept), p);
    Counted(kept, p);
    RankedContents(plans);
    FirstOfMember(SignalOf, Ranked(plans), p);
    Counted(Ranked(plans), p);
    Counted(plans, p);
  }

  lemma SurvivorIsKept(plans: seq<Plan>, q: Plan)
    requires q in OnePass(plans)
    ensures q in FirstOf(SignalOf, Ranked(plans))
  {
    hide FirstOf, Ranked;
    TwoStagesAreOnePass(plans);
    FirstOfMember(InstrumentOf, FirstOf(SignalOf, Ranked(plans)), q);
  }

  lemma ConflictLoses(plans: seq<Plan>, p: Plan)
    requires p in ConflictLosers(FirstOf(SignalOf, Ranked(plans))) && multiset(plans)[p] == 1
    ensures exists q :: q in OnePass(plans) && LosesTo(p, q, false)
  {
    hide FirstOf, RestOf, Ranked, ConflictLosers, Beats, OnePass;
    ConflictLoserIsPlan(plans, p);
    var q := SurvivorOf(plans, p);
    DroppedOnce(plans, p);
    SurvivorIsKept(plans, q);
    DirectionsDiffer(FirstOf(SignalOf, Ranked(plans)), Ranked(plans), p, q);
    assert LosesTo(p, q, false);
  }

  lemma DirectionsDiffer(kept: seq<Plan>, ranked: seq<Plan>, p: Plan, q: Plan)
    requires kept == FirstOf(SignalOf, ranked) && p in kept && q in kept && p != q && p.instrument == q.instrument
    ensures p.direction != q.direction
  {
    hide FirstOf;
    FirstOfKeys(SignalOf, ranked);
    var i :| 0 <= i < |kept| && kept[i] == p;
    var j :| 0 <= j < |kept| && kept[j] == q;
    assert SignalOf(kept[i]) != SignalOf(kept[j]) || i == j;
  }

  /* ----- In a cycle ----- */

  /** A refusal in competition: nothing granted, no budget named, the percent asked for kept. */
  ghost predicate TurnsAway(d: Decision, p: Plan, reason: Reason) {
    && d.id == p.id && !d.selected && d.reason == reason && d.requestedRisk == p.requestedRisk
    && d.size == d.risk == d.amount == 0.0 && d.binding == None
  }

  /** Candidates give rise to plans of different ids. */
  lemma PlansDiffer(s: Settings, catalogue: map<string, seq<string>>, cycleId: string, cs: seq<Candidate>, p: Plan)
    requires s.Valid() && p in Screen(s, catalogue, cycleId, cs).1
    ensures multiset(Screen(s, catalogue, cycleId, cs).1)[p] == 1
  {
    hide Screen, PlannableIds, Plannable, PlanOf;
    var plans, ids := Screen(s, catalogue, cycleId, cs).1, PlannableIds(s, cs);
    PlansOfPlannable(s, catalogue, cycleId, cs);
    PlannableIdsAre(s, cs);
    forall i | 0 <= i < |plans| ensures plans[i].id == ids[i] {
      IdOf(s, catalogue, plans[i], ids[i], cs[ids[i]]);
    }
    var i :| 0 <= i < |plans| && plans[i] == p;
    assert plans == plans[..i] + [p] + plans[i + 1..];
    assert p !in plans[..i] && p !in plans[i + 1..];
  }

  lemma IdOf(s: Settings, catalogue: map<string, seq<string>>, p: Plan, id: nat, c: Candidate)
    requires PlanOf(s, catalogue, p, id, c)
    ensures p.id == id
  {
  }

  /** A plan that does not reach the budgets is turned away by a plan it does not beat: as a weaker duplicate
      by one of its direction, or in conflict by the surviving one of the opposite direction. */
  lemma TurnedAway(s: Settings, catalogue: map<string, seq<string>>, cycleId: string, open: Ledger,
                   cs: seq<Candidate>, p: Plan)
    requires s.Valid() && p in Screen(s, catalogue, cycleId, cs).1 && p !in Contenders(s, catalogue, cycleId, cs)
    ensures
      var plans, ds := Screen(s, catalogue, cycleId, cs).1, RawOutcome(s, catalogue, cycleId, open, cs).0;
      || (HasRefusal(ds, p, WeakerDuplicate) && exists q :: q in plans && LosesTo(p, q, true))
      || (HasRefusal(ds, p, DirectionConflict)
          && exists q :: q in Contenders(s, catalogue, cycleId, cs) && LosesTo(p, q, false))
  {
    hide Screen, FirstOf, RestOf, Ranked, ConflictLosers, Spend, LosesTo, TurnsAway;
    var plans := Screen(s, catalogue, cycleId, cs).1;
    PlansDiffer(s, catalogue, cycleId, cs, p);
    DroppedOnce(plans, p);
    var rest := RestOf(SignalOf, Ranked(plans));
    var losers := ConflictLosers(FirstOf(SignalOf, Ranked(plans)));
    var ds := RawOutcome(s, catalogue, cycleId, open, cs).0;
    if p in rest {
      DuplicateLoses(plans, p);
      RefusalAmong(rest, WeakerDuplicate, p);
      HasRefusalPart(Screen(s, catalogue, cycleId, cs).0, RejectAll(rest, WeakerDuplicate),
                     RejectAll(losers, DirectionConflict)
                     + Spend(s, cycleId, open, EMPTY, OnePass(plans)).0, ds, p, WeakerDuplicate);
    } else {
      ConflictLoses(plans, p);
      RefusalAmong(losers, DirectionConflict, p);
      HasRefusalPart(Screen(s, catalogue, cycleId, cs).0 + RejectAll(rest, WeakerDuplicate),
                     RejectAll(losers, DirectionConflict), Spend(s, cycleId, open, EMPTY, OnePass(plans)).0,
                     ds, p, DirectionConflict);
    }
  }

  ghost predicate HasRefusal(ds: seq<Decision>, p: Plan, reason: Reason) {
    exists k :: 0 <= k < |ds| && TurnsAway(ds[k], p, reason)
  }

  lemma RefusalAmong(ps: seq<Plan>, reason: Reason, p: Plan)
    requires p in ps
    ensures HasRefusal(RejectAll(ps, reason), p, reason)
  {
    var k :| 0 <= k < |ps| && ps[k] == p;
    assert TurnsAway(RejectAll(ps, reason)[k], p, reason);
  }

  lemma HasRefusalPart(before: seq<Decision>, part: seq<Decision>, after: seq<Decision>, all: seq<Decision>, p: Plan,
                       reason: Reason)
    requires HasRefusal(part, p, reason) && all == before + part + after
    ensures HasRefusal(all, p, reason)
  {
    hide TurnsAway;
    var k :| 0 <= k < |part| && TurnsAway(part[k], p, reason);
    assert all[|before| + k] == part[k];
  }
}
