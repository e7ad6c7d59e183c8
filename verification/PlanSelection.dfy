/** Which plans of a cycle compete for the budgets: weaker duplicates are suppressed first,
    then conflicting directions are resolved, one plan per instrument surviving. */
module PlanSelection {
  import opened Basics
  import opened Ordering
  import opened Allocator

  /** Descending score, then strategy, then instrument. */
  predicate PlanLe(a: Plan, b: Plan) {
    a.score > b.score
    || (a.score == b.score
        && (if a.strategy == b.strategy then StringLe(a.instrument, b.instrument)
            else StringLe(a.strategy, b.strategy)))
  }

  /** The coarser ranking used among the plans of one instrument. */
  predicate RankLe(a: Plan, b: Plan) {
    a.score > b.score || (a.score == b.score && StringLe(a.strategy, b.strategy))
  }

  lemma PlanLePreorder()
    ensures TotalPreorder(PlanLe)
  {
    forall a: Plan, b: Plan ensures PlanLe(a, b) || PlanLe(b, a) {
      StringLeTotal(a.strategy, b.strategy);
      StringLeTotal(a.instrument, b.instrument);
    }
    forall a: Plan, b: Plan, c: Plan | PlanLe(a, b) && PlanLe(b, c) ensures PlanLe(a, c) {
      if a.score == c.score {
        if a.strategy == b.strategy && b.strategy == c.strategy {
          StringLeTransitive(a.instrument, b.instrument, c.instrument);
        } else {
          if StringLe(a.strategy, b.strategy) && StringLe(b.strategy, c.strategy) {
            StringLeTransitive(a.strategy, b.strategy, c.strategy);
          }
          StringLeTotal(a.strategy, b.strategy);
          StringLeTotal(b.strategy, c.strategy);
        }
      }
    }
  }

  /** The order in which the allocator looks at plans. */
  function Ranked(plans: seq<Plan>): seq<Plan> { StableSort(PlanLe, plans) }

  /* ----- First of each key ----- */

  predicate HasKey<K(==)>(key: Plan -> K, xs: seq<Plan>, k: K) {
    exists i :: 0 <= i < |xs| && key(xs[i]) == k
  }

  /** The elements whose key has not occurred before. */
  function FirstOf<K(==)>(key: Plan -> K, xs: seq<Plan>): seq<Plan> {
    if xs == [] then []
    else
      var earlier, x := xs[..|xs| - 1], xs[|xs| - 1];
      if HasKey(key, earlier, key(x)) then FirstOf(key, earlier) else FirstOf(key, earlier) + [x]
  }

  /** The other elements. */
  function RestOf<K(==)>(key: Plan -> K, xs: seq<Plan>): seq<Plan> {
    if xs == [] then []
    else
      var earlier, x := xs[..|xs| - 1], xs[|xs| - 1];
      if HasKey(key, earlier, key(x)) then RestOf(key, earlier) + [x] else RestOf(key, earlier)
  }

  lemma {:induction false} FirstOfMember<K>(key: Plan -> K, xs: seq<Plan>, p: Plan)
    requires p in FirstOf(key, xs)
    ensures p in xs
  {
    if p in FirstOf(key, xs[..|xs| - 1]) {
      FirstOfMember(key, xs[..|xs| - 1], p);
    }
  }

  lemma {:induction false} FirstAndRestPartition<K>(key: Plan -> K, xs: seq<Plan>)
    ensures multiset(FirstOf(key, xs)) + multiset(RestOf(key, xs)) == multiset(xs)
  {
    if xs != [] {
      FirstAndRestPartition(key, xs[..|xs| - 1]);
      assert xs == xs[..|xs| - 1] + [xs[|xs| - 1]];
    }
  }

  /** No key twice, and every key that occurs is kept. */
  lemma {:induction false} FirstOfKeys<K(!new)>(key: Plan -> K, xs: seq<Plan>)
    ensures forall k :: HasKey(key, FirstOf(key, xs), k) <==> HasKey(key, xs, k)
    ensures forall i, j :: 0 <= i < j < |FirstOf(key, xs)| ==> key(FirstOf(key, xs)[i]) != key(FirstOf(key, xs)[j])
  {
    if xs != [] {
      var earlier, x := xs[..|xs| - 1], xs[|xs| - 1];
      FirstOfKeys(key, earlier);
      KeysSnoc(key, earlier, x);
      assert xs == earlier + [x];
      if !HasKey(key, earlier, key(x)) {
        KeysSnoc(key, FirstOf(key, earlier), x);
        assert !HasKey(key, FirstOf(key, earlier), key(x));
      }
    }
  }

  lemma KeysSnoc<K(!new)>(key: Plan -> K, xs: seq<Plan>, x: Plan)
    ensures forall k :: HasKey(key, xs + [x], k) <==> HasKey(key, xs, k) || k == key(x)
  {
    forall k ensures HasKey(key, xs + [x], k) <==> HasKey(key, xs, k) || k == key(x) {
      if HasKey(key, xs, k) {
        var i :| 0 <= i < |xs| && key(xs[i]) == k;
        assert key((xs + [x])[i]) == k;
      }
      assert key((xs + [x])[|xs|]) == key(x);
      if HasKey(key, xs + [x], k) {
        var i :| 0 <= i < |xs| + 1 && key((xs + [x])[i]) == k;
        if i < |xs| {
          assert key(xs[i]) == k;
        }
      }
    }
  }

  /** Keeping the first of each fine key and then the first of each coarse key is one pass. */
  lemma {:induction false} FirstOfFirst<F(!new), K(!new)>(fine: Plan -> F, coarse: Plan -> K, xs: seq<Plan>)
    requires forall p, q :: fine(p) == fine(q) ==> coarse(p) == coarse(q)
    ensures FirstOf(coarse, FirstOf(fine, xs)) == FirstOf(coarse, xs)
    ensures forall k :: HasKey(coarse, FirstOf(fine, xs), k) <==> HasKey(coarse, xs, k)
  {
    if xs != [] {
      hide HasKey;
      var earlier, x := xs[..|xs| - 1], xs[|xs| - 1];
      FirstOfFirst(fine, coarse, earlier);
      assert xs == earlier + [x];
      KeysSnoc(coarse, earlier, x);
      var kept := FirstOf(fine, earlier);
      if HasKey(fine, earlier, fine(x)) {
        CoarserKey(fine, coarse, earlier, x);
      } else {
        KeysSnoc(coarse, kept, x);
        assert (kept + [x])[..|kept|] == kept;
      }
    }
  }

  lemma CoarserKey<F(!new), K(!new)>(fine: Plan -> F, coarse: Plan -> K, xs: seq<Plan>, x: Plan)
    requires forall p, q :: fine(p) == fine(q) ==> coarse(p) == coarse(q)
    requires HasKey(fine, xs, fine(x))
    ensures HasKey(coarse, xs, coarse(x))
  {
    var i :| 0 <= i < |xs| && fine(xs[i]) == fine(x);
    assert coarse(xs[i]) == coarse(x);
  }

  /** A subsequence of a sorted sequence is sorted. */
  lemma {:induction false} FirstOfSorted<K>(key: Plan -> K, le: (Plan, Plan) -> bool, xs: seq<Plan>)
    requires Sorted(le, xs)
    ensures Sorted(le, FirstOf(key, xs))
  {
    if xs != [] {
      var earlier, x := xs[..|xs| - 1], xs[|xs| - 1];
      FirstOfSorted(key, le, earlier);
      forall y | y in FirstOf(key, earlier) ensures le(y, x) {
        FirstOfMember(key, earlier, y);
      }
    }
  }

  /** In a sorted sequence the first of a key precedes all others of that key. */
  lemma {:induction false} FirstOfLeads<K>(key: Plan -> K, le: (Plan, Plan) -> bool, xs: seq<Plan>, p: Plan, q: Plan)
    requires Sorted(le, xs) && le(q, q)
    requires p in FirstOf(key, xs) && q in xs && key(p) == key(q)
    ensures le(p, q)
  {
    var earlier, x := xs[..|xs| - 1], xs[|xs| - 1];
    assert xs == earlier + [x];
    if p in FirstOf(key, earlier) {
      FirstOfMember(key, earlier, p);
      if q in earlier {
        FirstOfLeads(key, le, earlier, p, q);
      } else {
        assert q == x && p in earlier;
      }
    } else {
      assert p == x && !HasKey(key, earlier, key(x));
      assert q !in earlier;
    }
  }

  /* ----- The two stages and the one pass ----- */

  function InstrumentOf(p: Plan): string { p.instrument }
  function SignalOf(p: Plan): (string, Direction) { (p.instrument, p.direction) }

  function RejectAll(plans: seq<Plan>, reason: Reason): (r: seq<Decision>)
    ensures |r| == |plans|
    ensures forall i :: 0 <= i < |r| ==> r[i] == Reject(plans[i], reason, None)
  {
    seq(|plans|, i requires 0 <= i < |plans| => Reject(plans[i], reason, None))
  }

  /** One plan per instrument: the first in ranking order. */
  function OnePass(plans: seq<Plan>): seq<Plan> { FirstOf(InstrumentOf, Ranked(plans)) }

  /** Keeps the first plan per instrument and direction; the others are rejected. */
  method SuppressWeakerDuplicates(plans: seq<Plan>, decisions: seq<Decision>)
    returns (kept: seq<Plan>, extended: seq<Decision>)
    ensures kept == FirstOf(SignalOf, Ranked(plans))
    ensures extended == decisions + RejectAll(RestOf(SignalOf, Ranked(plans)), WeakerDuplicate)
  {
    var ranked := Ranked(plans);
    var best: map<(string, Direction), Plan> := map[];
    kept, extended := [], decisions;
    for n := 0 to |ranked|
      invariant kept == FirstOf(SignalOf, ranked[..n])
      invariant forall k :: k in best <==> HasKey(SignalOf, ranked[..n], k)
      invariant extended == decisions + RejectAll(RestOf(SignalOf, ranked[..n]), WeakerDuplicate)
    {
      var plan := ranked[n];
      assert ranked[..n + 1][..n] == ranked[..n];
      assert ranked[..n + 1] == ranked[..n] + [plan];
      KeysSnoc(SignalOf, ranked[..n], plan);
      if SignalOf(plan) !in best {
        best := best[SignalOf(plan) := plan];
        kept := kept + [plan];
      } else {
        extended := extended + [Reject(plan, WeakerDuplicate, None)];
      }
    }
    assert ranked[..|ranked|] == ranked;
  }

  /** The plans of one instrument, in order. */
  function Entries(plans: seq<Plan>, k: string): seq<Plan> {
    if plans == [] then []
    else
      var earlier, x := plans[..|plans| - 1], plans[|plans| - 1];
      Entries(earlier, k) + (if x.instrument == k then [x] else [])
  }

  lemma {:induction false} EntriesMember(plans: seq<Plan>, k: string, p: Plan)
    requires p in Entries(plans, k)
    ensures p in plans && p.instrument == k
  {
    if p in Entries(plans[..|plans| - 1], k) {
      EntriesMember(plans[..|plans| - 1], k, p);
    }
  }

  lemma NoEntries(plans: seq<Plan>, k: string)
    requires !HasKey(InstrumentOf, plans, k)
    ensures Entries(plans, k) == []
  {
    if plans != [] {
      var earlier, x := plans[..|plans| - 1], plans[|plans| - 1];
      KeysSnoc(InstrumentOf, earlier, x);
      assert plans == earlier + [x];
      NoEntries(earlier, k);
    }
  }

  lemma EntriesSorted(plans: seq<Plan>, k: string)
    requires Sorted(PlanLe, plans)
    ensures Sorted(PlanLe, Entries(plans, k))
  {
    if plans != [] {
      var earlier, x := plans[..|plans| - 1], plans[|plans| - 1];
      EntriesSorted(earlier, k);
      forall y | y in Entries(earlier, k) ensures PlanLe(y, x) {
        EntriesMember(earlier, k, y);
      }
    }
  }

  /** The groups a dictionary of lists holds after the plans have been appended to it in turn. */
  function Groups(plans: seq<Plan>): map<string, seq<Plan>> {
    if plans == [] then map[] else Place(Groups(plans[..|plans| - 1]), plans[|plans| - 1])
  }

  function Place(grouped: map<string, seq<Plan>>, x: Plan): map<string, seq<Plan>> {
    grouped[x.instrument := (if x.instrument in grouped then grouped[x.instrument] else []) + [x]]
  }

  lemma {:induction false} GroupsAre(plans: seq<Plan>, k: string)
    ensures k in Groups(plans) <==> HasKey(InstrumentOf, plans, k)
    ensures k in Groups(plans) ==> Groups(plans)[k] == Entries(plans, k)
  {
    if plans != [] {
      var earlier, x := plans[..|plans| - 1], plans[|plans| - 1];
      GroupsAre(earlier, k);
      KeysSnoc(InstrumentOf, earlier, x);
      assert plans == earlier + [x];
      if k !in Groups(earlier) {
        NoEntries(earlier, k);
      }
    }
  }

  /** Instruments in the order in which their groups were opened. */
  function GroupOrder(plans: seq<Plan>): seq<string> {
    if plans == [] then []
    else
      var earlier, x := plans[..|plans| - 1], plans[|plans| - 1];
      if HasKey(InstrumentOf, earlier, x.instrument) then GroupOrder(earlier)
      else GroupOrder(earlier) + [x.instrument]
  }

  lemma OrderOfSurvivors(plans: seq<Plan>)
    ensures |GroupOrder(plans)| == |FirstOf(InstrumentOf, plans)|
    ensures forall i :: 0 <= i < |GroupOrder(plans)| ==>
        GroupOrder(plans)[i] == FirstOf(InstrumentOf, plans)[i].instrument
  {
  }

  /** The survivor of an instrument heads its group. */
  lemma {:induction false} SurvivorHeadsGroup(plans: seq<Plan>, i: nat)
    requires i < |FirstOf(InstrumentOf, plans)|
    ensures
      var head := FirstOf(InstrumentOf, plans)[i];
      Entries(plans, head.instrument) != [] && Entries(plans, head.instrument)[0] == head
  {
    var earlier, x := plans[..|plans| - 1], plans[|plans| - 1];
    var heads := FirstOf(InstrumentOf, earlier);
    if i < |heads| {
      SurvivorHeadsGroup(earlier, i);
    } else {
      NoEntries(earlier, x.instrument);
    }
  }

  function Pooled(order: seq<string>, plans: seq<Plan>): multiset<Plan> {
    if order == [] then multiset{}
    else Pooled(order[..|order| - 1], plans) + multiset(Entries(plans, order[|order| - 1]))
  }

  lemma EntriesMore(earlier: seq<Plan>, x: Plan, k: string)
    ensures Entries(earlier + [x], k) == Entries(earlier, k) + (if x.instrument == k then [x] else [])
  {
    assert (earlier + [x])[..|earlier|] == earlier;
  }

  lemma PooledSame(order: seq<string>, earlier: seq<Plan>, x: Plan)
    requires x.instrument !in order
    ensures Pooled(order, earlier + [x]) == Pooled(order, earlier)
  {
    if order != [] {
      PooledSame(order[..|order| - 1], earlier, x);
      EntriesMore(earlier, x, order[|order| - 1]);
    }
  }

  lemma PooledMore(order: seq<string>, earlier: seq<Plan>, x: Plan)
    requires forall i, j :: 0 <= i < j < |order| ==> order[i] != order[j]
    requires x.instrument in order
    ensures Pooled(order, earlier + [x]) == Pooled(order, earlier) + multiset{x}
  {
    hide Entries;
    var rest, k := order[..|order| - 1], order[|order| - 1];
    EntriesMore(earlier, x, k);
    if x.instrument == k {
      PooledSame(rest, earlier, x);
    } else {
      PooledMore(rest, earlier, x);
    }
  }

  /** Everything but the heads of the groups. */
  function Losers(order: seq<string>, plans: seq<Plan>): seq<Plan> {
    if order == [] then []
    else
      var entries := Entries(plans, order[|order| - 1]);
      Losers(order[..|order| - 1], plans) + (if entries == [] then [] else entries[1..])
  }

  lemma LosersStep(order: seq<string>, plans: seq<Plan>, g: nat)
    requires g < |order| && Entries(plans, order[g]) != []
    ensures RejectAll(Losers(order[..g + 1], plans), DirectionConflict)
         == RejectAll(Losers(order[..g], plans), DirectionConflict)
            + RejectAll(Entries(plans, order[g])[1..], DirectionConflict)
  {
    assert order[..g + 1][..g] == order[..g];
  }

  lemma OneMoreGroup<T>(heads: seq<T>, losers: seq<T>, entries: seq<T>, pooled: multiset<T>)
    requires entries != [] && multiset(heads) + multiset(losers) == pooled
    ensures multiset(heads + [entries[0]]) + multiset(losers + entries[1..]) == pooled + multiset(entries)
  {
    assert entries == [entries[0]] + entries[1..];
  }

  lemma {:induction false} HeadsAndLosers(plans: seq<Plan>, g: nat)
    requires g <= |GroupOrder(plans)| == |FirstOf(InstrumentOf, plans)|
    ensures multiset(FirstOf(InstrumentOf, plans)[..g]) + multiset(Losers(GroupOrder(plans)[..g], plans))
         == Pooled(GroupOrder(plans)[..g], plans)
  {
    hide GroupOrder, FirstOf, Entries, Losers, Pooled;
    var order, heads := GroupOrder(plans), FirstOf(InstrumentOf, plans);
    if g > 0 {
      HeadsAndLosers(plans, g - 1);
      GroupAt(plans, g - 1);
      var losers, entries := Losers(order[..g - 1], plans), Entries(plans, order[g - 1]);
      var kept, pooled := heads[..g - 1], Pooled(order[..g - 1], plans);
      LastGroup(order, plans, g);
      assert heads[..g] == kept + [entries[0]];
      OneMoreGroup(kept, losers, entries, pooled);
    } else {
      assert heads[..0] == [] && order[..0] == [];
      NoGroups(plans);
    }
  }

  lemma NoGroups(plans: seq<Plan>)
    ensures Losers([], plans) == [] && Pooled([], plans) == multiset{}
  {
  }

  lemma GroupAt(plans: seq<Plan>, i: nat)
    requires i < |GroupOrder(plans)| == |FirstOf(InstrumentOf, plans)|
    ensures
      var entries := Entries(plans, GroupOrder(plans)[i]);
      entries != [] && entries[0] == FirstOf(InstrumentOf, plans)[i]
  {
    hide GroupOrder, FirstOf, Entries;
    OrderOfSurvivors(plans);
    SurvivorHeadsGroup(plans, i);
  }

  lemma LastGroup(order: seq<string>, plans: seq<Plan>, g: nat)
    requires 0 < g <= |order| && Entries(plans, order[g - 1]) != []
    ensures Losers(order[..g], plans) == Losers(order[..g - 1], plans) + Entries(plans, order[g - 1])[1..]
    ensures Pooled(order[..g], plans) == Pooled(order[..g - 1], plans) + multiset(Entries(plans, order[g - 1]))
  {
    hide Entries;
    assert order[..g][..g - 1] == order[..g - 1];
  }

  /** The groups together hold every plan exactly once. */
  lemma {:induction false} GroupsHoldAll(plans: seq<Plan>)
    ensures Pooled(GroupOrder(plans), plans) == multiset(plans)
  {
    if plans != [] {
      var earlier, x := plans[..|plans| - 1], plans[|plans| - 1];
      var order := GroupOrder(earlier);
      assert plans == earlier + [x];
      GroupsHoldAll(earlier);
      FirstOfKeys(InstrumentOf, earlier);
      OrderOfSurvivors(earlier);
      OrderKeys(earlier, x.instrument);
      if HasKey(InstrumentOf, earlier, x.instrument) {
        PooledMore(order, earlier, x);
      } else {
        PooledSame(order, earlier, x);
        assert (order + [x.instrument])[..|order|] == order;
        NoEntries(earlier, x.instrument);
        assert Entries(plans, x.instrument) == [x];
      }
    }
  }

  lemma OrderKeys(plans: seq<Plan>, k: string)
    ensures k in GroupOrder(plans) <==> HasKey(InstrumentOf, plans, k)
  {
    var heads, order := FirstOf(InstrumentOf, plans), GroupOrder(plans);
    OrderOfSurvivors(plans);
    FirstOfKeys(InstrumentOf, plans);
    hide FirstOf, GroupOrder;
    if k in order {
      var i :| 0 <= i < |order| && order[i] == k;
      assert InstrumentOf(heads[i]) == k;
    }
    if HasKey(InstrumentOf, plans, k) {
      assert HasKey(InstrumentOf, heads, k);
      var i :| 0 <= i < |heads| && InstrumentOf(heads[i]) == k;
      assert order[i] == k;
    }
  }

  /** Among the plans of one instrument the ranking by score and strategy adds nothing. */
  lemma EntriesAlreadyRanked(plans: seq<Plan>, k: string)
    requires Sorted(PlanLe, plans)
    ensures StableSort(RankLe, Entries(plans, k)) == Entries(plans, k)
  {
    var entries := Entries(plans, k);
    EntriesSorted(plans, k);
    forall i, j | 0 <= i < j < |entries| ensures RankLe(entries[i], entries[j]) {
      assert PlanLe(entries[i], entries[j]);
      EntriesMember(plans, k, entries[i]);
      EntriesMember(plans, k, entries[j]);
      StringLeTotal(entries[i].strategy, entries[j].strategy);
    }
    SortedIsFixpoint(RankLe, entries);
  }

  method GroupByInstrument(plans: seq<Plan>) returns (order: seq<string>, grouped: map<string, seq<Plan>>)
    ensures order == GroupOrder(plans) && grouped == Groups(plans)
  {
    order, grouped := [], map[];
    for n := 0 to |plans|
      invariant order == GroupOrder(plans[..n]) && grouped == Groups(plans[..n])
    {
      var plan := plans[n];
      assert plans[..n + 1][..n] == plans[..n];
      GroupsAre(plans[..n], plan.instrument);
      if plan.instrument !in grouped {
        order := order + [plan.instrument];
      }
      grouped := Place(grouped, plan);
    }
    assert plans[..|plans|] == plans;
  }

  method RejectLosers(losers: seq<Plan>, decisions: seq<Decision>) returns (extended: seq<Decision>)
    ensures extended == decisions + RejectAll(losers, DirectionConflict)
  {
    extended := decisions;
    for i := 0 to |losers|
      invariant extended == decisions + RejectAll(losers[..i], DirectionConflict)
    {
      extended := extended + [Reject(losers[i], DirectionConflict, None)];
    }
    assert losers[..|losers|] == losers;
  }

  lemma GroupFacts(plans: seq<Plan>, g: nat)
    requires Sorted(PlanLe, plans) && g < |GroupOrder(plans)|
    ensures g < |FirstOf(InstrumentOf, plans)|
    ensures
      var k := GroupOrder(plans)[g];
      && k in Groups(plans) && Groups(plans)[k] == Entries(plans, k) && Entries(plans, k) != []
      && Entries(plans, k)[0] == FirstOf(InstrumentOf, plans)[g]
      && StableSort(RankLe, Entries(plans, k)) == Entries(plans, k)
  {
    var k := GroupOrder(plans)[g];
    OrderOfSurvivors(plans);
    hide FirstOf, GroupOrder, Entries, Groups, HasKey;
    OrderKeys(plans, k);
    GroupsAre(plans, k);
    SurvivorHeadsGroup(plans, g);
    EntriesAlreadyRanked(plans, k);
  }

  method ResolveGroup(entries: seq<Plan>, decisions: seq<Decision>)
    returns (winner: Plan, extended: seq<Decision>)
    requires entries != [] && StableSort(RankLe, entries) == entries
    ensures winner == entries[0]
    ensures extended == decisions + RejectAll(entries[1..], DirectionConflict)
  {
    if |entries| == 1 {
      return entries[0], decisions;
    }
    var ranked := StableSort(RankLe, entries);
    winner := ranked[0];
    extended := RejectLosers(ranked[1..], decisions);
  }

  /** One plan survives per instrument; the others, of the other direction, are rejected. */
  method ResolveDirectionConflicts(plans: seq<Plan>, decisions: seq<Decision>)
    returns (selected: seq<Plan>, extended: seq<Decision>)
    requires Sorted(PlanLe, plans)
    ensures selected == FirstOf(InstrumentOf, plans)
    ensures extended == decisions + RejectAll(ConflictLosers(plans), DirectionConflict)
  {
    hide StableSort, Entries, FirstOf, Groups, GroupOrder, RankLe, PlanLe, HasKey;
    var order, grouped := GroupByInstrument(plans);
    ghost var heads := FirstOf(InstrumentOf, plans);
    OrderOfSurvivors(plans);
    selected, extended := [], decisions;
    for g := 0 to |order|
      invariant selected == heads[..g]
      invariant extended == decisions + RejectAll(Losers(order[..g], plans), DirectionConflict)
    {
      GroupFacts(plans, g);
      LosersStep(order, plans, g);
      var winner;
      winner, extended := ResolveGroup(grouped[order[g]], extended);
      selected := selected + [winner];
    }
    assert order[..|order|] == order;
  }

  function ConflictLosers(plans: seq<Plan>): seq<Plan> { Losers(GroupOrder(plans), plans) }

  /** Every plan offered to the conflict stage is either kept or rejected, once. */
  lemma ConflictPartition(plans: seq<Plan>)
    ensures multiset(FirstOf(InstrumentOf, plans)) + multiset(ConflictLosers(plans)) == multiset(plans)
  {
    hide GroupOrder, FirstOf, Losers, Pooled;
    var order, heads := GroupOrder(plans), FirstOf(InstrumentOf, plans);
    OrderOfSurvivors(plans);
    HeadsAndLosers(plans, |order|);
    GroupsHoldAll(plans);
    assert order[..|order|] == order && heads[..|order|] == heads;
  }

  /** Suppression followed by conflict resolution is the one pass. */
  lemma TwoStagesAreOnePass(plans: seq<Plan>)
    ensures FirstOf(InstrumentOf, FirstOf(SignalOf, Ranked(plans))) == OnePass(plans)
  {
    FirstOfFirst(SignalOf, InstrumentOf, Ranked(plans));
  }

  /** The suppressed list is sorted, so the conflict stage may be run on it. */
  lemma SuppressedIsSorted(plans: seq<Plan>)
    ensures Sorted(PlanLe, FirstOf(SignalOf, Ranked(plans)))
  {
    PlanLePreorder();
    SortSorted(PlanLe, plans);
    FirstOfSorted(SignalOf, PlanLe, Ranked(plans));
  }

  /** Exactly one survivor per instrument that has a plan, and none of its rivals ranks before it. */
  lemma SurvivorsAreBest(plans: seq<Plan>)
    ensures forall p :: p in OnePass(plans) ==> p in plans
    ensures forall p, q ::
      p in OnePass(plans) && q in plans && p.instrument == q.instrument ==> PlanLe(p, q) && p.score >= q.score
    ensures forall q :: q in plans ==> exists p :: p in OnePass(plans) && p.instrument == q.instrument
    ensures forall i, j ::
      0 <= i < j < |OnePass(plans)| ==> OnePass(plans)[i].instrument != OnePass(plans)[j].instrument
  {
    var ranked := Ranked(plans);
    PlanLePreorder();
    SortSorted(PlanLe, plans);
    SortContents(PlanLe, plans);
    FirstOfKeys(InstrumentOf, ranked);
    forall p | p in OnePass(plans) ensures p in plans {
      FirstOfMember(InstrumentOf, ranked, p);
    }
    forall p, q | p in OnePass(plans) && q in plans && p.instrument == q.instrument ensures PlanLe(p, q) {
      FirstOfLeads(InstrumentOf, PlanLe, ranked, p, q);
    }
    forall q | q in plans ensures exists p :: p in OnePass(plans) && p.instrument == q.instrument {
      assert q in ranked;
      var i :| 0 <= i < |ranked| && ranked[i] == q;
      assert InstrumentOf(ranked[i]) == q.instrument;
      assert HasKey(InstrumentOf, OnePass(plans), q.instrument);
    }
  }

  /** Sorting the survivors again before they are allocated changes nothing. */
  lemma LaterSortIsNoOp(plans: seq<Plan>)
    ensures Ranked(OnePass(plans)) == OnePass(plans)
  {
    PlanLePreorder();
    SortSorted(PlanLe, plans);
    FirstOfSorted(InstrumentOf, PlanLe, Ranked(plans));
    SortedIsFixpoint(PlanLe, OnePass(plans));
  }

  /** Every plan is kept once, or rejected once by exactly one of the two stages. */
  lemma EveryPlanDecidedOnce(plans: seq<Plan>)
    ensures
      multiset(OnePass(plans))
      + multiset(RestOf(SignalOf, Ranked(plans)))
      + multiset(ConflictLosers(FirstOf(SignalOf, Ranked(plans)))) == multiset(plans)
  {
    var kept := FirstOf(SignalOf, Ranked(plans));
    SortContents(PlanLe, plans);
    FirstAndRestPartition(SignalOf, Ranked(plans));
    ConflictPartition(kept);
    TwoStagesAreOnePass(plans);
  }
}
