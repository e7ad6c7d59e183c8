/** The stored book: what a cycle's grants look like once they are stored, and what a later cycle
    reads back. */
module StoredBook {
  import opened Basics
  import opened Allocator
  import opened AllocationCycle
  import opened OpenBook
  import OpenBookSums
  import IgSizing

  /** `list_trade_intents` returns at most this many rows, the most recently updated ones. */
  const LIST_LIMIT := 250

  function Listed(intents: seq<Intent>): seq<Intent> {
    if |intents| <= LIST_LIMIT then intents else intents[|intents| - LIST_LIMIT..]
  }

  /** The rows that the listing leaves out. */
  function Unlisted(intents: seq<Intent>): seq<Intent> {
    if |intents| <= LIST_LIMIT then [] else intents[..|intents| - LIST_LIMIT]
  }

  /** No row that the listing leaves out would be counted. */
  ghost predicate Covered(positions: seq<Position>, intents: seq<Intent>) {
    NoneCounted(Held(positions), Unlisted(intents))
  }

  ghost predicate NoneCounted(held: set<nat>, intents: seq<Intent>) {
    forall i :: 0 <= i < |intents| ==> !Counted(held, intents[i])
  }

  /** Intents in the order of their last update. */
  datatype Book = Book(positions: seq<Position>, intents: seq<Intent>)

  function Weighs(catalogue: Catalogue, b: Book, g: Gauge): real {
    BookSum(catalogue, b.positions, b.intents, g)
  }

  function Rebuild(catalogue: Catalogue, b: Book): Ledger {
    OpenState(catalogue, b.positions, Listed(b.intents))
  }

  datatype Grant = Grant(plan: Plan, decision: Decision)

  /** The selected decisions of a cycle, with their plans. */
  function Grants(s: Settings, cycleId: string, open: Ledger, cycle: Ledger, plans: seq<Plan>): seq<Grant>
    decreases |plans|
  {
    if plans == [] then []
    else
      var d := AllocateCandidate(s, cycleId, plans[0], open, cycle);
      (if d.selected then [Grant(plans[0], d)] else [])
      + Grants(s, cycleId, open, Reserve(cycle, plans[0], d), plans[1..])
  }

  /** The row written for a grant: both the allocated and the requested percent are kept. */
  function StoredIntent(id: nat, observedPrice: Option<real>, g: Grant): Intent {
    Intent(Some(id), None, g.plan.strategy, Some(g.plan.family), g.plan.instrument,
           Some(g.decision.risk), Some(g.plan.requestedRisk),
           Some(g.decision.size), Some(g.plan.requestedSize), None, observedPrice)
  }

  /** Weight of a grant as the cycle reserved it. */
  function GrantWeight(grant: Grant, g: Gauge): real { Weight(ExposureOf(grant.plan, grant.decision), g) }

  function GrantSum(grants: seq<Grant>, g: Gauge): real {
    if grants == [] then 0.0 else GrantWeight(grants[0], g) + GrantSum(grants[1..], g)
  }

  /** A cycle's ledger weighs what its grants weigh. */
  lemma {:induction false} GrantsWeighCycle(s: Settings, cycleId: string, open: Ledger, cycle: Ledger,
                                            plans: seq<Plan>, g: Gauge)
    decreases |plans|
    ensures Gauged(Spend(s, cycleId, open, cycle, plans).1, g)
         == Gauged(cycle, g) + GrantSum(Grants(s, cycleId, open, cycle, plans), g)
  {
    if plans != [] {
      hide AllocateCandidate, Charge, Weight, Gauged;
      var d := AllocateCandidate(s, cycleId, plans[0], open, cycle);
      var next := Reserve(cycle, plans[0], d);
      var rest := Grants(s, cycleId, open, next, plans[1..]);
      GrantsWeighCycle(s, cycleId, open, next, plans[1..], g);
      if d.selected {
        ChargeRaisesByWeight(cycle, ExposureOf(plans[0], d), g);
        assert GrantSum([Grant(plans[0], d)] + rest, g) == GrantWeight(Grant(plans[0], d), g) + GrantSum(rest, g) by {
          assert ([Grant(plans[0], d)] + rest)[1..] == rest;
        }
      } else {
        assert [] + rest == rest;
      }
    }
  }

  /* ----- What a stored grant weighs when it is read back ----- */

  /** The catalogue gives the instrument the same currencies as the broker did. */
  ghost predicate SameCurrencies(catalogue: Catalogue, p: Plan) {
    CurrencyBuckets(catalogue, p.instrument, None) == p.currencies
  }

  /** The names of a plan survive the fallback for empty family names. */
  ghost predicate Named(p: Plan) { p.family != "" || p.strategy == "" }

  lemma StoredWeight(catalogue: Catalogue, grant: Grant, id: nat, price: Option<real>, g: Gauge)
    requires grant.decision.risk > 0.0 && Named(grant.plan) && Agreed(catalogue, g, grant.plan)
    ensures Weight(IntentExposure(catalogue, StoredIntent(id, price, grant)), g) == GrantWeight(grant, g)
  {
    hide Notional, Collected;
  }

  /** A stored grant is worth its size at the price observed for its signal, and nothing without one. */
  lemma StoredWorth(grant: Grant, id: nat, price: Option<real>)
    requires grant.decision.size != 0.0
    ensures
      var observed := match price case Some(x) => x case None => 0.0;
      OpenBookSums.IntentWorth(StoredIntent(id, price, grant)) == IgSizing.Abs(grant.decision.size * observed)
  {
  }

  /** What is asked of the plans of a cycle for their grants to be read back at their weight. */
  ghost predicate Admissible(catalogue: Catalogue, g: Gauge, plans: seq<Plan>) {
    forall i :: 0 <= i < |plans| ==> Named(plans[i]) && Agreed(catalogue, g, plans[i])
  }

  /** For a currency gauge the broker and the catalogue agree on the currencies. */
  ghost predicate Agreed(catalogue: Catalogue, g: Gauge, p: Plan) {
    g.Risk? && g.account.Currency? ==> SameCurrencies(catalogue, p)
  }

  ghost predicate AllPositive(grants: seq<Grant>) {
    forall i :: 0 <= i < |grants| ==> grants[i].decision.risk > 0.0
  }

  ghost predicate ReadBack(catalogue: Catalogue, g: Gauge, grants: seq<Grant>) {
    AllPositive(grants) && AllAgreed(catalogue, g, grants)
  }

  ghost predicate AllAgreed(catalogue: Catalogue, g: Gauge, grants: seq<Grant>) {
    forall i :: 0 <= i < |grants| ==> Named(grants[i].plan) && Agreed(catalogue, g, grants[i].plan)
  }

  lemma AgreedCons(catalogue: Catalogue, g: Gauge, grant: Grant, rest: seq<Grant>)
    requires Named(grant.plan) && Agreed(catalogue, g, grant.plan) && AllAgreed(catalogue, g, rest)
    ensures AllAgreed(catalogue, g, [grant] + rest)
  {
  }

  lemma {:induction false} GrantsReadBack(s: Settings, catalogue: Catalogue, cycleId: string,
                                         open: Ledger, cycle: Ledger, plans: seq<Plan>, g: Gauge)
    requires Admissible(catalogue, g, plans)
    decreases |plans|
    ensures AllAgreed(catalogue, g, Grants(s, cycleId, open, cycle, plans))
  {
    if plans != [] {
      var p := plans[0];
      assert Named(p) && Agreed(catalogue, g, p);
      assert Admissible(catalogue, g, plans[1..]);
      hide AllocateCandidate, Charge, Reserve, Named, Agreed, AllAgreed, Admissible;
      var d := AllocateCandidate(s, cycleId, p, open, cycle);
      var next := Reserve(cycle, p, d);
      GrantsReadBack(s, catalogue, cycleId, open, next, plans[1..], g);
      var rest := Grants(s, cycleId, open, next, plans[1..]);
      assert [] + rest == rest;
      AgreedCons(catalogue, g, Grant(p, AllocateCandidate(s, cycleId, p, open, cycle)), rest);
    }
  }

  /* ----- Non-negative books ----- */

  ghost predicate NonNegative(catalogue: Catalogue, b: Book) {
    && (forall i :: 0 <= i < |b.positions| ==> PositionExposure(catalogue, b.positions[i]).risk >= 0.0)
    && (forall i :: 0 <= i < |b.intents| ==> IntentExposure(catalogue, b.intents[i]).risk >= 0.0)
  }

  ghost predicate NonNegativeIntents(catalogue: Catalogue, intents: seq<Intent>) {
    forall i :: 0 <= i < |intents| ==> IntentExposure(catalogue, intents[i]).risk >= 0.0
  }

  function IntentWeight(catalogue: Catalogue, i: Intent, g: Gauge): real { Weight(IntentExposure(catalogue, i), g) }

  lemma {:induction false} IntentSumNonNegative(catalogue: Catalogue, held: set<nat>, intents: seq<Intent>, g: Gauge)
    requires NonNegativeIntents(catalogue, intents)
    ensures IntentSum(catalogue, held, intents, g) >= 0.0
  {
    if intents != [] {
      hide Weight, IntentExposure, Counted;
      IntentSumNonNegative(catalogue, held, intents[..|intents| - 1], g);
      WeightNonNegative(IntentExposure(catalogue, intents[|intents| - 1]), g);
    }
  }

  lemma {:induction false} PositionSumNonNegative(catalogue: Catalogue, positions: seq<Position>, g: Gauge)
    requires forall i :: 0 <= i < |positions| ==> PositionExposure(catalogue, positions[i]).risk >= 0.0
    ensures PositionSum(catalogue, positions, g) >= 0.0
  {
    if positions != [] {
      hide Weight, PositionExposure;
      PositionSumNonNegative(catalogue, positions[..|positions| - 1], g);
      WeightNonNegative(PositionExposure(catalogue, positions[|positions| - 1]), g);
    }
  }

  /* ----- Rebuilding after a cycle ----- */

  function StoreAll(grants: seq<Grant>, ids: seq<nat>): seq<Intent>
    requires |ids| == |grants|
  {
    if grants == [] then []
    else StoreAll(grants[..|grants| - 1], ids[..|ids| - 1]) + [StoredIntent(ids[|ids| - 1], None, grants[|grants| - 1])]
  }

  lemma {:induction false} GrantSumSnoc(grants: seq<Grant>, g: Gauge)
    requires grants != []
    ensures GrantSum(grants, g) == GrantSum(grants[..|grants| - 1], g) + GrantWeight(grants[|grants| - 1], g)
  {
    if |grants| > 1 {
      hide GrantWeight;
      GrantSumSnoc(grants[1..], g);
      assert grants[..|grants| - 1][1..] == grants[1..][..|grants| - 2];
    }
  }

  lemma {:induction false} StoredSum(catalogue: Catalogue, held: set<nat>, intents: seq<Intent>,
                                     grants: seq<Grant>, ids: seq<nat>, g: Gauge)
    requires |ids| == |grants| && ReadBack(catalogue, g, grants)
    requires forall i :: 0 <= i < |ids| ==> ids[i] !in held
    ensures IntentSum(catalogue, held, intents + StoreAll(grants, ids), g)
         == IntentSum(catalogue, held, intents, g) + GrantSum(grants, g)
  {
    if grants == [] {
      assert intents + StoreAll(grants, ids) == intents;
    } else {
      var n := |grants| - 1;
      var row := StoredIntent(ids[n], None, grants[n]);
      var earlier := intents + StoreAll(grants[..n], ids[..n]);
      assert intents + StoreAll(grants, ids) == earlier + [row];
      assert (earlier + [row])[..|earlier|] == earlier;
      StoredSum(catalogue, held, intents, grants[..n], ids[..n], g);
      StoredWeight(catalogue, grants[n], ids[n], None, g);
      hide IntentExposure, Weight, GrantWeight;
      GrantSumSnoc(grants, g);
    }
  }

  lemma GaugedEmpty(g: Gauge)
    ensures Gauged(EMPTY, g) == 0.0
  {
  }

  /** Rebuilding from the book plus everything the cycle selected reads, gauge by gauge, the old
      open state plus the cycle state. */
  lemma RebuildAddsCycle(s: Settings, catalogue: Catalogue, b: Book, cycleId: string, plans: seq<Plan>,
                         ids: seq<nat>, g: Gauge)
    requires
      var open := OpenState(catalogue, b.positions, b.intents);
      var grants := Grants(s, cycleId, open, EMPTY, plans);
      && Admissible(catalogue, g, plans) && AllPositive(grants)
      && |ids| == |grants| && (forall i :: 0 <= i < |ids| ==> ids[i] !in Held(b.positions))
    ensures
      var open := OpenState(catalogue, b.positions, b.intents);
      var grants := Grants(s, cycleId, open, EMPTY, plans);
      Gauged(OpenState(catalogue, b.positions, b.intents + StoreAll(grants, ids)), g)
        == Gauged(open, g) + Gauged(Spend(s, cycleId, open, EMPTY, plans).1, g)
  {
    var open := OpenState(catalogue, b.positions, b.intents);
    var grants := Grants(s, cycleId, open, EMPTY, plans);
    GrantsReadBack(s, catalogue, cycleId, open, EMPTY, plans, g);
    GrantsWeighCycle(s, cycleId, open, EMPTY, plans, g);
    hide Grants, Spend, OpenState, IntentSum, PositionSum, Gauged, StoreAll;
    GaugedEmpty(g);
    StoredSum(catalogue, Held(b.positions), b.intents, grants, ids, g);
    OpenStateWeighsBook(catalogue, b.positions, b.intents, g);
    OpenStateWeighsBook(catalogue, b.positions, b.intents + StoreAll(grants, ids), g);
  }

  /* ----- The listing limit ----- */

  lemma {:induction false} SplitSum(catalogue: Catalogue, held: set<nat>, older: seq<Intent>, newer: seq<Intent>,
                                    g: Gauge)
    ensures IntentSum(catalogue, held, older + newer, g)
         == IntentSum(catalogue, held, older, g) + IntentSum(catalogue, held, newer, g)
  {
    if newer == [] {
      assert older + newer == older;
    } else {
      hide Weight, IntentExposure, Counted;
      var n := |newer| - 1;
      assert (older + newer)[..|older + newer| - 1] == older + newer[..n];
      SplitSum(catalogue, held, older, newer[..n], g);
    }
  }

  /** What the listing leaves out is what the rebuilt sum is short of. */
  lemma ListedSum(catalogue: Catalogue, held: set<nat>, intents: seq<Intent>, g: Gauge)
    ensures IntentSum(catalogue, held, intents, g)
         == IntentSum(catalogue, held, Unlisted(intents), g) + IntentSum(catalogue, held, Listed(intents), g)
  {
    assert intents == Unlisted(intents) + Listed(intents);
    hide Unlisted, Listed, IntentSum;
    SplitSum(catalogue, held, Unlisted(intents), Listed(intents), g);
  }

  lemma {:induction false} NoneCountedSum(catalogue: Catalogue, held: set<nat>, intents: seq<Intent>, g: Gauge)
    requires NoneCounted(held, intents)
    ensures IntentSum(catalogue, held, intents, g) == 0.0
  {
    if intents != [] {
      hide Weight, IntentExposure, Counted;
      NoneCountedSum(catalogue, held, intents[..|intents| - 1], g);
    }
  }

  lemma {:induction false} SomeCountedSum(catalogue: Catalogue, held: set<nat>, intents: seq<Intent>)
    ensures IntentSum(catalogue, held, intents, Positions) >= 0.0
    ensures !NoneCounted(held, intents) ==> IntentSum(catalogue, held, intents, Positions) >= 1.0
  {
    if intents != [] {
      hide IntentExposure, Counted;
      SomeCountedSum(catalogue, held, intents[..|intents| - 1]);
      assert intents == intents[..|intents| - 1] + [intents[|intents| - 1]];
    }
  }

  /** A book is rebuilt faithfully, on every gauge, exactly when no intent past the most recently updated
      250 is counted; rows that a position already represents, such as partial fills, take up places too. */
  lemma RebuildFaithfulIff(catalogue: Catalogue, b: Book)
    ensures (forall g: Gauge :: Gauged(Rebuild(catalogue, b), g) == Weighs(catalogue, b, g))
       <==> Covered(b.positions, b.intents)
  {
    var held, older := Held(b.positions), Unlisted(b.intents);
    forall g: Gauge
      ensures Weighs(catalogue, b, g) - Gauged(Rebuild(catalogue, b), g) == IntentSum(catalogue, held, older, g)
    {
      OpenStateWeighsBook(catalogue, b.positions, Listed(b.intents), g);
      ListedSum(catalogue, held, b.intents, g);
    }
    hide Rebuild, Weighs, Unlisted;
    if NoneCounted(held, older) {
      forall g: Gauge ensures Gauged(Rebuild(catalogue, b), g) == Weighs(catalogue, b, g) {
        NoneCountedSum(catalogue, held, older, g);
      }
    } else {
      SomeCountedSum(catalogue, held, older);
      assert Gauged(Rebuild(catalogue, b), Positions) != Weighs(catalogue, b, Positions);
    }
  }
}
