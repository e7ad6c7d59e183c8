/** Rebuilding the open state from the stored book. */
module OpenBook {
  import opened Basics
  import opened Allocator
  import opened AllocationCycle

  datatype Position = Position(
    intentId: Option<nat>, strategy: string, family: Option<string>, instrument: string,
    risk: Option<real>, size: real, currentPrice: Option<real>, openPrice: real)

  /** An intent in one of the states that reserve risk. */
  datatype Intent = Intent(
    id: Option<nat>, positionId: Option<nat>, strategy: string, family: Option<string>, instrument: string,
    allocatedRisk: Option<real>, proposedRisk: Option<real>,
    allocatedSize: Option<real>, proposedSize: Option<real>,
    fillPrice: Option<real>, observedPrice: Option<real>)

  type Catalogue = map<string, seq<string>>

  function PositionExposure(catalogue: Catalogue, p: Position): Exposure {
    Exposure(p.strategy, NameOr(p.family, p.strategy), p.instrument,
             CurrencyBuckets(catalogue, p.instrument, None), Or(p.risk, 0.0),
             Notional(p.size, Or(p.currentPrice, p.openPrice)))
  }

  function RecordedRisk(i: Intent): real { Or(i.allocatedRisk, Or(i.proposedRisk, 0.0)) }

  function IntentExposure(catalogue: Catalogue, i: Intent): Exposure {
    Exposure(i.strategy, NameOr(i.family, i.strategy), i.instrument,
             CurrencyBuckets(catalogue, i.instrument, None), RecordedRisk(i),
             Notional(Or(i.allocatedSize, Or(i.proposedSize, 0.0)), Or(i.fillPrice, Or(i.observedPrice, 0.0))))
  }

  /** Intents already represented by a position, by either link, are not counted again. */
  predicate Counted(held: set<nat>, i: Intent) {
    i.positionId.None? && (i.id.None? || i.id.value !in held)
  }

  function Held(positions: seq<Position>): set<nat> {
    if positions == [] then {}
    else
      var last := positions[|positions| - 1];
      Held(positions[..|positions| - 1]) + (if last.intentId.Some? then {last.intentId.value} else {})
  }

  function ChargePositions(catalogue: Catalogue, positions: seq<Position>): Ledger {
    if positions == [] then EMPTY
    else Charge(ChargePositions(catalogue, positions[..|positions| - 1]),
                PositionExposure(catalogue, positions[|positions| - 1]))
  }

  function ChargeIntents(catalogue: Catalogue, start: Ledger, held: set<nat>, intents: seq<Intent>): Ledger {
    if intents == [] then start
    else
      var earlier := ChargeIntents(catalogue, start, held, intents[..|intents| - 1]);
      var last := intents[|intents| - 1];
      if Counted(held, last) then Charge(earlier, IntentExposure(catalogue, last)) else earlier
  }

  function OpenState(catalogue: Catalogue, positions: seq<Position>, intents: seq<Intent>): Ledger {
    ChargeIntents(catalogue, ChargePositions(catalogue, positions), Held(positions), intents)
  }

  method BuildOpenState(catalogue: Catalogue, positions: seq<Position>, intents: seq<Intent>)
    returns (open: RunningLedger)
    ensures fresh(open) && open.ledger == OpenState(catalogue, positions, intents)
  {
    hide Charge, PositionExposure, IntentExposure, Counted;
    open := new RunningLedger();
    var held: set<nat> := {};
    for n := 0 to |positions|
      invariant open.ledger == ChargePositions(catalogue, positions[..n]) && held == Held(positions[..n])
    {
      assert positions[..n + 1][..n] == positions[..n];
      open.Add(PositionExposure(catalogue, positions[n]));
      if positions[n].intentId.Some? {
        held := held + {positions[n].intentId.value};
      }
    }
    assert positions[..|positions|] == positions;
    ghost var start := open.ledger;
    for n := 0 to |intents|
      invariant open.ledger == ChargeIntents(catalogue, start, held, intents[..n])
    {
      assert intents[..n + 1][..n] == intents[..n];
      if Counted(held, intents[n]) {
        open.Add(IntentExposure(catalogue, intents[n]));
      }
    }
    assert intents[..|intents|] == intents;
  }

  /* ----- Gauges ----- */

  /** Anything the ledger measures that adds up over exposures. */
  datatype Gauge = Risk(account: Account) | Positions | StrategyPositions(name: string)

  function Gauged(l: Ledger, g: Gauge): real {
    match g
    case Risk(a) => Value(l, a)
    case Positions => l.positions as real
    case StrategyPositions(n) => Count(l.strategyPositions, n) as real
  }

  function Weight(e: Exposure, g: Gauge): real {
    match g
    case Risk(a) => Share(e, a)
    case Positions => 1.0
    case StrategyPositions(n) => if e.strategy == n then 1.0 else 0.0
  }

  lemma ChargeRaisesByWeight(l: Ledger, e: Exposure, g: Gauge)
    ensures Gauged(Charge(l, e), g) == Gauged(l, g) + Weight(e, g)
  {
    if g.Risk? {
      ChargeRaisesByShare(l, e, g.account);
    }
  }

  lemma WeightNonNegative(e: Exposure, g: Gauge)
    requires e.risk >= 0.0
    ensures Weight(e, g) >= 0.0
  {
    if g.Risk? {
      ShareBounds(e, g.account);
    }
  }

  function PositionSum(catalogue: Catalogue, positions: seq<Position>, g: Gauge): real {
    if positions == [] then 0.0
    else PositionSum(catalogue, positions[..|positions| - 1], g)
         + Weight(PositionExposure(catalogue, positions[|positions| - 1]), g)
  }

  function IntentSum(catalogue: Catalogue, held: set<nat>, intents: seq<Intent>, g: Gauge): real {
    if intents == [] then 0.0
    else IntentSum(catalogue, held, intents[..|intents| - 1], g)
         + (if Counted(held, intents[|intents| - 1])
            then Weight(IntentExposure(catalogue, intents[|intents| - 1]), g) else 0.0)
  }

  /** What the whole book weighs, position by position and counted intent by counted intent. */
  function BookSum(catalogue: Catalogue, positions: seq<Position>, intents: seq<Intent>, g: Gauge): real {
    PositionSum(catalogue, positions, g) + IntentSum(catalogue, Held(positions), intents, g)
  }

  lemma {:induction false} PositionsGauged(catalogue: Catalogue, positions: seq<Position>, g: Gauge)
    ensures Gauged(ChargePositions(catalogue, positions), g) == PositionSum(catalogue, positions, g)
  {
    if positions != [] {
      hide Charge, PositionExposure, Weight, Gauged;
      PositionsGauged(catalogue, positions[..|positions| - 1], g);
      ChargeRaisesByWeight(ChargePositions(catalogue, positions[..|positions| - 1]),
                           PositionExposure(catalogue, positions[|positions| - 1]), g);
    }
  }

  lemma {:induction false} IntentsGauged(catalogue: Catalogue, start: Ledger, held: set<nat>,
      intents: seq<Intent>, g: Gauge)
    ensures Gauged(ChargeIntents(catalogue, start, held, intents), g)
         == Gauged(start, g) + IntentSum(catalogue, held, intents, g)
  {
    if intents != [] {
      hide Charge, IntentExposure, Weight, Gauged;
      var earlier := intents[..|intents| - 1];
      IntentsGauged(catalogue, start, held, earlier, g);
      ChargeRaisesByWeight(ChargeIntents(catalogue, start, held, earlier),
                           IntentExposure(catalogue, intents[|intents| - 1]), g);
    }
  }

  /** The rebuilt open state reads every gauge as the weight of the book. */
  lemma OpenStateWeighsBook(catalogue: Catalogue, positions: seq<Position>, intents: seq<Intent>, g: Gauge)
    ensures Gauged(OpenState(catalogue, positions, intents), g) == BookSum(catalogue, positions, intents, g)
  {
    PositionsGauged(catalogue, positions, g);
    IntentsGauged(catalogue, ChargePositions(catalogue, positions), Held(positions), intents, g);
  }

  /* ----- The three partitions of the total ----- */

  function SumRead(m: map<string, real>, names: seq<string>): real {
    if names == [] then 0.0 else SumRead(m, names[..|names| - 1]) + Read(m, names[|names| - 1])
  }

  lemma SumReadOther(m: map<string, real>, names: seq<string>, key: string, value: real)
    requires key !in names
    ensures SumRead(m[key := value], names) == SumRead(m, names)
  {
    if names != [] {
      SumReadOther(m, names[..|names| - 1], key, value);
      assert names[|names| - 1] != key;
    }
  }

  lemma {:induction false} SumReadAdd(m: map<string, real>, names: seq<string>, key: string, part: real)
    requires forall i, j :: 0 <= i < j < |names| ==> names[i] != names[j]
    requires key in names
    ensures SumRead(m[key := Read(m, key) + part], names) == SumRead(m, names) + part
  {
    var rest, last := names[..|names| - 1], names[|names| - 1];
    if last == key {
      SumReadOther(m, rest, key, Read(m, key) + part);
    } else {
      SumReadAdd(m, rest, key, part);
    }
  }

  /** Name lists without repetition that cover what the ledger charges. */
  datatype Names = Names(strategies: seq<string>, families: seq<string>, instruments: seq<string>)

  ghost predicate Covers(n: Names, e: Exposure) {
    e.strategy in n.strategies && e.family in n.families && e.instrument in n.instruments
  }

  /** Strategies, families and instruments each account for the whole total. */
  ghost predicate Partitioned(n: Names, l: Ledger) {
    SumRead(l.strategy, n.strategies) == SumRead(l.family, n.families)
    == SumRead(l.instrument, n.instruments) == l.total
  }

  lemma ChargeKeepsPartition(n: Names, l: Ledger, e: Exposure)
    requires Distinct(n.strategies) && Distinct(n.families) && Distinct(n.instruments)
    requires Covers(n, e) && Partitioned(n, l)
    ensures Partitioned(n, Charge(l, e))
  {
    hide Part, AddEach;
    SumReadAdd(l.strategy, n.strategies, e.strategy, e.risk);
    SumReadAdd(l.family, n.families, e.family, e.risk);
    SumReadAdd(l.instrument, n.instruments, e.instrument, e.risk);
  }

  lemma EmptyPartitioned(n: Names)
    ensures Partitioned(n, EMPTY)
  {
    SumReadEmpty(n.strategies);
    SumReadEmpty(n.families);
    SumReadEmpty(n.instruments);
  }

  lemma SumReadEmpty(names: seq<string>)
    ensures SumRead(map[], names) == 0.0
  {
  }

  lemma {:induction false} IntentsPartitioned(n: Names, catalogue: Catalogue, start: Ledger, held: set<nat>,
                                              intents: seq<Intent>)
    requires Distinct(n.strategies) && Distinct(n.families) && Distinct(n.instruments)
    requires forall i :: 0 <= i < |intents| ==> Covers(n, IntentExposure(catalogue, intents[i]))
    requires Partitioned(n, start)
    ensures Partitioned(n, ChargeIntents(catalogue, start, held, intents))
  {
    if intents != [] {
      hide Charge, IntentExposure, Partitioned, Covers;
      var earlier := intents[..|intents| - 1];
      IntentsPartitioned(n, catalogue, start, held, earlier);
      ChargeKeepsPartition(n, ChargeIntents(catalogue, start, held, earlier),
                           IntentExposure(catalogue, intents[|intents| - 1]));
    }
  }

  lemma {:induction false} PositionsPartitioned(n: Names, catalogue: Catalogue, positions: seq<Position>)
    requires Distinct(n.strategies) && Distinct(n.families) && Distinct(n.instruments)
    requires forall i :: 0 <= i < |positions| ==> Covers(n, PositionExposure(catalogue, positions[i]))
    ensures Partitioned(n, ChargePositions(catalogue, positions))
  {
    if positions == [] {
      EmptyPartitioned(n);
    } else {
      hide Charge, PositionExposure, Partitioned, Covers;
      var earlier := positions[..|positions| - 1];
      PositionsPartitioned(n, catalogue, earlier);
      ChargeKeepsPartition(n, ChargePositions(catalogue, earlier),
                           PositionExposure(catalogue, positions[|positions| - 1]));
    }
  }

  /** In the rebuilt open state the three partitions each sum to the total. */
  lemma OpenStatePartitioned(n: Names, catalogue: Catalogue, positions: seq<Position>, intents: seq<Intent>)
    requires Distinct(n.strategies) && Distinct(n.families) && Distinct(n.instruments)
    requires forall i :: 0 <= i < |positions| ==> Covers(n, PositionExposure(catalogue, positions[i]))
    requires forall i :: 0 <= i < |intents| ==> Covers(n, IntentExposure(catalogue, intents[i]))
    ensures Partitioned(n, OpenState(catalogue, positions, intents))
  {
    PositionsPartitioned(n, catalogue, positions);
    IntentsPartitioned(n, catalogue, ChargePositions(catalogue, positions), Held(positions), intents);
  }

  ghost predicate CoversPlan(n: Names, p: Plan) {
    p.strategy in n.strategies && p.family in n.families && p.instrument in n.instruments
  }

  /** The cycle state partitions likewise, whatever it has selected. */
  lemma {:induction false} CyclePartitioned(n: Names, s: Settings, cycleId: string, open: Ledger, cycle: Ledger,
                                            plans: seq<Plan>)
    requires Distinct(n.strategies) && Distinct(n.families) && Distinct(n.instruments)
    requires forall i :: 0 <= i < |plans| ==> CoversPlan(n, plans[i])
    requires Partitioned(n, cycle)
    decreases |plans|
    ensures Partitioned(n, Spend(s, cycleId, open, cycle, plans).1)
  {
    if plans != [] {
      hide AllocateCandidate, Charge, Partitioned, Notional;
      var d := AllocateCandidate(s, cycleId, plans[0], open, cycle);
      if d.selected {
        ChargeKeepsPartition(n, cycle, ExposureOf(plans[0], d));
      }
      CyclePartitioned(n, s, cycleId, open, Reserve(cycle, plans[0], d), plans[1..]);
    }
  }
}
