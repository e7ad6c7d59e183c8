/** What the rebuilt open state reads, added up from the stored columns: percents, marks and sizes of the
    positions, and of the intents that no position represents. */
module OpenBookSums {
  import opened Basics
  import opened IgSizing
  import opened Allocator
  import opened AllocationCycle
  import opened OpenBook
  import opened SpendingSums

  /** Some open position carries the intent's id, or the intent already names its position. */
  ghost predicate Represented(positions: seq<Position>, i: Intent) {
    || i.positionId.Some?
    || (i.id.Some? && exists k :: 0 <= k < |positions| && positions[k].intentId == i.id)
  }

  /** A stored row as the budgets see it: its percent falls on its strategy, its family or else its strategy,
      its instrument, and in equal parts on the currencies the catalogue gives the instrument. */
  function RowPercent(catalogue: Catalogue, strategy: string, family: Option<string>, instrument: string,
                      percent: real, a: Account): real {
    match a
    case Portfolio => percent
    case Cycle => percent
    case Strategy(n) => if strategy == n then percent else 0.0
    case Family(n) =>
      if n == (if family == None || family == Some("") then strategy else family.value) then percent else 0.0
    case Instrument(n) => if instrument == n then percent else 0.0
    case Currency(code) =>
      if instrument in catalogue && code in catalogue[instrument] then
        Occurrences(catalogue[instrument], code) as real * (percent / |catalogue[instrument]| as real)
      else 0.0
  }

  /** A recorded number; one that is absent counts as zero. */
  function Recorded(x: Option<real>): real { if x.Some? then x.value else 0.0 }

  /** The first of two recorded numbers that is not zero, if any. */
  function Preferred(x: Option<real>, y: Option<real>): real { if Recorded(x) != 0.0 then Recorded(x) else Recorded(y) }

  function PositionPercent(catalogue: Catalogue, p: Position, a: Account): real {
    RowPercent(catalogue, p.strategy, p.family, p.instrument, Recorded(p.risk), a)
  }

  function IntentPercent(catalogue: Catalogue, i: Intent, a: Account): real {
    RowPercent(catalogue, i.strategy, i.family, i.instrument, Preferred(i.allocatedRisk, i.proposedRisk), a)
  }

  /** A position is worth its size at the current price, or at the opening price when there is none. */
  function PositionWorth(p: Position): real {
    Abs(p.size * (if Recorded(p.currentPrice) != 0.0 then p.currentPrice.value else p.openPrice))
  }

  /** An intent is worth its size at the price it was filled or observed at. */
  function IntentWorth(i: Intent): real {
    Abs(Preferred(i.allocatedSize, i.proposedSize) * Preferred(i.fillPrice, i.observedPrice))
  }

  function PositionPercents(catalogue: Catalogue, positions: seq<Position>, a: Account): real {
    if positions == [] then 0.0
    else
      var n := |positions| - 1;
      PositionPercents(catalogue, positions[..n], a) + PositionPercent(catalogue, positions[n], a)
  }

  function PositionsWorth(positions: seq<Position>): real {
    if positions == [] then 0.0
    else PositionsWorth(positions[..|positions| - 1]) + PositionWorth(positions[|positions| - 1])
  }

  function PositionsOf(positions: seq<Position>, strategy: string): nat {
    if positions == [] then 0
    else
      var n := |positions| - 1;
      PositionsOf(positions[..n], strategy) + (if positions[n].strategy == strategy then 1 else 0)
  }

  /** The intents of a list that no position represents, in order. */
  ghost function Unrepresented(positions: seq<Position>, intents: seq<Intent>): seq<Intent> {
    if intents == [] then []
    else
      var n := |intents| - 1;
      Unrepresented(positions, intents[..n]) + (if Represented(positions, intents[n]) then [] else [intents[n]])
  }

  function IntentPercents(catalogue: Catalogue, intents: seq<Intent>, a: Account): real {
    if intents == [] then 0.0
    else
      var n := |intents| - 1;
      IntentPercents(catalogue, intents[..n], a) + IntentPercent(catalogue, intents[n], a)
  }

  function IntentsWorth(intents: seq<Intent>): real {
    if intents == [] then 0.0 else IntentsWorth(intents[..|intents| - 1]) + IntentWorth(intents[|intents| - 1])
  }

  function IntentsOf(intents: seq<Intent>, strategy: string): nat {
    if intents == [] then 0
    else
      var n := |intents| - 1;
      IntentsOf(intents[..n], strategy) + (if intents[n].strategy == strategy then 1 else 0)
  }

  /* ----- One row ----- */

  lemma RowShare(catalogue: Catalogue, e: Exposure, family: Option<string>, a: Account)
    requires e.family == NameOr(family, e.strategy) && e.currencies == CurrencyBuckets(catalogue, e.instrument, None)
    ensures Share(e, a) == RowPercent(catalogue, e.strategy, family, e.instrument, e.risk, a)
  {
    if a.Currency? {
      CollectedIs(e.currencies, Part(e), a.code);
    }
  }

  lemma PositionRow(catalogue: Catalogue, p: Position, a: Account)
    ensures
      var e := PositionExposure(catalogue, p);
      && Share(e, a) == PositionPercent(catalogue, p, a) && e.notional == PositionWorth(p) && e.strategy == p.strategy
  {
    hide CurrencyBuckets;
    RowShare(catalogue, PositionExposure(catalogue, p), p.family, a);
    hide Share, RowPercent;
  }

  lemma IntentRow(catalogue: Catalogue, i: Intent, a: Account)
    ensures
      var e := IntentExposure(catalogue, i);
      && Share(e, a) == IntentPercent(catalogue, i, a) && e.notional == IntentWorth(i) && e.strategy == i.strategy
  {
    hide CurrencyBuckets;
    RowShare(catalogue, IntentExposure(catalogue, i), i.family, a);
    hide Share, RowPercent;
  }

  lemma {:induction false} HeldIs(positions: seq<Position>, id: nat)
    ensures id in Held(positions) <==> exists k :: 0 <= k < |positions| && positions[k].intentId == Some(id)
  {
    if positions != [] {
      var n := |positions| - 1;
      HeldIs(positions[..n], id);
      if id in Held(positions[..n]) {
        var k :| 0 <= k < n && positions[..n][k].intentId == Some(id);
        assert positions[k].intentId == Some(id);
      }
      if k :| 0 <= k < |positions| && positions[k].intentId == Some(id) {
        assert k < n ==> positions[..n][k].intentId == Some(id);
      }
    }
  }

  lemma CountedIs(positions: seq<Position>, i: Intent)
    ensures Counted(Held(positions), i) <==> !Represented(positions, i)
  {
    if i.id.Some? {
      HeldIs(positions, i.id.value);
    }
  }

  /* ----- The ledger ----- */

  /** A charged exposure, reading by reading. */
  lemma ChargeAdds(l: Ledger, e: Exposure, a: Account, strategy: string)
    ensures
      var after := Charge(l, e);
      && Value(after, a) == Value(l, a) + Share(e, a) && after.gross == l.gross + e.notional
      && after.positions == l.positions + 1
      && Count(after.strategyPositions, strategy)
         == Count(l.strategyPositions, strategy) + (if e.strategy == strategy then 1 else 0)
  {
    ChargeRaisesByShare(l, e, a);
    hide AddEach, Share;
  }

  lemma {:induction false} PositionsAddUp(catalogue: Catalogue, positions: seq<Position>, a: Account, strategy: string)
    ensures
      var l := ChargePositions(catalogue, positions);
      && Value(l, a) == PositionPercents(catalogue, positions, a) && l.gross == PositionsWorth(positions)
      && l.positions == |positions| && Count(l.strategyPositions, strategy) == PositionsOf(positions, strategy)
  {
    if positions != [] {
      hide Charge, PositionExposure, PositionPercent, PositionWorth, Share, Value;
      var n := |positions| - 1;
      PositionsAddUp(catalogue, positions[..n], a, strategy);
      PositionRow(catalogue, positions[n], a);
      ChargeAdds(ChargePositions(catalogue, positions[..n]), PositionExposure(catalogue, positions[n]), a, strategy);
    }
  }

  lemma {:induction false} IntentsAddUp(catalogue: Catalogue, start: Ledger, positions: seq<Position>,
                                        intents: seq<Intent>, a: Account, strategy: string)
    ensures
      var l, counted := ChargeIntents(catalogue, start, Held(positions), intents), Unrepresented(positions, intents);
      && Value(l, a) == Value(start, a) + IntentPercents(catalogue, counted, a)
      && l.gross == start.gross + IntentsWorth(counted) && l.positions == start.positions + |counted|
      && Count(l.strategyPositions, strategy)
         == Count(start.strategyPositions, strategy) + IntentsOf(counted, strategy)
  {
    if intents != [] {
      hide Charge, IntentExposure, IntentPercent, IntentWorth, Share, Value, Counted, Represented, Held;
      var n := |intents| - 1;
      IntentsAddUp(catalogue, start, positions, intents[..n], a, strategy);
      CountedIs(positions, intents[n]);
      IntentRow(catalogue, intents[n], a);
      ChargeAdds(ChargeIntents(catalogue, start, Held(positions), intents[..n]), IntentExposure(catalogue, intents[n]),
                 a, strategy);
      var earlier := Unrepresented(positions, intents[..n]);
      assert (earlier + [intents[n]])[..|earlier|] == earlier;
      assert earlier + [] == earlier;
    }
  }

  /** Every reading of the rebuilt open state, spelled out over the stored rows: each account's percent, the
      gross worth, and the number of positions in all and of one strategy. */
  lemma OpenStateAddsUp(catalogue: Catalogue, positions: seq<Position>, intents: seq<Intent>, a: Account,
                        strategy: string)
    ensures
      var open, counted := OpenState(catalogue, positions, intents), Unrepresented(positions, intents);
      && Value(open, a) == PositionPercents(catalogue, positions, a) + IntentPercents(catalogue, counted, a)
      && open.gross == PositionsWorth(positions) + IntentsWorth(counted)
      && open.positions == |positions| + |counted|
      && Count(open.strategyPositions, strategy) == PositionsOf(positions, strategy) + IntentsOf(counted, strategy)
  {
    hide Charge, PositionPercents, IntentPercents, PositionsWorth, IntentsWorth, Unrepresented, Value;
    PositionsAddUp(catalogue, positions, a, strategy);
    IntentsAddUp(catalogue, ChargePositions(catalogue, positions), positions, intents, a, strategy);
  }
}
