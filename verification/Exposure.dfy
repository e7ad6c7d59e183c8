/** The exposure summary: every reserved intent and open position is entered under its strategy,
    family, instrument and two currencies, with the currency legs split into long and short. */
module Exposure {
  import opened Basics
  import Rounding

  /** A risk percent and a risk amount, for what is reserved and for what is live. */
  datatype Cell = Cell(reservedRisk: real, liveRisk: real, reservedAmount: real, liveAmount: real)

  const ZERO := Cell(0.0, 0.0, 0.0, 0.0)

  function Plus(a: Cell, b: Cell): Cell {
    Cell(a.reservedRisk + b.reservedRisk, a.liveRisk + b.liveRisk,
         a.reservedAmount + b.reservedAmount, a.liveAmount + b.liveAmount)
  }

  function Half(a: Cell): Cell {
    Cell(a.reservedRisk / 2.0, a.liveRisk / 2.0, a.reservedAmount / 2.0, a.liveAmount / 2.0)
  }

  function TotalRisk(a: Cell): real { a.reservedRisk + a.liveRisk }

  type Buckets = map<string, Cell>

  function At(m: Buckets, key: string): Cell { if key in m then m[key] else ZERO }

  function Bump(m: Buckets, key: string, c: Cell): Buckets { m[key := Plus(At(m, key), c)] }

  datatype Kind = Reserved | Live

  /** The currencies of an instrument: two, or none that are known. */
  datatype Pair = NoPair | Pair(base: string, quote: string)

  datatype Side = Buy | Sell | Unknown

  datatype Item = Item(
    kind: Kind, strategy: string, family: string, instrument: string, pair: Pair, side: Side,
    risk: real, amount: real)

  function CellOf(i: Item): Cell {
    if i.kind.Reserved? then Cell(i.risk, 0.0, i.amount, 0.0) else Cell(0.0, i.risk, 0.0, i.amount)
  }

  datatype Summary = Summary(
    totals: Cell, byStrategy: Buckets, byFamily: Buckets, byInstrument: Buckets,
    byCurrency: Buckets, long: Buckets, short: Buckets)

  const EMPTY := Summary(ZERO, map[], map[], map[], map[], map[], map[])

  function Currencies(p: Pair): seq<string> { if p.NoPair? then [] else [p.base, p.quote] }

  datatype Leg = Leg(currency: string, isLong: bool)

  /** Buying the pair is long its base and short its quote; selling is the reverse. */
  function Legs(p: Pair, side: Side): seq<Leg> {
    if p.NoPair? then []
    else match side
      case Buy => [Leg(p.base, true), Leg(p.quote, false)]
      case Sell => [Leg(p.base, false), Leg(p.quote, true)]
      case Unknown => []
  }

  function BumpEach(m: Buckets, keys: seq<string>, c: Cell): Buckets {
    if keys == [] then m else Bump(BumpEach(m, keys[..|keys| - 1], c), keys[|keys| - 1], c)
  }

  function BumpLegs(m: Buckets, legs: seq<Leg>, isLong: bool, c: Cell): Buckets {
    if legs == [] then m
    else
      var earlier, leg := BumpLegs(m, legs[..|legs| - 1], isLong, c), legs[|legs| - 1];
      if leg.isLong == isLong then Bump(earlier, leg.currency, c) else earlier
  }

  /** The effect of one entry. */
  function Enter(s: Summary, i: Item): Summary {
    var c := CellOf(i);
    Summary(
      Plus(s.totals, c),
      Bump(s.byStrategy, i.strategy, c),
      Bump(s.byFamily, i.family, c),
      Bump(s.byInstrument, i.instrument, c),
      BumpEach(s.byCurrency, Currencies(i.pair), Half(c)),
      BumpLegs(s.long, Legs(i.pair, i.side), true, Half(c)),
      BumpLegs(s.short, Legs(i.pair, i.side), false, Half(c)))
  }

  function EnterAll(items: seq<Item>): Summary {
    if items == [] then EMPTY else Enter(EnterAll(items[..|items| - 1]), items[|items| - 1])
  }

  class ExposureBook {
    var summary: Summary

    constructor ()
      ensures summary == EMPTY
    {
      summary := EMPTY;
    }

    method AddExposure(i: Item)
      modifies this
      ensures summary == Enter(old(summary), i)
    {
      var c := CellOf(i);
      summary := summary.(
        totals := Plus(summary.totals, c),
        byStrategy := Bump(summary.byStrategy, i.strategy, c),
        byFamily := Bump(summary.byFamily, i.family, c),
        byInstrument := Bump(summary.byInstrument, i.instrument, c));
      var currencies, legs := Currencies(i.pair), Legs(i.pair, i.side);
      var byCurrency := summary.byCurrency;
      for n := 0 to |currencies|
        invariant byCurrency == BumpEach(summary.byCurrency, currencies[..n], Half(c))
      {
        assert currencies[..n + 1][..n] == currencies[..n];
        byCurrency := Bump(byCurrency, currencies[n], Half(c));
      }
      assert currencies[..|currencies|] == currencies;
      var long, short := summary.long, summary.short;
      for n := 0 to |legs|
        invariant long == BumpLegs(summary.long, legs[..n], true, Half(c))
        invariant short == BumpLegs(summary.short, legs[..n], false, Half(c))
      {
        assert legs[..n + 1][..n] == legs[..n];
        if legs[n].isLong {
          long := Bump(long, legs[n].currency, Half(c));
        } else {
          short := Bump(short, legs[n].currency, Half(c));
        }
      }
      assert legs[..|legs|] == legs;
      summary := summary.(byCurrency := byCurrency, long := long, short := short);
    }
  }

  /* ----- What is entered ----- */

  datatype Intent = Intent(
    positionId: Option<nat>, partiallyFilled: bool, submittedSize: real, residualSize: real,
    strategy: string, family: Option<string>, instrument: string, pair: Pair, side: Side,
    allocatedRisk: Option<real>, proposedRisk: Option<real>,
    fillAmount: Option<real>, submittedAmount: Option<real>, estimatedAmount: Option<real>)

  datatype Position = Position(
    strategy: string, family: Option<string>, instrument: string, pair: Pair, side: Side,
    risk: Option<real>, entryAmount: Option<real>)

  function FamilyOr(f: Option<string>): string { if f.None? || f.value == "" then "UNASSIGNED" else f.value }

  /** The part of a partially filled intent that is still to be filled. */
  function ResidualRatio(i: Intent): (r: real)
    ensures 0.0 <= r <= 1.0
    ensures r > 0.0 <==> i.partiallyFilled && i.submittedSize > 0.0 && i.residualSize > 0.0
  {
    if !i.partiallyFilled || i.submittedSize <= 0.0 || i.residualSize <= 0.0 then 0.0
    else
      var part := Divided(i.residualSize, i.submittedSize);
      if part > 1.0 then 1.0 else part
  }

  function Divided(a: real, b: real): (q: real)
    requires a > 0.0 && b > 0.0
    ensures q > 0.0
  {
    var q := a / b;
    assert q * b == a;
    q
  }

  /** Percent and amount at which an intent is entered. */
  function IntentRisk(i: Intent): (real, real) {
    var percent := Or(i.allocatedRisk, Or(i.proposedRisk, 0.0));
    var ratio := ResidualRatio(i);
    if ratio > 0.0 then
      var amount := if i.submittedAmount.Some? then i.submittedAmount else i.estimatedAmount;
      (percent * ratio, Or(amount, 0.0) * ratio)
    else if i.fillAmount.Some? then (percent, i.fillAmount.value)
    else if i.submittedAmount.Some? then (percent, i.submittedAmount.value)
    else (percent, Or(i.estimatedAmount, 0.0))
  }

  predicate Entered(i: Intent) { i.positionId.None? || ResidualRatio(i) > 0.0 }

  function IntentItem(i: Intent): Item {
    var (risk, amount) := IntentRisk(i);
    Item(Reserved, i.strategy, FamilyOr(i.family), i.instrument, i.pair, i.side, risk, amount)
  }

  function PositionItem(p: Position): Item {
    Item(Live, p.strategy, FamilyOr(p.family), p.instrument, p.pair, p.side, Or(p.risk, 0.0), Or(p.entryAmount, 0.0))
  }

  function IntentItems(intents: seq<Intent>): seq<Item> {
    if intents == [] then []
    else
      var last := intents[|intents| - 1];
      IntentItems(intents[..|intents| - 1]) + (if Entered(last) then [IntentItem(last)] else [])
  }

  function PositionItems(positions: seq<Position>): seq<Item> {
    if positions == [] then []
    else PositionItems(positions[..|positions| - 1]) + [PositionItem(positions[|positions| - 1])]
  }

  method GetExposureSummary(intents: seq<Intent>, positions: seq<Position>) returns (book: ExposureBook)
    ensures fresh(book) && book.summary == EnterAll(IntentItems(intents) + PositionItems(positions))
  {
    hide Enter, IntentItem, PositionItem, Entered;
    book := new ExposureBook();
    for n := 0 to |intents|
      invariant book.summary == EnterAll(IntentItems(intents[..n]))
    {
      assert intents[..n + 1][..n] == intents[..n];
      if Entered(intents[n]) {
        EnterSnoc(IntentItems(intents[..n]), IntentItem(intents[n]));
        book.AddExposure(IntentItem(intents[n]));
      } else {
        assert IntentItems(intents[..n]) + [] == IntentItems(intents[..n]);
      }
    }
    assert intents[..|intents|] == intents;
    assert IntentItems(intents) + PositionItems(positions[..0]) == IntentItems(intents);
    for n := 0 to |positions|
      invariant book.summary == EnterAll(IntentItems(intents) + PositionItems(positions[..n]))
    {
      assert positions[..n + 1][..n] == positions[..n];
      EnterSnoc(IntentItems(intents) + PositionItems(positions[..n]), PositionItem(positions[n]));
      assert IntentItems(intents) + PositionItems(positions[..n]) + [PositionItem(positions[n])]
          == IntentItems(intents) + PositionItems(positions[..n + 1]);
      book.AddExposure(PositionItem(positions[n]));
    }
    assert positions[..|positions|] == positions;
  }

  lemma EnterSnoc(items: seq<Item>, i: Item)
    ensures EnterAll(items + [i]) == Enter(EnterAll(items), i)
  {
    assert (items + [i])[..|items|] == items;
  }

  /* ----- Conservation ----- */

  function Sum(m: Buckets, names: seq<string>): Cell {
    if names == [] then ZERO else Plus(Sum(m, names[..|names| - 1]), At(m, names[|names| - 1]))
  }

  lemma SumOther(m: Buckets, names: seq<string>, key: string, c: Cell)
    requires key !in names
    ensures Sum(m[key := c], names) == Sum(m, names)
  {
    if names != [] {
      SumOther(m, names[..|names| - 1], key, c);
      assert names[|names| - 1] != key;
    }
  }

  lemma Regroup(a: Cell, b: Cell, c: Cell)
    ensures Plus(a, Plus(b, c)) == Plus(Plus(a, b), c)
    ensures Plus(Plus(a, c), b) == Plus(Plus(a, b), c)
  {
  }

  /** Entering a cell in a bucket adds it to the sum over the buckets. */
  lemma {:induction false} SumBump(m: Buckets, names: seq<string>, key: string, c: Cell)
    requires Distinct(names) && key in names
    ensures Sum(Bump(m, key, c), names) == Plus(Sum(m, names), c)
  {
    hide Plus;
    var rest, last := names[..|names| - 1], names[|names| - 1];
    Regroup(Sum(m, rest), At(m, last), c);
    if last == key {
      SumOther(m, rest, key, Plus(At(m, key), c));
    } else {
      SumBump(m, rest, key, c);
    }
  }

  lemma SumEmpty(names: seq<string>)
    ensures Sum(map[], names) == ZERO
  {
  }

  /** Name lists that cover every entry. */
  datatype Names = Names(strategies: seq<string>, families: seq<string>, instruments: seq<string>,
                         currencies: seq<string>)

  ghost predicate AllDistinct(n: Names) {
    Distinct(n.strategies) && Distinct(n.families) && Distinct(n.instruments) && Distinct(n.currencies)
  }

  ghost predicate Covers(n: Names, i: Item) {
    && i.strategy in n.strategies && i.family in n.families && i.instrument in n.instruments
    && (i.pair.Pair? ==> i.pair.base in n.currencies && i.pair.quote in n.currencies)
  }

  ghost predicate CoversAll(n: Names, items: seq<Item>) { forall j :: 0 <= j < |items| ==> Covers(n, items[j]) }

  /** Each of the three classifications accounts for the whole total, and the long legs weigh
      what the short legs weigh. */
  ghost predicate Conserved(n: Names, s: Summary) {
    && Sum(s.byStrategy, n.strategies) == s.totals
    && Sum(s.byFamily, n.families) == s.totals
    && Sum(s.byInstrument, n.instruments) == s.totals
    && Sum(s.long, n.currencies) == Sum(s.short, n.currencies)
  }

  /** The currency a directed pair is long, or short. */
  function LegOf(pair: Pair, side: Side, isLong: bool): string
    requires pair.Pair? && !side.Unknown?
  {
    if side.Buy? == isLong then pair.base else pair.quote
  }

  lemma LegsBumped(m: Buckets, pair: Pair, side: Side, isLong: bool, c: Cell)
    requires pair.Pair? && !side.Unknown?
    ensures BumpLegs(m, Legs(pair, side), isLong, c) == Bump(m, LegOf(pair, side, isLong), c)
  {
    var legs := Legs(pair, side);
    assert |legs| == 2;
    var one := legs[..1];
    assert one[..0] == [];
    assert BumpLegs(m, one[..0], isLong, c) == m;
    assert BumpLegs(m, one, isLong, c) == if legs[0].isLong == isLong then Bump(m, legs[0].currency, c) else m;
  }

  predicate Directed(i: Item) { i.pair.Pair? && !i.side.Unknown? }

  lemma EnterSides(s: Summary, i: Item)
    ensures Enter(s, i).long ==
      if Directed(i) then Bump(s.long, LegOf(i.pair, i.side, true), Half(CellOf(i))) else s.long
    ensures Enter(s, i).short ==
      if Directed(i) then Bump(s.short, LegOf(i.pair, i.side, false), Half(CellOf(i))) else s.short
    ensures Enter(s, i).byCurrency == BumpEach(s.byCurrency, Currencies(i.pair), Half(CellOf(i)))
  {
    hide Bump, Half, CellOf, LegOf, BumpEach;
    if Directed(i) {
      LegsBumped(s.long, i.pair, i.side, true, Half(CellOf(i)));
      LegsBumped(s.short, i.pair, i.side, false, Half(CellOf(i)));
    }
  }

  lemma LegsBalance(n: Names, s: Summary, i: Item)
    requires AllDistinct(n) && Covers(n, i)
    requires Sum(s.long, n.currencies) == Sum(s.short, n.currencies)
    ensures Sum(Enter(s, i).long, n.currencies) == Sum(Enter(s, i).short, n.currencies)
  {
    hide Enter, Bump, Sum, Half, CellOf;
    EnterSides(s, i);
    if Directed(i) {
      SumBump(s.long, n.currencies, LegOf(i.pair, i.side, true), Half(CellOf(i)));
      SumBump(s.short, n.currencies, LegOf(i.pair, i.side, false), Half(CellOf(i)));
    }
  }

  lemma EnterConserves(n: Names, s: Summary, i: Item)
    requires AllDistinct(n) && Covers(n, i) && Conserved(n, s)
    ensures Conserved(n, Enter(s, i))
  {
    LegsBalance(n, s, i);
    hide CellOf, Legs, Currencies, Bump, Sum, BumpEach, BumpLegs;
    SumBump(s.byStrategy, n.strategies, i.strategy, CellOf(i));
    SumBump(s.byFamily, n.families, i.family, CellOf(i));
    SumBump(s.byInstrument, n.instruments, i.instrument, CellOf(i));
  }

  lemma {:induction false} AllConserved(n: Names, items: seq<Item>)
    requires AllDistinct(n) && CoversAll(n, items)
    ensures Conserved(n, EnterAll(items))
  {
    if items == [] {
      SumEmpty(n.strategies);
      SumEmpty(n.families);
      SumEmpty(n.instruments);
      SumEmpty(n.currencies);
    } else {
      hide Enter, Conserved, Covers;
      AllConserved(n, items[..|items| - 1]);
      EnterConserves(n, EnterAll(items[..|items| - 1]), items[|items| - 1]);
    }
  }

  /* ----- Currency directions ----- */

  /** What one entry adds to a currency, and to its long or short side. */
  function CurrencyShare(i: Item, k: string): Cell {
    if i.pair.NoPair? then ZERO
    else Plus(if i.pair.base == k then Half(CellOf(i)) else ZERO, if i.pair.quote == k then Half(CellOf(i)) else ZERO)
  }

  function SideShare(i: Item, k: string, isLong: bool): Cell {
    if Directed(i) && LegOf(i.pair, i.side, isLong) == k then Half(CellOf(i)) else ZERO
  }

  /** Entries with a pair but no usable direction: they reach the currency totals only. */
  function Undirected(items: seq<Item>, k: string): Cell {
    if items == [] then ZERO
    else
      var i := items[|items| - 1];
      Plus(Undirected(items[..|items| - 1], k), if i.side.Unknown? then CurrencyShare(i, k) else ZERO)
  }

  lemma BumpReads(m: Buckets, key: string, c: Cell, k: string)
    ensures At(Bump(m, key, c), k) == Plus(At(m, k), if key == k then c else ZERO)
  {
  }

  lemma PlusZero(a: Cell)
    ensures Plus(a, ZERO) == a
  {
  }

  lemma BothCurrencies(m: Buckets, base: string, quote: string, c: Cell)
    ensures BumpEach(m, [base, quote], c) == Bump(Bump(m, base, c), quote, c)
  {
    hide Bump;
    var one := [base, quote][..1];
    assert one == [base] && one[..0] == [];
    assert BumpEach(m, one, c) == Bump(m, base, c);
  }

  lemma CurrencyReads(m: Buckets, i: Item, k: string)
    ensures At(BumpEach(m, Currencies(i.pair), Half(CellOf(i))), k) == Plus(At(m, k), CurrencyShare(i, k))
  {
    hide Plus, Half, CellOf, Bump, At;
    if i.pair.Pair? {
      var base, quote, c := i.pair.base, i.pair.quote, Half(CellOf(i));
      BothCurrencies(m, base, quote, c);
      hide BumpEach;
      BumpReads(m, base, c, k);
      BumpReads(Bump(m, base, c), quote, c, k);
      Regroup(At(m, k), if base == k then c else ZERO, if quote == k then c else ZERO);
    } else {
      PlusZero(At(m, k));
    }
  }

  lemma EnterReads(s: Summary, i: Item, k: string)
    ensures At(Enter(s, i).byCurrency, k) == Plus(At(s.byCurrency, k), CurrencyShare(i, k))
    ensures At(Enter(s, i).long, k) == Plus(At(s.long, k), SideShare(i, k, true))
    ensures At(Enter(s, i).short, k) == Plus(At(s.short, k), SideShare(i, k, false))
  {
    hide Enter, Half, CellOf, Bump, BumpEach, LegOf, CurrencyShare, Plus, At, Currencies;
    EnterSides(s, i);
    CurrencyReads(s.byCurrency, i, k);
    if Directed(i) {
      BumpReads(s.long, LegOf(i.pair, i.side, true), Half(CellOf(i)), k);
      BumpReads(s.short, LegOf(i.pair, i.side, false), Half(CellOf(i)), k);
    } else {
      PlusZero(At(s.long, k));
      PlusZero(At(s.short, k));
    }
  }

  lemma SharesAdd(i: Item, k: string)
    ensures CurrencyShare(i, k)
         == Plus(Plus(SideShare(i, k, true), SideShare(i, k, false)),
                 if i.side.Unknown? then CurrencyShare(i, k) else ZERO)
  {
    hide Half, CellOf;
  }

  lemma Rearrange(a: Cell, b: Cell, u: Cell, a': Cell, b': Cell, u': Cell)
    ensures Plus(Plus(Plus(a, b), u), Plus(Plus(a', b'), u')) == Plus(Plus(Plus(a, a'), Plus(b, b')), Plus(u, u'))
  {
  }

  /** A currency total is the long plus the short side, plus what has no direction. */
  lemma {:induction false} CurrencyIsDirectionalPlusUndirected(items: seq<Item>, k: string)
    ensures
      var s := EnterAll(items);
      At(s.byCurrency, k) == Plus(Plus(At(s.long, k), At(s.short, k)), Undirected(items, k))
  {
    if items != [] {
      hide Enter, At, Plus, CurrencyShare, SideShare;
      var i, earlier := items[|items| - 1], items[..|items| - 1];
      var s := EnterAll(earlier);
      CurrencyIsDirectionalPlusUndirected(earlier, k);
      EnterReads(s, i, k);
      SharesAdd(i, k);
      Rearrange(At(s.long, k), At(s.short, k), Undirected(earlier, k),
                SideShare(i, k, true), SideShare(i, k, false), if i.side.Unknown? then CurrencyShare(i, k) else ZERO);
    } else {
      assert At(map[], k) == ZERO;
    }
  }

  /* ----- Non-negative books ----- */

  ghost predicate NonNegative(items: seq<Item>) {
    forall j :: 0 <= j < |items| ==> items[j].risk >= 0.0 && items[j].amount >= 0.0
  }

  ghost predicate AtLeastZero(c: Cell) {
    c.reservedRisk >= 0.0 && c.liveRisk >= 0.0 && c.reservedAmount >= 0.0 && c.liveAmount >= 0.0
  }

  lemma SharesNonNegative(i: Item, k: string)
    requires i.risk >= 0.0 && i.amount >= 0.0
    ensures AtLeastZero(SideShare(i, k, true)) && AtLeastZero(SideShare(i, k, false))
    ensures AtLeastZero(CurrencyShare(i, k))
  {
  }

  lemma PlusNonNegative(a: Cell, b: Cell)
    requires AtLeastZero(a) && AtLeastZero(b)
    ensures AtLeastZero(Plus(a, b)) && TotalRisk(a) >= 0.0 && TotalRisk(b) >= 0.0
  {
  }

  lemma TotalOfPlus(a: Cell, b: Cell)
    ensures TotalRisk(Plus(a, b)) == TotalRisk(a) + TotalRisk(b)
  {
  }

  lemma {:induction false} SidesNonNegative(items: seq<Item>, k: string)
    requires NonNegative(items)
    ensures AtLeastZero(At(EnterAll(items).long, k)) && AtLeastZero(At(EnterAll(items).short, k))
  {
    if items != [] {
      hide Enter, SideShare, At, CurrencyShare, Plus, AtLeastZero;
      var i, earlier := items[|items| - 1], items[..|items| - 1];
      var s := EnterAll(earlier);
      SidesNonNegative(earlier, k);
      EnterReads(s, i, k);
      SharesNonNegative(i, k);
      PlusNonNegative(At(s.long, k), SideShare(i, k, true));
      PlusNonNegative(At(s.short, k), SideShare(i, k, false));
    }
  }

  predicate BringsUndirected(i: Item, k: string) { i.side.Unknown? && TotalRisk(CurrencyShare(i, k)) != 0.0 }

  /** Whether some entry without a direction brings risk to a currency. */
  ghost predicate SomeUndirected(items: seq<Item>, k: string) {
    exists j :: 0 <= j < |items| && BringsUndirected(items[j], k)
  }

  lemma SomeUndirectedSnoc(items: seq<Item>, i: Item, k: string)
    ensures SomeUndirected(items + [i], k) <==> SomeUndirected(items, k) || BringsUndirected(i, k)
  {
    hide BringsUndirected;
    var all := items + [i];
    assert all[|items|] == i;
    if SomeUndirected(items, k) {
      var j :| 0 <= j < |items| && BringsUndirected(items[j], k);
      assert all[j] == items[j];
    }
    if SomeUndirected(all, k) && !BringsUndirected(i, k) {
      var j :| 0 <= j < |all| && BringsUndirected(all[j], k);
      assert all[j] == items[j];
    }
  }

  lemma {:induction false} UndirectedNonNegative(items: seq<Item>, k: string)
    requires NonNegative(items)
    ensures AtLeastZero(Undirected(items, k))
    ensures TotalRisk(Undirected(items, k)) > 0.0 <==> SomeUndirected(items, k)
  {
    hide CurrencyShare, Plus, AtLeastZero, SomeUndirected, TotalRisk;
    ZeroCell();
    if items == [] {
      assert !SomeUndirected([], k) by { NoneUndirected(k); }
    } else {
      var n := |items| - 1;
      UndirectedNonNegative(items[..n], k);
      assert items == items[..n] + [items[n]];
      SomeUndirectedSnoc(items[..n], items[n], k);
      MoreUndirected(Undirected(items[..n], k), items[n], k);
    }
  }

  lemma NoneUndirected(k: string)
    ensures !SomeUndirected([], k)
  {
  }

  lemma MoreUndirected(earlier: Cell, i: Item, k: string)
    requires AtLeastZero(earlier) && i.risk >= 0.0 && i.amount >= 0.0
    ensures
      var more := Plus(earlier, if i.side.Unknown? then CurrencyShare(i, k) else ZERO);
      AtLeastZero(more) && (TotalRisk(more) > 0.0 <==> TotalRisk(earlier) > 0.0 || BringsUndirected(i, k))
  {
    hide CurrencyShare, Plus, AtLeastZero, TotalRisk;
    if i.side.Unknown? {
      SharesNonNegative(i, k);
      RiskAdds(earlier, CurrencyShare(i, k));
    } else {
      ZeroCell();
      RiskAdds(earlier, ZERO);
    }
  }

  lemma RiskAdds(a: Cell, b: Cell)
    requires AtLeastZero(a) && AtLeastZero(b)
    ensures AtLeastZero(Plus(a, b))
    ensures TotalRisk(Plus(a, b)) > 0.0 <==> TotalRisk(a) > 0.0 || TotalRisk(b) != 0.0
  {
  }

  lemma ZeroCell()
    ensures AtLeastZero(ZERO) && TotalRisk(ZERO) == 0.0
  {
  }

  /** In a non-negative book a currency's long and short sides make up its total risk exactly when
      no entry without a direction brings risk to it. */
  lemma DirectionalGrossIff(items: seq<Item>, k: string)
    requires NonNegative(items)
    ensures Gross(EnterAll(items), k) == TotalRisk(At(EnterAll(items).byCurrency, k)) <==> !SomeUndirected(items, k)
  {
    hide EnterAll, At, Plus, TotalRisk, SomeUndirected, Undirected, AtLeastZero;
    var s := EnterAll(items);
    CurrencyIsDirectionalPlusUndirected(items, k);
    UndirectedNonNegative(items, k);
    ZeroCell();
    PlusNonNegative(ZERO, Undirected(items, k));
    TotalOfPlus(Plus(At(s.long, k), At(s.short, k)), Undirected(items, k));
    TotalOfPlus(At(s.long, k), At(s.short, k));
  }

  /** Long and short of a currency. */
  function Gross(s: Summary, k: string): real { TotalRisk(At(s.long, k)) + TotalRisk(At(s.short, k)) }
  function Net(s: Summary, k: string): real { TotalRisk(At(s.long, k)) - TotalRisk(At(s.short, k)) }

  lemma NetWithinGross(items: seq<Item>, k: string)
    requires NonNegative(items)
    ensures -Gross(EnterAll(items), k) <= Net(EnterAll(items), k) <= Gross(EnterAll(items), k)
  {
    SidesNonNegative(items, k);
  }

  /* ----- The console ----- */

  function SumGrossRounded(s: Summary, names: seq<string>): real {
    if names == [] then 0.0
    else SumGrossRounded(s, names[..|names| - 1]) + Rounding.Round6(Gross(s, names[|names| - 1]))
  }

  datatype Console = Console(gross: real, net: real, long: real, short: real)

  /** The console's sums over the directional buckets, each bucket's gross already rounded. */
  function BuildRiskAllocationSummary(s: Summary, names: seq<string>): Console {
    var long, short := TotalRisk(Sum(s.long, names)), TotalRisk(Sum(s.short, names));
    Console(if names == [] then long + short else SumGrossRounded(s, names), long - short, long, short)
  }

  lemma {:induction false} RoundedGrossNear(s: Summary, names: seq<string>)
    ensures
      var exact := TotalRisk(Sum(s.long, names)) + TotalRisk(Sum(s.short, names));
      -0.0000005 * |names| as real <= SumGrossRounded(s, names) - exact <= 0.0000005 * |names| as real
  {
    hide Plus, At, TotalRisk, Rounding.Round6;
    if names == [] {
      ZeroCell();
    } else {
      var n := |names| - 1;
      RoundedGrossNear(s, names[..n]);
      TotalOfPlus(Sum(s.long, names[..n]), At(s.long, names[n]));
      TotalOfPlus(Sum(s.short, names[..n]), At(s.short, names[n]));
      assert |names| as real == n as real + 1.0;
    }
  }

  /** Over all the directional buckets the console's long and short totals are equal, its net is
      zero, and its gross is their sum up to half a unit of the sixth digit per bucket. */
  lemma ConsoleBalances(n: Names, items: seq<Item>)
    requires AllDistinct(n) && CoversAll(n, items)
    ensures
      var c := BuildRiskAllocationSummary(EnterAll(items), n.currencies);
      && c.long == c.short && c.net == 0.0
      && -0.0000005 * |n.currencies| as real <= c.gross - (c.long + c.short) <= 0.0000005 * |n.currencies| as real
  {
    hide EnterAll, Sum, SumGrossRounded, TotalRisk, CoversAll, AllDistinct;
    AllConserved(n, items);
    RoundedGrossNear(EnterAll(items), n.currencies);
  }
}
