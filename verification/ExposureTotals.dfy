/** What each figure of the exposure summary adds up to, spelled out over the intents and positions: the
    reserved columns come from the intents that are still to be filled, the live ones from the positions. */
module ExposureTotals {
  import opened Basics
  import opened Exposure
  import Rounding

  /** A figure of the summary. */
  datatype Place =
    | Overall
    | OfStrategy(name: string) | OfFamily(name: string) | OfInstrument(name: string)
    | OfCurrency(code: string) | LongIn(code: string) | ShortIn(code: string)

  function Figure(s: Summary, place: Place): Cell {
    match place
    case Overall => s.totals
    case OfStrategy(n) => At(s.byStrategy, n)
    case OfFamily(n) => At(s.byFamily, n)
    case OfInstrument(n) => At(s.byInstrument, n)
    case OfCurrency(c) => At(s.byCurrency, c)
    case LongIn(c) => At(s.long, c)
    case ShortIn(c) => At(s.short, c)
  }

  /** How many halves of an entry fall there: both on its names, and one on each of its currencies; the base
      is held long by a buyer and short by a seller, the quote the other way round. */
  function HalvesAt(strategy: string, family: Option<string>, instrument: string, pair: Pair, side: Side, place: Place)
    : nat
  {
    match place
    case Overall => 2
    case OfStrategy(n) => if n == strategy then 2 else 0
    case OfFamily(n) =>
      if n == (if family == None || family == Some("") then "UNASSIGNED" else family.value) then 2 else 0
    case OfInstrument(n) => if n == instrument then 2 else 0
    case OfCurrency(c) =>
      (if pair.Pair? && pair.base == c then 1 else 0) + (if pair.Pair? && pair.quote == c then 1 else 0)
    case LongIn(c) =>
      if pair.Pair? && ((side == Buy && pair.base == c) || (side == Sell && pair.quote == c)) then 1 else 0
    case ShortIn(c) =>
      if pair.Pair? && ((side == Sell && pair.base == c) || (side == Buy && pair.quote == c)) then 1 else 0
  }

  function Halves(n: nat, x: real): real { if n == 0 then 0.0 else if n == 1 then x / 2.0 else x }

  /* ----- What an intent and a position are entered with ----- */

  /** A recorded number; one that is absent counts as zero. */
  function Recorded(x: Option<real>): real { if x.Some? then x.value else 0.0 }

  /** Some of a partially filled order is still to be filled. */
  predicate PartLeft(i: Intent) { i.partiallyFilled && i.submittedSize > 0.0 && i.residualSize > 0.0 }

  /** The part of the order that is still to be filled, at most all of it. */
  function Left(i: Intent): real
    requires PartLeft(i)
  {
    if i.residualSize >= i.submittedSize then 1.0 else i.residualSize / i.submittedSize
  }

  /** The allocated percent, or else the proposed one. */
  function Percent(i: Intent): real {
    if Recorded(i.allocatedRisk) != 0.0 then i.allocatedRisk.value else Recorded(i.proposedRisk)
  }

  /** An intent reserves its percent as long as it has no position, and what is left of it while it is filled
      in part. */
  function ReservedPercent(i: Intent): real {
    if PartLeft(i) then Percent(i) * Left(i) else if i.positionId == None then Percent(i) else 0.0
  }

  /** The same for its money: what is left of the submitted amount, or the amount filled, submitted or
      estimated, whichever is known first. */
  function ReservedMoney(i: Intent): real {
    if PartLeft(i) then
      (match i.submittedAmount case Some(x) => x case None => Recorded(i.estimatedAmount)) * Left(i)
    else if i.positionId != None then 0.0
    else
      match i.fillAmount
      case Some(x) => x
      case None => match i.submittedAmount case Some(x) => x case None => Recorded(i.estimatedAmount)
  }

  function IntentFigure(i: Intent, place: Place): Cell {
    var n := HalvesAt(i.strategy, i.family, i.instrument, i.pair, i.side, place);
    Cell(Halves(n, ReservedPercent(i)), 0.0, Halves(n, ReservedMoney(i)), 0.0)
  }

  function PositionFigure(p: Position, place: Place): Cell {
    var n := HalvesAt(p.strategy, p.family, p.instrument, p.pair, p.side, place);
    Cell(0.0, Halves(n, Recorded(p.risk)), 0.0, Halves(n, Recorded(p.entryAmount)))
  }

  function IntentFigures(intents: seq<Intent>, place: Place): Cell {
    if intents == [] then Cell(0.0, 0.0, 0.0, 0.0)
    else
      var n, c := |intents| - 1, IntentFigure(intents[|intents| - 1], place);
      var earlier := IntentFigures(intents[..n], place);
      earlier.(reservedRisk := earlier.reservedRisk + c.reservedRisk,
               reservedAmount := earlier.reservedAmount + c.reservedAmount)
  }

  function PositionFigures(positions: seq<Position>, place: Place): Cell {
    if positions == [] then Cell(0.0, 0.0, 0.0, 0.0)
    else
      var n, c := |positions| - 1, PositionFigure(positions[|positions| - 1], place);
      var earlier := PositionFigures(positions[..n], place);
      earlier.(liveRisk := earlier.liveRisk + c.liveRisk, liveAmount := earlier.liveAmount + c.liveAmount)
  }

  /* ----- One entry ----- */

  /** What an entry adds to a figure. */
  function ItemFigure(i: Item, place: Place): Cell {
    var n := ItemHalves(i, place);
    var risk, amount := Halves(n, i.risk), Halves(n, i.amount);
    match i.kind
    case Reserved => Cell(risk, 0.0, amount, 0.0)
    case Live => Cell(0.0, risk, 0.0, amount)
  }

  function ItemHalves(i: Item, place: Place): nat {
    match place
    case OfFamily(n) => if n == i.family then 2 else 0
    case _ => HalvesAt(i.strategy, None, i.instrument, i.pair, i.side, place)
  }

  lemma BumpAt(m: Buckets, key: string, c: Cell, k: string)
    ensures At(Bump(m, key, c), k) == if k == key then Plus(At(m, k), c) else At(m, k)
  {
  }

  lemma NamedFigure(s: Summary, i: Item, place: Place)
    requires !place.OfCurrency? && !place.LongIn? && !place.ShortIn?
    ensures Figure(Enter(s, i), place) == Plus(Figure(s, place), ItemFigure(i, place))
  {
    hide BumpEach, BumpLegs, Bump, At, Plus;
    PlusZero(Figure(s, place));
    match place {
      case Overall =>
      case OfStrategy(n) => BumpAt(s.byStrategy, i.strategy, CellOf(i), n);
      case OfFamily(n) => BumpAt(s.byFamily, i.family, CellOf(i), n);
      case OfInstrument(n) => BumpAt(s.byInstrument, i.instrument, CellOf(i), n);
    }
  }

  lemma HalvesAdd(c: Cell)
    ensures Plus(Half(c), Half(c)) == c
  {
  }

  lemma NothingAdds(c: Cell)
    ensures Plus(c, ZERO) == c == Plus(ZERO, c)
  {
  }

  lemma ItemCell(i: Item, place: Place)
    ensures
      var n := ItemHalves(i, place);
      ItemFigure(i, place) == if n == 0 then ZERO else if n == 1 then Half(CellOf(i)) else CellOf(i)
  {
    hide ItemHalves;
  }

  lemma SharesAreFigures(i: Item, code: string)
    ensures CurrencyShare(i, code) == ItemFigure(i, OfCurrency(code))
    ensures SideShare(i, code, true) == ItemFigure(i, LongIn(code))
    ensures SideShare(i, code, false) == ItemFigure(i, ShortIn(code))
  {
    hide Plus, Half, CellOf, ItemFigure;
    HalvesAdd(CellOf(i));
    NothingAdds(Half(CellOf(i)));
    NothingAdds(ZERO);
    ItemCell(i, OfCurrency(code));
    ItemCell(i, LongIn(code));
    ItemCell(i, ShortIn(code));
  }

  lemma EnterFigure(s: Summary, i: Item, place: Place)
    ensures Figure(Enter(s, i), place) == Plus(Figure(s, place), ItemFigure(i, place))
  {
    hide Enter, Plus, At, ItemFigure, CurrencyShare, SideShare;
    match place {
      case OfCurrency(c) => EnterReads(s, i, c); SharesAreFigures(i, c);
      case LongIn(c) => EnterReads(s, i, c); SharesAreFigures(i, c);
      case ShortIn(c) => EnterReads(s, i, c); SharesAreFigures(i, c);
      case _ => NamedFigure(s, i, place);
    }
  }

  lemma IntentEntered(i: Intent, place: Place)
    ensures Entered(i) <==> PartLeft(i) || i.positionId == None
    ensures Entered(i) ==> ItemFigure(IntentItem(i), place) == IntentFigure(i, place)
    ensures !Entered(i) ==> ReservedPercent(i) == ReservedMoney(i) == 0.0
  {
    if PartLeft(i) {
      RatioIs(i);
    }
    hide HalvesAt;
    FamilyHalves(IntentItem(i), i.family, place);
    hide ItemHalves, Halves, ResidualRatio, Left;
  }

  lemma RatioIs(i: Intent)
    requires PartLeft(i)
    ensures ResidualRatio(i) == Left(i) > 0.0
  {
    PartAgainstOne(i.residualSize, i.submittedSize);
  }

  lemma PartAgainstOne(a: real, b: real)
    requires a > 0.0 && b > 0.0
    ensures a / b > 0.0 && (a / b > 1.0 ==> a >= b) && (a >= b ==> a / b >= 1.0)
  {
    var q := a / b;
    assert q * b == a;
    if q > 1.0 {
      Rounding.Scale(1.0, q, b);
    }
    if q < 1.0 {
      assert (1.0 - q) * b > 0.0;
    }
  }

  lemma FamilyHalves(i: Item, family: Option<string>, place: Place)
    requires i.family == FamilyOr(family)
    ensures ItemHalves(i, place) == HalvesAt(i.strategy, family, i.instrument, i.pair, i.side, place)
  {
  }

  lemma PositionEntered(p: Position, place: Place)
    ensures ItemFigure(PositionItem(p), place) == PositionFigure(p, place)
  {
    FamilyHalves(PositionItem(p), p.family, place);
    hide ItemHalves, Halves, HalvesAt;
  }

  /* ----- The summary ----- */

  lemma EmptyFigure(place: Place)
    ensures Figure(EnterAll([]), place) == ZERO
  {
  }

  lemma IntentStep(items: seq<Item>, i: Intent, place: Place)
    ensures
      var more := if Entered(i) then [IntentItem(i)] else [];
      Figure(EnterAll(items + more), place) == Plus(Figure(EnterAll(items), place), IntentFigure(i, place))
  {
    hide *;
    IntentEntered(i, place);
    if Entered(i) {
      EnterSnoc(items, IntentItem(i));
      EnterFigure(EnterAll(items), IntentItem(i), place);
    } else {
      assert items + [] == items;
      NothingReserved(i, place);
      PlusZero(Figure(EnterAll(items), place));
    }
  }

  lemma NothingReserved(i: Intent, place: Place)
    requires ReservedPercent(i) == ReservedMoney(i) == 0.0
    ensures IntentFigure(i, place) == ZERO
  {
    hide HalvesAt, ReservedPercent, ReservedMoney;
  }

  lemma IntentSnoc(intents: seq<Intent>, place: Place)
    requires intents != []
    requires
      var earlier := IntentFigures(intents[..|intents| - 1], place);
      earlier.liveRisk == earlier.liveAmount == 0.0
    ensures
      var n := |intents| - 1;
      IntentFigures(intents, place) == Plus(IntentFigures(intents[..n], place), IntentFigure(intents[n], place))
  {
    hide HalvesAt, ReservedPercent, ReservedMoney, Halves;
  }

  lemma {:induction false} NothingLive(intents: seq<Intent>, place: Place)
    ensures IntentFigures(intents, place).liveRisk == IntentFigures(intents, place).liveAmount == 0.0
  {
    if intents != [] {
      hide IntentFigure;
      NothingLive(intents[..|intents| - 1], place);
    }
  }

  lemma ItemsSnoc(intents: seq<Intent>)
    requires intents != []
    ensures
      var n := |intents| - 1;
      IntentItems(intents) == IntentItems(intents[..n]) + (if Entered(intents[n]) then [IntentItem(intents[n])] else [])
  {
    hide Entered, IntentItem;
  }

  lemma {:induction false} IntentsAddUp(intents: seq<Intent>, place: Place)
    ensures Figure(EnterAll(IntentItems(intents)), place) == IntentFigures(intents, place)
  {
    if intents == [] {
      EmptyFigure(place);
    } else {
      hide *;
      var n := |intents| - 1;
      IntentsAddUp(intents[..n], place);
      ItemsSnoc(intents);
      IntentStep(IntentItems(intents[..n]), intents[n], place);
      NothingLive(intents[..n], place);
      IntentSnoc(intents, place);
    }
  }

  lemma PositionStep(items: seq<Item>, p: Position, place: Place)
    ensures Figure(EnterAll(items + [PositionItem(p)]), place)
         == Plus(Figure(EnterAll(items), place), PositionFigure(p, place))
  {
    hide *;
    EnterSnoc(items, PositionItem(p));
    EnterFigure(EnterAll(items), PositionItem(p), place);
    PositionEntered(p, place);
  }

  lemma PositionItemsSnoc(items: seq<Item>, positions: seq<Position>)
    requires positions != []
    ensures
      var n := |positions| - 1;
      items + PositionItems(positions) == items + PositionItems(positions[..n]) + [PositionItem(positions[n])]
  {
    var n := |positions| - 1;
    var earlier, last := PositionItems(positions[..n]), [PositionItem(positions[n])];
    assert PositionItems(positions) == earlier + last;
    hide *;
    assert items + (earlier + last) == items + earlier + last;
  }

  lemma {:induction false} PositionsAddUp(items: seq<Item>, positions: seq<Position>, place: Place)
    ensures Figure(EnterAll(items + PositionItems(positions)), place)
         == Plus(Figure(EnterAll(items), place), PositionFigures(positions, place))
  {
    if positions == [] {
      hide EnterAll, Figure, Plus;
      assert items + PositionItems(positions) == items;
      PlusZero(Figure(EnterAll(items), place));
    } else {
      hide *;
      var n := |positions| - 1;
      PositionsAddUp(items, positions[..n], place);
      PositionItemsSnoc(items, positions);
      PositionStep(items + PositionItems(positions[..n]), positions[n], place);
      PositionSnoc(positions, place);
      Regroup(Figure(EnterAll(items), place), PositionFigures(positions[..n], place),
              PositionFigure(positions[n], place));
    }
  }

  lemma PositionSnoc(positions: seq<Position>, place: Place)
    requires positions != []
    ensures
      var n := |positions| - 1;
      PositionFigures(positions, place)
        == Plus(PositionFigures(positions[..n], place), PositionFigure(positions[n], place))
  {
    hide HalvesAt, Halves, Recorded;
    ReservesNothing(positions[..|positions| - 1], place);
  }

  lemma {:induction false} ReservesNothing(positions: seq<Position>, place: Place)
    ensures PositionFigures(positions, place).reservedRisk == PositionFigures(positions, place).reservedAmount == 0.0
  {
    if positions != [] {
      hide HalvesAt;
      ReservesNothing(positions[..|positions| - 1], place);
    }
  }

  /** Every figure of the summary: its reserved risk and amount are those of the intents entered there, its
      live risk and amount those of the positions. */
  lemma SummaryAddsUp(intents: seq<Intent>, positions: seq<Position>, place: Place)
    ensures
      var figure := Figure(EnterAll(IntentItems(intents) + PositionItems(positions)), place);
      var reserved, live := IntentFigures(intents, place), PositionFigures(positions, place);
      && figure.reservedRisk == reserved.reservedRisk && figure.reservedAmount == reserved.reservedAmount
      && figure.liveRisk == live.liveRisk && figure.liveAmount == live.liveAmount
  {
    hide Figure, EnterAll, IntentItems, PositionItems, IntentFigures, PositionFigures;
    IntentsAddUp(intents, place);
    PositionsAddUp(IntentItems(intents), positions, place);
    NothingLive(intents, place);
    ReservesNothing(positions, place);
  }
}
