/** Grants so small that they are reserved at zero percent: exactly when they occur, and what the book
    reads for them once they are stored. A stored zero is taken for a missing value, and the percent the
    plan asked for is read instead. */
module ZeroGrants {
  import opened Basics
  import opened Rounding
  import opened IgSizing
  import opened Allocator
  import opened BudgetBounds
  import opened SizingCoherence
  import opened NotionalBounds
  import opened GrantCompleteness
  import opened AllocationCycle
  import opened SamplePlans
  import opened OpenBook
  import opened StoredBook
  import opened AdmissionInvariant

  /* ----- When a grant is reserved at zero ----- */

  /** The size left by the room of the tightest account, the trade cap and the gross room. */
  function GrantSize(s: Settings, p: Plan, open: Ledger, cycle: Ledger): real
    requires p.entryPrice != 0.0
  {
    var price := Abs(p.entryPrice);
    Min(Min(ScaledSize(p, Min(p.requestedRisk, Available(s, p, open, cycle))), s.maxPositionNotional / price),
        GrossRoom(s, p.equity, open, cycle) / price)
  }

  /** The size ordered for it: normalised, or the minimum order. */
  function OrderSize(d: Details, size: real): real {
    match NormalizeOrderSize(d, size)
    case BelowMinimum(_) => MinimumOrder(d)
    case _ => RoundedSize(d, size)
  }

  lemma CapsInSizes(worth: real, raw: real, trade: real, gross: real, price: real, size: real)
    requires price > 0.0 && worth == raw * price
    requires size * price == Min(Min(worth, trade), gross)
    ensures size == Min(Min(raw, trade / price), gross / price)
  {
    var t := Divide(trade, price);
    var g := Divide(gross, price);
    assert size == raw || size == t || size == g by {
      if size * price == worth { Same(size, raw, price); }
      else if size * price == trade { Same(size, t, price); }
      else { Same(size, g, price); }
    }
    Scale(size, raw, price);
    Scale(size, t, price);
    Scale(size, g, price);
  }

  lemma Same(a: real, b: real, c: real)
    requires c > 0.0 && a * c == b * c
    ensures a == b
  {
    Scale(a, b, c);
    Scale(b, a, c);
  }

  lemma CappedSize(s: Settings, p: Plan, allocatable: real, room: real)
    requires s.Valid() && p.entryPrice != 0.0 && allocatable > 0.0 && room >= 0.0
    requires CappedOffer(s, p, allocatable, room).Fits?
    ensures
      var price := Abs(p.entryPrice);
      CappedOffer(s, p, allocatable, room).quantity.size
        == Min(Min(ScaledSize(p, allocatable), s.maxPositionNotional / price), room / price)
  {
    hide CappedOffer, ScaledSize;
    var worth := CappedWorth(s, p, allocatable, room);
    CapsInSizes(worth, ScaledSize(p, allocatable), s.maxPositionNotional, room, Abs(p.entryPrice),
                CappedOffer(s, p, allocatable, room).quantity.size);
  }

  lemma CappedRisk(s: Settings, p: Plan, allocatable: real, room: real)
    requires s.Valid() && p.requestedRisk > 0.0 && room >= 0.0 && CappedOffer(s, p, allocatable, room).Fits?
    ensures
      var q := CappedOffer(s, p, allocatable, room).quantity;
      q.risk * p.requestedSize == p.requestedRisk * q.size
  {
    hide CappedOffer;
    var g := CappedOfferScalesQuote(s, p, allocatable, room);
    Swap(p.requestedRisk, g, p.requestedSize);
  }

  lemma CappedWorth(s: Settings, p: Plan, allocatable: real, room: real) returns (worth: real)
    requires s.Valid() && allocatable > 0.0 && room >= 0.0 && CappedOffer(s, p, allocatable, room).Fits?
    ensures worth == ScaledSize(p, allocatable) * Abs(p.entryPrice)
    ensures CappedOffer(s, p, allocatable, room).quantity.size * Abs(p.entryPrice)
         == Min(Min(worth, s.maxPositionNotional), room)
  {
    var raw, q := ScaledSize(p, allocatable), CappedOffer(s, p, allocatable, room).quantity;
    CappedOfferWithin(s, p, allocatable, room);
    CapSizeNotional(s, p, allocatable, raw, room);
    RawPositive(s, p, allocatable, room);
    hide Notional, ScaledSize, CapSize, CappedOffer;
    worth := NotionalIs(raw, p.entryPrice);
    var capped := NotionalIs(q.size, p.entryPrice);
  }

  lemma RawPositive(s: Settings, p: Plan, allocatable: real, room: real)
    requires CappedOffer(s, p, allocatable, room).Fits?
    ensures ScaledSize(p, allocatable) > 0.0
    ensures
      var raw := ScaledSize(p, allocatable);
      CappedOffer(s, p, allocatable, room) == CapSize(s, p, allocatable, raw, Notional(raw, p.entryPrice), room)
  {
    hide Notional, ScaledSize, Capped;
  }

  /** The capped quantity has that size, at the request's percent per unit. */
  lemma CappedIs(s: Settings, p: Plan, open: Ledger, cycle: Ledger)
    requires s.Valid() && p.requestedRisk > 0.0 && p.entryPrice != 0.0
    requires Min(p.requestedRisk, Available(s, p, open, cycle)) > 0.0 && CappedFor(s, p, open, cycle).Fits?
    ensures
      var q := CappedFor(s, p, open, cycle).quantity;
      q.size == GrantSize(s, p, open, cycle) && q.risk * p.requestedSize == p.requestedRisk * q.size
  {
    hide CappedOffer, ScaledSize, Available, GrossRoom;
    CappedSize(s, p, Min(p.requestedRisk, Available(s, p, open, cycle)), GrossRoom(s, p.equity, open, cycle));
    CappedRisk(s, p, Min(p.requestedRisk, Available(s, p, open, cycle)), GrossRoom(s, p.equity, open, cycle));
  }

  lemma Swap(a: real, g: real, b: real)
    ensures a * g * b == a * (b * g)
  {
  }

  /** A selected plan is reserved at zero exactly when what it asks for per unit, at the size ordered
      for the room that is left, comes to at most half of the sixth digit. */
  lemma ZeroGrantIff(s: Settings, id: string, p: Plan, open: Ledger, cycle: Ledger)
    requires s.Valid() && AllocateCandidate(s, id, p, open, cycle).selected
    ensures p.requestedRisk > 0.0 && p.requestedSize > 0.0 && p.entryPrice != 0.0
    ensures AllocateCandidate(s, id, p, open, cycle).risk == 0.0
       <==> p.requestedRisk * OrderSize(p.details, GrantSize(s, p, open, cycle)) <= HALF_MICRO * p.requestedSize
  {
    hide *;
    SelectedHas(s, id, p, open, cycle);
    ReservedAtZeroIff(s, id, p, open, cycle);
    OfferOf(s, p, open, cycle);
    CappedIs(s, p, open, cycle);
    FitWorth(s, p.details, CappedFor(s, p, open, cycle).quantity, Available(s, p, open, cycle),
             p.requestedRisk, p.requestedSize);
  }

  lemma FitWorth(s: Settings, d: Details, q: Quantity, hardLimit: real, requestedRisk: real, requestedSize: real)
    requires FitToBroker(s, d, q, hardLimit).Fits? && requestedSize > 0.0
    requires q.risk * requestedSize == requestedRisk * q.size
    ensures FitToBroker(s, d, q, hardLimit).quantity.risk <= HALF_MICRO
       <==> requestedRisk * OrderSize(d, q.size) <= HALF_MICRO * requestedSize
  {
    hide FitToBroker, OrderSize, Resized;
    FitSizeAboveFloor(s, d, q, hardLimit);
    FitsAtOrder(s, d, q, hardLimit);
    ResizedWorth(q, OrderSize(d, q.size), requestedRisk, requestedSize);
  }

  lemma SelectedHas(s: Settings, id: string, p: Plan, open: Ledger, cycle: Ledger)
    requires s.Valid() && AllocateCandidate(s, id, p, open, cycle).selected
    ensures p.requestedRisk > 0.0 && p.requestedSize > 0.0 && p.entryPrice != 0.0
    ensures Min(p.requestedRisk, Available(s, p, open, cycle)) > 0.0 && CappedFor(s, p, open, cycle).Fits?
  {
    SelectedIff(s, id, p, open, cycle);
    OfferedIff(s, p, open, cycle);
    BrokerTakesIff(s, p, open, cycle);
    hide *;
  }

  lemma OfferOf(s: Settings, p: Plan, open: Ledger, cycle: Ledger)
    requires Offer(s, p, open, cycle).Fits? && CappedFor(s, p, open, cycle).Fits?
    ensures Offer(s, p, open, cycle)
         == FitToBroker(s, p.details, CappedFor(s, p, open, cycle).quantity, Available(s, p, open, cycle))
  {
    hide Available, CappedOffer, FitToBroker, GrossRoom;
  }

  lemma FitsAtOrder(s: Settings, d: Details, q: Quantity, hardLimit: real)
    requires FitToBroker(s, d, q, hardLimit).Fits?
    ensures FitToBroker(s, d, q, hardLimit).quantity == Resized(q, OrderSize(d, q.size))
  {
    hide RoundedSize, MinimumOrder, Resized, Tolerance;
  }

  lemma ResizedWorth(q: Quantity, size: real, requestedRisk: real, requestedSize: real)
    requires q.size >= TINY && requestedSize > 0.0 && q.risk * requestedSize == requestedRisk * q.size
    ensures Resized(q, size).risk <= HALF_MICRO <==> requestedRisk * size <= HALF_MICRO * requestedSize
  {
    var ratio := Divide(size, q.size);
    var risk := q.risk * ratio;
    assert risk * requestedSize == requestedRisk * size by {
      calc {
        risk * requestedSize;
        q.risk * requestedSize * ratio;
        requestedRisk * q.size * ratio;
        requestedRisk * (ratio * q.size);
      }
    }
    Scale(risk, HALF_MICRO, requestedSize);
  }

  lemma ReservedAtZeroIff(s: Settings, id: string, p: Plan, open: Ledger, cycle: Ledger)
    requires s.Valid() && AllocateCandidate(s, id, p, open, cycle).selected
    ensures Offer(s, p, open, cycle).Fits?
    ensures AllocateCandidate(s, id, p, open, cycle).risk == 0.0
       <==> Offer(s, p, open, cycle).quantity.risk <= HALF_MICRO
  {
    LiftAtMostTwo(p);
    OfferWithin(s, p, open, cycle, 2.0);
    hide Offer, Available, Binding;
    RoundsToZeroIff(Offer(s, p, open, cycle).quantity.risk);
  }

  lemma RoundsToZeroIff(a: real)
    requires a >= 0.0
    ensures Round6(a) == 0.0 <==> a <= HALF_MICRO
  {
    var y := a * SCALE_6;
    assert Round6(a) == HalfEven(y) as real / SCALE_6;
    assert y.Floor >= 0;
  }

  /* ----- What the book reads for them ----- */

  /** What the grants asked for that are reserved at zero. */
  function Overstated(grants: seq<Grant>): real {
    if grants == [] then 0.0
    else
      var n := |grants| - 1;
      Overstated(grants[..n]) + (if grants[n].decision.risk == 0.0 then grants[n].plan.requestedRisk else 0.0)
  }

  lemma {:induction false} OverstatedIff(grants: seq<Grant>)
    requires Sound(grants)
    ensures Overstated(grants) >= 0.0
    ensures Overstated(grants) == 0.0 <==> AllPositive(grants)
  {
    if grants != [] {
      OverstatedIff(grants[..|grants| - 1]);
      assert AllPositive(grants) <==> AllPositive(grants[..|grants| - 1]) && grants[|grants| - 1].decision.risk > 0.0;
    }
  }

  /** The total risk of the stored grants, as the next rebuild reads it. */
  lemma {:induction false} StoredTotal(catalogue: Catalogue, held: set<nat>, intents: seq<Intent>,
                                       grants: seq<Grant>, ids: seq<nat>)
    requires |ids| == |grants| && forall i :: 0 <= i < |ids| ==> ids[i] !in held
    ensures IntentSum(catalogue, held, intents + StoreAll(grants, ids), Risk(Portfolio))
         == IntentSum(catalogue, held, intents, Risk(Portfolio))
            + GrantSum(grants, Risk(Portfolio)) + Overstated(grants)
  {
    if grants == [] {
      assert intents + StoreAll(grants, ids) == intents;
    } else {
      var n := |grants| - 1;
      var row := StoredIntent(ids[n], None, grants[n]);
      var earlier := intents + StoreAll(grants[..n], ids[..n]);
      assert intents + StoreAll(grants, ids) == earlier + [row];
      assert (earlier + [row])[..|earlier|] == earlier;
      StoredTotal(catalogue, held, intents, grants[..n], ids[..n]);
      RowReads(catalogue, grants[n], ids[n]);
      hide IntentExposure, Weight, GrantWeight;
      GrantSumSnoc(grants, Risk(Portfolio));
    }
  }

  lemma RowReads(catalogue: Catalogue, grant: Grant, id: nat)
    ensures Weight(IntentExposure(catalogue, StoredIntent(id, None, grant)), Risk(Portfolio))
         == GrantWeight(grant, Risk(Portfolio)) + (if grant.decision.risk == 0.0 then grant.plan.requestedRisk else 0.0)
  {
    hide Notional;
  }

  /** Storing a whole cycle adds, to the total risk read next, what the cycle reserved and all that its
      zero grants asked for: the next rebuild is exact if and only if there is no zero grant. */
  lemma RebuildExactIff(s: Settings, catalogue: Catalogue, b: Book, cycleId: string, plans: seq<Plan>, ids: seq<nat>)
    requires s.Valid()
    requires
      var grants := Grants(s, cycleId, OpenState(catalogue, b.positions, b.intents), EMPTY, plans);
      |ids| == |grants| && (forall i :: 0 <= i < |ids| ==> ids[i] !in Held(b.positions))
    ensures
      var open := OpenState(catalogue, b.positions, b.intents);
      var grants := Grants(s, cycleId, open, EMPTY, plans);
      var after := OpenState(catalogue, b.positions, b.intents + StoreAll(grants, ids));
      && after.total == open.total + Spend(s, cycleId, open, EMPTY, plans).1.total + Overstated(grants)
      && (after.total == open.total + Spend(s, cycleId, open, EMPTY, plans).1.total <==> AllPositive(grants))
  {
    var open, g := OpenState(catalogue, b.positions, b.intents), Risk(Portfolio);
    var grants := Grants(s, cycleId, open, EMPTY, plans);
    GrantsSound(s, cycleId, open, EMPTY, plans);
    GrantsWeighCycle(s, cycleId, open, EMPTY, plans, g);
    hide Grants, Spend, OpenState, IntentSum, PositionSum, StoreAll, Overstated, Sound, AllPositive, GrantSum;
    OverstatedIff(grants);
    StoredTotal(catalogue, Held(b.positions), b.intents, grants, ids);
    OpenStateWeighsBook(catalogue, b.positions, b.intents, g);
    OpenStateWeighsBook(catalogue, b.positions, b.intents + StoreAll(grants, ids), g);
  }

  /** Once stored, a zero grant of a cycle takes the book past its cap exactly when the cap has no room
      for the whole percent asked for. */
  lemma ZeroGrantOverstatesIff(s: Settings, catalogue: Catalogue, b: Book, cycleId: string, open: Ledger,
                               plans: seq<Plan>, at: nat, id: nat, price: Option<real>, factor: real)
    requires s.Valid() && id !in Held(b.positions)
    requires at < |Grants(s, cycleId, open, EMPTY, plans)|
    requires Grants(s, cycleId, open, EMPTY, plans)[at].decision.risk == 0.0
    ensures
      var grant := Grants(s, cycleId, open, EMPTY, plans)[at];
      var stored := Book(b.positions, b.intents + [StoredIntent(id, price, grant)]);
      && grant.plan.requestedRisk > 0.0
      && (Weighs(catalogue, stored, Risk(Portfolio)) > Cap(s, Risk(Portfolio), factor) <==>
          grant.plan.requestedRisk > Cap(s, Risk(Portfolio), factor) - Weighs(catalogue, b, Risk(Portfolio)))
  {
    var grant := Grants(s, cycleId, open, EMPTY, plans)[at];
    GrantsSound(s, cycleId, open, EMPTY, plans);
    var row := StoredIntent(id, price, grant);
    hide Grants, Notional;
    assert IntentExposure(catalogue, row).risk == grant.plan.requestedRisk;
    assert (b.intents + [row])[..|b.intents|] == b.intents;
    hide IntentExposure;
  }

  /* ----- A book that is nearly full ----- */

  /** With a tenth of the sixth digit left and a request of half a percent, the plan is selected and
      reserved at zero. */
  lemma SmallRoomSelected(s: Settings, p: Plan, open: Ledger)
    requires s.Valid() && s.maxPositionNotional == 1.0 && CountsLeft(s, p, open, EMPTY)
    requires p.requestedRisk == 0.5 && p.requestedSize == 1.0 && p.entryPrice == 1.0 && p.details == Details(None, None)
    requires Available(s, p, open, EMPTY) == 0.0000001 && GrossRoom(s, p.equity, open, EMPTY) >= 1.0
    ensures AllocateCandidate(s, "c", p, open, EMPTY).selected && AllocateCandidate(s, "c", p, open, EMPTY).risk == 0.0
  {
    AvailableIff(s, p, open, EMPTY);
    GrossRoomIff(s, p.equity, open, EMPTY);
    CappedForIff(s, p, open, EMPTY);
    CappedIs(s, p, open, EMPTY);
    SelectedIff(s, "c", p, open, EMPTY);
    assert GrantSize(s, p, open, EMPTY) == 0.0000002;
    SmallOrder();
    hide AllocateCandidate, Available, GrossRoom, SomeAccountExhausted, CappedFor, GrantSize, GrossUsed, GrossLimit;
    ZeroGrantIff(s, "c", p, open, EMPTY);
  }

  lemma SmallOrder()
    ensures NormalizeOrderSize(Details(None, None), 0.0000002).Normalized?
    ensures OrderSize(Details(None, None), 0.0000002) == 0.0000002
  {
  }

  /** Settings for two positions and a limit of one percent. */
  function Two(): Settings { Uniform(1.0, 1.0, 1.0).(maxOpenPositions := 2) }

  function NearlyFull(): Position { Position(None, "t", None, "j", Some(0.9999999), 1.0, None, 1.0) }

  /** What the sample plan finds of that position. */
  ghost predicate Nearly(open: Ledger) {
    && open.positions == 1 && open.total == 0.9999999 && open.gross == 1.0 && Count(open.strategyPositions, "s") == 0
    && Read(open.strategy, "s") == 0.0 && Read(open.family, "f") == 0.0 && Read(open.instrument, "i") == 0.0
  }

  lemma NearlyOpen(p: Position, open: Ledger)
    requires p == NearlyFull() && open == OpenState(map[], [p], [])
    ensures Nearly(open)
  {
    NearlyExposed(p);
    hide PositionExposure, Charge, Nearly;
    assert [p][..0] == [];
    assert ChargePositions(map[], []) == EMPTY;
    assert ChargePositions(map[], [p]) == Charge(EMPTY, PositionExposure(map[], p));
    ChargedAlone(PositionExposure(map[], p));
  }

  lemma NearlyExposed(p: Position)
    requires p == NearlyFull()
    ensures
      var e := PositionExposure(map[], p);
      e.strategy == e.family == "t" && e.instrument == "j" && e.risk == 0.9999999 && e.notional == 1.0
  {
    hide CurrencyBuckets;
  }

  lemma ChargedAlone(e: Exposure)
    requires e.strategy == e.family == "t" && e.instrument == "j" && e.risk == 0.9999999 && e.notional == 1.0
    ensures Nearly(Charge(EMPTY, e))
  {
    hide AddEach, Part;
  }

  lemma SmallRoom(s: Settings, p: Plan, open: Ledger)
    requires s == Two() && p == Sample(Details(None, None), 0.5, 1.0) && Nearly(open)
    ensures Available(s, p, open, EMPTY) == 0.0000001 && GrossRoom(s, p.equity, open, EMPTY) >= 1.0
    ensures CountsLeft(s, p, open, EMPTY)
  {
    hide Room, Accounts, Tightest, GrossRoom;
    SmallRooms(s, p, open);
    SmallGross(s, p, open);
  }

  lemma SmallGross(s: Settings, p: Plan, open: Ledger)
    requires s == Two() && p == Sample(Details(None, None), 0.5, 1.0) && Nearly(open)
    ensures GrossRoom(s, p.equity, open, EMPTY) >= 1.0
  {
    assert p.equity == 201.0;
  }

  lemma SmallRooms(s: Settings, p: Plan, open: Ledger)
    requires s == Two() && Nearly(open)
    requires p.strategy == "s" && p.family == "f" && p.instrument == "i" && p.currencies == []
    ensures Portfolio in Accounts(p) && Room(s, open, EMPTY, Portfolio) == 0.0000001
    ensures forall a :: a in Accounts(p) ==> Room(s, open, EMPTY, a) >= 0.0000001
  {
    assert Accounts(p) == [Portfolio, Cycle, Strategy("s"), Family("f"), Instrument("i")];
    assert Accounts(p)[0] == Portfolio;
  }

  lemma NearlyWeighs(p: Position, row: Intent)
    requires p == NearlyFull() && row.id == Some(0) && row.positionId.None?
    requires row.allocatedRisk == Some(0.0) && row.proposedRisk == Some(0.5)
    ensures Weighs(map[], Book([p], []), Risk(Portfolio)) == 0.9999999
    ensures Weighs(map[], Book([p], [row]), Risk(Portfolio)) == 1.4999999
  {
    NearlyExposures(p, row);
    hide PositionExposure, IntentExposure;
    assert [p][..0] == [] && [row][..0] == [];
    assert PositionSum(map[], [p], Risk(Portfolio)) == 0.9999999;
    assert Held([p]) == {} && Counted({}, row);
  }

  lemma NearlyExposures(p: Position, row: Intent)
    requires p == NearlyFull() && row.allocatedRisk == Some(0.0) && row.proposedRisk == Some(0.5)
    ensures PositionExposure(map[], p).risk == 0.9999999 && IntentExposure(map[], row).risk == 0.5
  {
    hide Notional, CurrencyBuckets;
  }

  /** A book within its cap, and a plan quoted by IG whose zero grant takes it past the cap. */
  lemma ZeroGrantOccurs(b: Book, p: Plan)
    requires b == Book([NearlyFull()], []) && p == Sample(Details(None, None), 0.5, 1.0)
    ensures WellFormed(p) && QuotedByIg(p, UnitRisk(0.5)) && Two().Valid()
    ensures
      var d := AllocateCandidate(Two(), "c", p, OpenState(map[], b.positions, b.intents), EMPTY);
      var stored := Book(b.positions, b.intents + [StoredIntent(0, None, Grant(p, d))]);
      && d.selected && d.risk == 0.0
      && Weighs(map[], b, Risk(Portfolio)) < Cap(Two(), Risk(Portfolio), 1.0) < Weighs(map[], stored, Risk(Portfolio))
  {
    hide AllocateCandidate, OpenState, Nearly, Weighs, SampleOn, WellFormed, QuotedByIg, NearlyFull, StoredIntent;
    var s, open := Two(), OpenState(map[], b.positions, b.intents);
    SampleIsQuoted("i", Details(None, None), 0.5, 1.0);
    NearlyOpen(b.positions[0], open);
    SmallRoom(s, p, open);
    SampleAsks(p);
    SmallRoomSelected(s, p, open);
    var d := AllocateCandidate(s, "c", p, open, EMPTY);
    var row := StoredIntent(0, None, Grant(p, d));
    ZeroRow(p, d);
    NearlyWeighs(b.positions[0], row);
    assert [] + [row] == [row];
    assert Cap(s, Risk(Portfolio), 1.0) == 1.0 + HALF_MICRO;
  }

  lemma SampleAsks(p: Plan)
    requires p == Sample(Details(None, None), 0.5, 1.0)
    ensures p.requestedRisk == 0.5 && p.requestedSize == 1.0 && p.entryPrice == 1.0 && p.details == Details(None, None)
  {
  }

  lemma ZeroRow(p: Plan, d: Decision)
    requires p.requestedRisk == 0.5 && d.risk == 0.0
    ensures
      var row := StoredIntent(0, None, Grant(p, d));
      && row.id == Some(0) && row.positionId.None?
      && row.allocatedRisk == Some(0.0) && row.proposedRisk == Some(0.5)
  {
  }
}
