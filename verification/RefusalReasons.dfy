/** Why a plan gets what it gets: what the broker's rounding of a size means, for which reason each refused
    plan is refused, and which budget is named. */
module RefusalReasons {
  import opened Basics
  import opened Rounding
  import opened IgSizing
  import opened Allocator
  import opened BudgetBounds
  import opened NotionalBounds
  import opened SizingCoherence
  import opened GrantCompleteness

  /* ----- What is sent to the broker ----- */

  /** As many whole steps as fit into the size asked for; all of it when there is no step. */
  ghost predicate WholeSteps(d: Details, requested: real, stepped: real) {
    var size := if requested > 0.0 then requested else 0.0;
    if d.sizeStep.Some? && d.sizeStep.value > 0.0 then
      IsMultiple(stepped, d.sizeStep.value) && stepped <= size < stepped + d.sizeStep.value
    else stepped == size
  }

  /** The nearest number with eight decimal digits, the one with an even last digit between two. */
  ghost predicate NearestEight(x: real, y: real) {
    var n := (x * SCALE_8).Floor;
    && x * SCALE_8 == n as real
    && -0.5 <= n as real - y * SCALE_8 <= 0.5
    && (n as real - y * SCALE_8 == 0.5 || n as real - y * SCALE_8 == -0.5 ==> n % 2 == 0)
  }

  ghost predicate Sends(d: Details, requested: real, x: real) {
    exists stepped: real :: WholeSteps(d, requested, stepped) && NearestEight(x, stepped)
  }

  /** There is one size to send. */
  lemma OneSent(d: Details, requested: real, x: real, y: real)
    requires Sends(d, requested, x) && Sends(d, requested, y)
    ensures x == y
  {
    var a: real :| WholeSteps(d, requested, a) && NearestEight(x, a);
    var b: real :| WholeSteps(d, requested, b) && NearestEight(y, b);
    hide NearestEight;
    if d.sizeStep.Some? && d.sizeStep.value > 0.0 {
      SameSteps(a, b, d.sizeStep.value, if requested > 0.0 then requested else 0.0);
    }
    OneNearest(x, y, a);
  }

  lemma SameSteps(a: real, b: real, step: real, size: real)
    requires step > 0.0 && IsMultiple(a, step) && IsMultiple(b, step)
    requires a <= size < a + step && b <= size < b + step
    ensures a == b
  {
    var j :| Times(j, step) == a;
    var k :| Times(k, step) == b;
    StepsOrdered(j, k, step, a, b);
    StepsOrdered(k, j, step, b, a);
  }

  lemma OneNearest(x: real, y: real, z: real)
    requires NearestEight(x, z) && NearestEight(y, z)
    ensures x == y
  {
    OneInteger((x * SCALE_8).Floor, (y * SCALE_8).Floor, z * SCALE_8);
  }

  lemma OneInteger(m: int, n: int, z: real)
    requires -0.5 <= m as real - z <= 0.5 && (m as real - z == 0.5 || m as real - z == -0.5 ==> m % 2 == 0)
    requires -0.5 <= n as real - z <= 0.5 && (n as real - z == 0.5 || n as real - z == -0.5 ==> n % 2 == 0)
    ensures m == n
  {
    assert -1.0 <= m as real - n as real <= 1.0;
    assert m == n + 1 ==> m as real - z == 0.5 && n as real - z == -0.5;
    assert n == m + 1 ==> n as real - z == 0.5 && m as real - z == -0.5;
  }

  /** What becomes of an order size: it is rounded to nothing, or is under the minimum, or is sent. */
  lemma NormalizationIs(d: Details, requested: real)
    ensures
      match NormalizeOrderSize(d, requested)
      case RoundedToZero => Sends(d, requested, 0.0)
      case BelowMinimum(x) => Sends(d, requested, x) && x > 0.0 && d.minDealSize.Some? && d.minDealSize.value > x
      case Normalized(x) => Sends(d, requested, x) && x > 0.0 && (d.minDealSize.Some? ==> d.minDealSize.value <= x)
  {
    var size := Max(requested, 0.0);
    var stepped := if HasStep(d) then FloorToStep(size, d.sizeStep.value) else size;
    StepsFit(d, size);
    NearestIs(stepped);
    assert WholeSteps(d, requested, stepped);
    assert NearestEight(RoundedSize(d, requested), stepped);
    assert Sends(d, requested, RoundedSize(d, requested));
    hide FloorToStep, Round8, Sends, NearestEight, WholeSteps;
    RoundedNonNegative(d, requested);
  }

  lemma StepsFit(d: Details, size: real)
    requires HasStep(d) ==> size >= 0.0
    ensures HasStep(d) ==> IsMultiple(FloorToStep(size, d.sizeStep.value), d.sizeStep.value)
  {
    if HasStep(d) {
      assert Times((size / d.sizeStep.value).Floor, d.sizeStep.value) == FloorToStep(size, d.sizeStep.value);
    }
  }

  lemma NearestIs(y: real)
    ensures NearestEight(Round8(y), y)
  {
    var n := HalfEven(y * SCALE_8);
    assert Round8(y) * SCALE_8 == n as real;
  }

  lemma RoundedNonNegative(d: Details, requested: real)
    ensures RoundedSize(d, requested) >= 0.0
  {
    var size := Max(requested, 0.0);
    Round8Monotone(0.0, if HasStep(d) then FloorToStep(size, d.sizeStep.value) else size);
    if HasStep(d) {
      SteppedNonNegative(size, d.sizeStep.value);
    }
  }

  /** The least order the broker takes: the minimum on an instrument without a step, else the next whole number of
      steps, or the minimum itself where a whole number of steps is less than 1e-9 below it. */
  lemma MinimumOrderIs(d: Details)
    requires d.minDealSize.Some?
    ensures
      var least, order := d.minDealSize.value, MinimumOrder(d);
      if d.sizeStep.Some? && d.sizeStep.value > 0.0 then
        || (IsMultiple(order, d.sizeStep.value) && least <= order < least + d.sizeStep.value)
        || (order == least && exists x: real :: IsMultiple(x, d.sizeStep.value) && least - TINY < x <= least)
      else order == least
  {
    if HasStep(d) {
      RoundUpLands(d.minDealSize.value, d.sizeStep.value);
      hide RoundUp;
    }
  }

  /* ----- The budgets of a plan ----- */

  /** The plan draws on this budget. */
  predicate DrawsOn(p: Plan, b: Budget) {
    match b
    case CurrencyRisk(code) => code in p.currencies
    case OpenPositions => false
    case StrategyPositions => false
    case CyclePositions => false
    case GrossExposure => false
    case _ => true
  }

  /** What is left of it: its limit less what the open book and the cycle have used, the cycle's own limit less
      what the cycle has used. */
  function Remaining(s: Settings, p: Plan, open: Ledger, cycle: Ledger, b: Budget): real {
    match b
    case PortfolioRisk => s.maxOpenRisk - (open.total + cycle.total)
    case CycleRisk => s.maxNewRiskPerCycle - cycle.total
    case StrategyRisk => s.maxRiskPerStrategy - (Read(open.strategy, p.strategy) + Read(cycle.strategy, p.strategy))
    case FamilyRisk => s.maxRiskPerFamily - (Read(open.family, p.family) + Read(cycle.family, p.family))
    case InstrumentRisk =>
      s.maxRiskPerInstrument - (Read(open.instrument, p.instrument) + Read(cycle.instrument, p.instrument))
    case CurrencyRisk(code) => s.maxRiskPerCurrency - (Read(open.currency, code) + Read(cycle.currency, code))
    case _ => 0.0
  }

  /** No budget has less left, a budget that is used up having nothing. */
  ghost predicate LeastLeft(s: Settings, p: Plan, open: Ledger, cycle: Ledger, b: Budget) {
    && DrawsOn(p, b)
    && forall c :: DrawsOn(p, c) ==>
         Max(Remaining(s, p, open, cycle, b), 0.0) <= Max(Remaining(s, p, open, cycle, c), 0.0)
  }

  /** Every budget the plan draws on has something left. */
  ghost predicate AccountsLeft(s: Settings, p: Plan, open: Ledger, cycle: Ledger) {
    forall b :: DrawsOn(p, b) ==> Remaining(s, p, open, cycle, b) > 0.0
  }

  lemma RoomLeft(s: Settings, p: Plan, open: Ledger, cycle: Ledger, a: Account)
    requires a in Accounts(p)
    ensures DrawsOn(p, Label(a))
    ensures Limit(s, a) - Used(open, cycle, a) == Remaining(s, p, open, cycle, Label(a))
    ensures Room(s, open, cycle, a) == Max(Remaining(s, p, open, cycle, Label(a)), 0.0)
  {
  }

  lemma AccountDrawn(p: Plan, b: Budget) returns (a: Account)
    requires DrawsOn(p, b)
    ensures a in Accounts(p) && Label(a) == b
  {
    var named, coded := [Portfolio, Cycle, Strategy(p.strategy), Family(p.family), Instrument(p.instrument)],
                        CurrencyAccounts(p.currencies);
    assert Accounts(p) == named + coded;
    match b
    case PortfolioRisk => a := named[0];
    case CycleRisk => a := named[1];
    case StrategyRisk => a := named[2];
    case FamilyRisk => a := named[3];
    case InstrumentRisk => a := named[4];
    case CurrencyRisk(code) =>
      var i :| 0 <= i < |p.currencies| && p.currencies[i] == code;
      assert coded[i] == Currency(code);
      a := coded[i];
  }

  lemma AccountsLeftIff(s: Settings, p: Plan, open: Ledger, cycle: Ledger)
    ensures AccountsLeft(s, p, open, cycle) <==> !SomeAccountExhausted(s, p, open, cycle)
  {
    hide Remaining, Used, Limit, Accounts, Room, Label, DrawsOn;
    if AccountsLeft(s, p, open, cycle) {
      forall a | a in Accounts(p) ensures Used(open, cycle, a) < Limit(s, a) {
        RoomLeft(s, p, open, cycle, a);
      }
    } else {
      var b :| DrawsOn(p, b) && Remaining(s, p, open, cycle, b) <= 0.0;
      var a := AccountDrawn(p, b);
      RoomLeft(s, p, open, cycle, a);
    }
  }

  /** What is available to the plan is what is left of that budget. */
  lemma AvailableIs(s: Settings, p: Plan, open: Ledger, cycle: Ledger)
    ensures
      var b := Label(Binding(s, p, open, cycle));
      && LeastLeft(s, p, open, cycle, b) && Available(s, p, open, cycle) == Max(Remaining(s, p, open, cycle, b), 0.0)
  {
    hide Remaining, Used, Limit, Accounts, Room, Label, DrawsOn, Tightest;
    var a := Binding(s, p, open, cycle);
    RoomLeft(s, p, open, cycle, a);
    forall c | DrawsOn(p, c)
      ensures Max(Remaining(s, p, open, cycle, Label(a)), 0.0) <= Max(Remaining(s, p, open, cycle, c), 0.0)
    {
      var other := AccountDrawn(p, c);
      RoomLeft(s, p, open, cycle, other);
    }
  }

  /* ----- The reason for a refusal ----- */

  /** The book and the cycle are worth less than the gross limit. */
  ghost predicate GrossLeft(s: Settings, p: Plan, open: Ledger, cycle: Ledger) {
    open.gross + cycle.gross < p.equity * (s.maxGrossExposurePercent / 100.0)
  }

  /** The plan gets as far as the broker: no position limit is reached, it asks for something at a price, and
      its budgets and the gross limit have something left. */
  ghost predicate ReachesBroker(s: Settings, p: Plan, open: Ledger, cycle: Ledger) {
    && CountsLeft(s, p, open, cycle) && p.requestedRisk > 0.0 && AccountsLeft(s, p, open, cycle)
    && p.requestedSize > 0.0 && p.entryPrice != 0.0 && GrossLeft(s, p, open, cycle)
  }

  /** The broker takes the size it is sent, or the least order where that raises the risk by no more than the
      tolerance and every budget still has it. */
  ghost predicate Takes(s: Settings, p: Plan, open: Ledger, cycle: Ledger) {
    var capped := CappedFor(s, p, open, cycle);
    && capped.Fits?
    && !Sends(p.details, capped.quantity.size, 0.0)
    && (SendsEnough(p.details, capped.quantity.size) || LeastOrderAllowed(s, p, open, cycle, capped.quantity))
  }

  ghost predicate SendsEnough(d: Details, requested: real) {
    d.minDealSize.Some? ==> exists x: real :: Sends(d, requested, x) && x >= d.minDealSize.value
  }

  ghost predicate LeastOrderAllowed(s: Settings, p: Plan, open: Ledger, cycle: Ledger, q: Quantity) {
    && p.details.minDealSize.Some?
    && var lifted := LiftedRisk(q, MinimumOrder(p.details));
       lifted <= ToleratedRisk(s, q) && AllHave(s, p, open, cycle, lifted)
  }

  /** The risk of the quantity at another size. */
  function LiftedRisk(q: Quantity, size: real): real { q.risk * (size / Max(q.size, TINY)) }

  /** Its risk and the tolerance in percent of it. */
  function ToleratedRisk(s: Settings, q: Quantity): real { q.risk * (1.0 + s.roundUpTolerancePercent / 100.0) }

  /** Every budget the plan draws on has this percent left. */
  ghost predicate AllHave(s: Settings, p: Plan, open: Ledger, cycle: Ledger, percent: real) {
    forall b :: DrawsOn(p, b) ==> percent <= Max(Remaining(s, p, open, cycle, b), 0.0)
  }

  /** The size that the broker is asked to take. */
  function AskedSize(s: Settings, p: Plan, open: Ledger, cycle: Ledger): real {
    match CappedFor(s, p, open, cycle)
    case Fits(q) => q.size
    case Refused(_) => 0.0
  }

  /** This is the reason, each one only where the earlier ones do not hold. */
  ghost predicate Because(s: Settings, p: Plan, open: Ledger, cycle: Ledger, reason: Reason) {
    var counts := CountsLeft(s, p, open, cycle);
    var asks := counts && p.requestedRisk > 0.0 && AccountsLeft(s, p, open, cycle);
    match reason
    case PortfolioPositionLimit => open.positions + cycle.positions >= s.maxOpenPositions
    case StrategyPositionLimit =>
      && open.positions + cycle.positions < s.maxOpenPositions
      && StrategyCount(open, cycle, p.strategy) >= s.maxPositionsPerStrategy
    case CyclePositionLimit =>
      && open.positions + cycle.positions < s.maxOpenPositions
      && StrategyCount(open, cycle, p.strategy) < s.maxPositionsPerStrategy
      && cycle.positions >= s.maxNewPositionsPerCycle
    case Exhausted(_) => counts && !asks
    case SizeZero => asks && (p.requestedSize <= 0.0 || p.entryPrice == 0.0)
    case GrossExposureLimit =>
      && asks && p.requestedSize > 0.0 && p.entryPrice != 0.0
      && !GrossLeft(s, p, open, cycle)
    case SizeRoundedToZero =>
      ReachesBroker(s, p, open, cycle) && Sends(p.details, AskedSize(s, p, open, cycle), 0.0)
    case BelowMinSize =>
      && ReachesBroker(s, p, open, cycle) && !Sends(p.details, AskedSize(s, p, open, cycle), 0.0)
      && !Takes(s, p, open, cycle)
    case Allocated => ReachesBroker(s, p, open, cycle) && Takes(s, p, open, cycle)
    case _ => false
  }

  /** The budget that the decision names: the position limit that is reached, the gross limit where that is
      the reason, or else one of those with the least left. */
  ghost predicate Names(s: Settings, p: Plan, open: Ledger, cycle: Ledger, d: Decision) {
    match d.reason
    case PortfolioPositionLimit => d.binding == Some(OpenPositions)
    case StrategyPositionLimit => d.binding == Some(StrategyPositions)
    case CyclePositionLimit => d.binding == Some(CyclePositions)
    case GrossExposureLimit => d.binding == Some(GrossExposure)
    case Exhausted(budget) => d.binding == Some(budget) && LeastLeft(s, p, open, cycle, budget)
    case _ => exists budget :: LeastLeft(s, p, open, cycle, budget) && d.binding == Some(budget)
  }

  lemma TakesIff(s: Settings, p: Plan, open: Ledger, cycle: Ledger)
    ensures Takes(s, p, open, cycle) <==> BrokerTakes(s, p, open, cycle)
  {
    hide Sends, NormalizeOrderSize, CappedFor, Available, LeastOrderAllowed, SendsEnough, Resized, Tolerance;
    var capped := CappedFor(s, p, open, cycle);
    if capped.Fits? {
      var q := capped.quantity;
      RoundedAwayIff(p.details, q.size);
      EnoughIff(p.details, q.size);
      if p.details.minDealSize.Some? {
        LeastAllowedIff(s, p, open, cycle, q);
      }
    }
  }

  lemma EnoughIff(d: Details, requested: real)
    ensures NormalizeOrderSize(d, requested).BelowMinimum? ==> !SendsEnough(d, requested) && d.minDealSize.Some?
    ensures NormalizeOrderSize(d, requested).Normalized? ==> SendsEnough(d, requested)
  {
    hide Sends, NormalizeOrderSize;
    NormalizationIs(d, requested);
    match NormalizeOrderSize(d, requested)
    case RoundedToZero =>
    case Normalized(x) =>
    case BelowMinimum(x) =>
      forall y: real | Sends(d, requested, y) ensures y == x {
        OneSent(d, requested, x, y);
      }
  }

  lemma LeastAllowedIff(s: Settings, p: Plan, open: Ledger, cycle: Ledger, q: Quantity)
    requires p.details.minDealSize.Some?
    ensures
      var up := Resized(q, MinimumOrder(p.details)).risk;
      LeastOrderAllowed(s, p, open, cycle, q) <==> up <= q.risk * Tolerance(s) && up <= Available(s, p, open, cycle)
  {
    hide AllHave, Available, LiftedRisk, ToleratedRisk, Resized, Tolerance;
    LiftAllowedIff(s, p, open, cycle, Resized(q, MinimumOrder(p.details)).risk);
    LiftedIs(s, q, MinimumOrder(p.details));
  }

  lemma LiftedIs(s: Settings, q: Quantity, size: real)
    ensures Resized(q, size).risk == LiftedRisk(q, size)
    ensures q.risk * Tolerance(s) == ToleratedRisk(s, q)
  {
  }

  lemma LiftAllowedIff(s: Settings, p: Plan, open: Ledger, cycle: Ledger, lifted: real)
    ensures lifted <= Available(s, p, open, cycle) <==> AllHave(s, p, open, cycle, lifted)
  {
    hide Available, Remaining, DrawsOn, Binding, Label;
    AvailableIs(s, p, open, cycle);
    var b := Label(Binding(s, p, open, cycle));
    assert DrawsOn(p, b);
  }

  /** The position limits come first. */
  lemma CountsDecide(s: Settings, id: string, p: Plan, open: Ledger, cycle: Ledger)
    requires !CountsLeft(s, p, open, cycle)
    ensures
      var d := AllocateCandidate(s, id, p, open, cycle);
      && Because(s, p, open, cycle, d.reason) && Names(s, p, open, cycle, d)
  {
    hide Offer, Binding, Sends, Takes, AccountsLeft, LeastLeft;
  }

  /** Then the offer decides. */
  lemma OfferDecides(s: Settings, id: string, p: Plan, open: Ledger, cycle: Ledger)
    requires CountsLeft(s, p, open, cycle)
    ensures
      var d, budget := AllocateCandidate(s, id, p, open, cycle), Label(Binding(s, p, open, cycle));
      match Offer(s, p, open, cycle)
      case Fits(_) => d.reason == Allocated && d.binding == Some(budget)
      case Refused(reason) =>
        d.reason == reason && d.binding == Some(if reason == GrossExposureLimit then GrossExposure else budget)
  {
    hide Offer, Binding, Label, Round6, Round8;
  }

  lemma CappingRefuses(s: Settings, p: Plan, open: Ledger, cycle: Ledger)
    requires s.Valid() && Min(p.requestedRisk, Available(s, p, open, cycle)) > 0.0
    requires CappedFor(s, p, open, cycle).Refused?
    ensures CappedFor(s, p, open, cycle).reason
         == if p.requestedSize <= 0.0 || p.entryPrice == 0.0 then SizeZero else GrossExposureLimit
  {
    var allocatable := Min(p.requestedRisk, Available(s, p, open, cycle));
    hide Available, GrossRoom, Notional, ScaledSize;
    ScaledPositiveIff(p, allocatable);
    var rawSize := ScaledSize(p, allocatable);
    if rawSize > 0.0 {
      NotionalPositiveIff(rawSize, p.entryPrice);
    }
  }

  lemma RoundedAwayIff(d: Details, requested: real)
    ensures NormalizeOrderSize(d, requested) == RoundedToZero <==> Sends(d, requested, 0.0)
  {
    hide Sends, NormalizeOrderSize;
    NormalizationIs(d, requested);
    match NormalizeOrderSize(d, requested)
    case RoundedToZero =>
    case BelowMinimum(x) => SentOnce(d, requested, x);
    case Normalized(x) => SentOnce(d, requested, x);
  }

  lemma SentOnce(d: Details, requested: real, x: real)
    requires Sends(d, requested, x) && x > 0.0
    ensures !Sends(d, requested, 0.0)
  {
    hide Sends;
    if Sends(d, requested, 0.0) {
      OneSent(d, requested, x, 0.0);
    }
  }

  lemma FittingRefuses(s: Settings, p: Plan, open: Ledger, cycle: Ledger)
    requires CappedFor(s, p, open, cycle).Fits?
    ensures
      var q := CappedFor(s, p, open, cycle).quantity;
      match FitToBroker(s, p.details, q, Available(s, p, open, cycle))
      case Fits(_) => BrokerTakes(s, p, open, cycle) && NormalizeOrderSize(p.details, q.size) != RoundedToZero
      case Refused(reason) =>
        && !BrokerTakes(s, p, open, cycle)
        && reason == if NormalizeOrderSize(p.details, q.size) == RoundedToZero then SizeRoundedToZero else BelowMinSize
  {
    hide CappedFor, Available, Resized, MinimumOrder, Tolerance, RoundedSize;
  }

  lemma OfferIs(s: Settings, p: Plan, open: Ledger, cycle: Ledger)
    ensures
      var available := Available(s, p, open, cycle);
      Offer(s, p, open, cycle) ==
      if Min(p.requestedRisk, available) <= 0.0 then Refused(Exhausted(Label(Binding(s, p, open, cycle))))
      else
        match CappedFor(s, p, open, cycle)
        case Refused(reason) => Refused(reason)
        case Fits(q) => FitToBroker(s, p.details, q, available)
  {
    hide CappedOffer, FitToBroker, Available, Binding, Label, GrossRoom;
  }

  lemma OfferBecause(s: Settings, p: Plan, open: Ledger, cycle: Ledger)
    requires s.Valid() && CountsLeft(s, p, open, cycle)
    ensures
      match Offer(s, p, open, cycle)
      case Fits(_) => Because(s, p, open, cycle, Allocated)
      case Refused(reason) => Because(s, p, open, cycle, reason) && RefusedHere(s, p, open, cycle, reason)
  {
    hide Offer, FitToBroker, Available, Binding, Label, GrossLimit, CappedFor, Sends, NormalizeOrderSize;
    hide BrokerTakes, Takes, SomeAccountExhausted, AccountsLeft, CountsLeft, GrossLeft, GrossUsed;
    OfferIs(s, p, open, cycle);
    AvailableIff(s, p, open, cycle);
    CappedForIff(s, p, open, cycle);
    GrossIs(s, p, open, cycle);
    TakesIff(s, p, open, cycle);
    AccountsLeftIff(s, p, open, cycle);
    if Min(p.requestedRisk, Available(s, p, open, cycle)) > 0.0 {
      if CappedFor(s, p, open, cycle).Fits? {
        FittingRefuses(s, p, open, cycle);
        RoundedAwayIff(p.details, AskedSize(s, p, open, cycle));
      } else {
        CappingRefuses(s, p, open, cycle);
      }
    }
  }

  lemma GrossIs(s: Settings, p: Plan, open: Ledger, cycle: Ledger)
    ensures GrossLeft(s, p, open, cycle) <==> GrossUsed(open, cycle) < GrossLimit(s, p.equity)
  {
  }

  /** A refusal past the position limits. */
  ghost predicate RefusedHere(s: Settings, p: Plan, open: Ledger, cycle: Ledger, reason: Reason) {
    || reason == Exhausted(Label(Binding(s, p, open, cycle)))
    || reason.SizeZero? || reason.GrossExposureLimit? || reason.SizeRoundedToZero? || reason.BelowMinSize?
  }

  /** A plan is decided for the reason that holds, under its own id and percent, names the budget that bound
      it, and is given nothing unless it is selected. */
  lemma DecidedBecause(s: Settings, id: string, p: Plan, open: Ledger, cycle: Ledger)
    requires s.Valid()
    ensures
      var d := AllocateCandidate(s, id, p, open, cycle);
      && d.id == p.id && d.requestedRisk == p.requestedRisk && (d.selected <==> d.reason == Allocated)
      && Because(s, p, open, cycle, d.reason) && Names(s, p, open, cycle, d)
      && (!d.selected ==> d.size == d.risk == d.amount == 0.0)
  {
    DecisionFields(s, id, p, open, cycle);
    hide AllocateCandidate, Because, CountsLeft, Offer, Binding, LeastLeft, Label, Available, Remaining;
    if CountsLeft(s, p, open, cycle) {
      OfferDecides(s, id, p, open, cycle);
      OfferBecause(s, p, open, cycle);
      AvailableIs(s, p, open, cycle);
    } else {
      CountsDecide(s, id, p, open, cycle);
    }
  }

  lemma DecisionFields(s: Settings, id: string, p: Plan, open: Ledger, cycle: Ledger)
    requires s.Valid()
    ensures
      var d := AllocateCandidate(s, id, p, open, cycle);
      && d.id == p.id && d.requestedRisk == p.requestedRisk && (d.selected <==> d.reason == Allocated)
      && (!d.selected ==> d.size == d.risk == d.amount == 0.0)
  {
    hide Offer, Binding, Label, Because, Round6, Round8;
    if CountsLeft(s, p, open, cycle) {
      OfferBecause(s, p, open, cycle);
    }
  }

  /** No two reasons hold of one plan. */
  lemma OneReason(s: Settings, p: Plan, open: Ledger, cycle: Ledger, first: Reason, second: Reason)
    requires Because(s, p, open, cycle, first) && Because(s, p, open, cycle, second)
    ensures first == second || (first.Exhausted? && second.Exhausted?)
  {
    hide Sends, AccountsLeft, GrossLeft, CappedFor, StrategyCount;
  }
}
