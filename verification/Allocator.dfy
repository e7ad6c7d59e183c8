/** One candidate against the budgets: the risk ledger, the sizing arithmetic and the
    decision of the capital allocator. Floats are modelled as exact reals; the roundings
    the service performs on its results are explicit. */
module Allocator {
  import opened Basics
  import opened Rounding
  import opened IgSizing

  datatype Settings = Settings(
    maxOpenPositions: int,
    maxPositionsPerStrategy: int,
    maxNewPositionsPerCycle: int,
    maxOpenRisk: real,
    maxNewRiskPerCycle: real,
    maxRiskPerStrategy: real,
    maxRiskPerFamily: real,
    maxRiskPerInstrument: real,
    maxRiskPerCurrency: real,
    maxPositionNotional: real,
    maxGrossExposurePercent: real,
    roundUpTolerancePercent: real,
    defaultRiskPercent: real,
    staleAfterSeconds: real
  ) {
    /** What the settings validators demand of the limits. */
    ghost predicate Valid() {
      && maxOpenPositions > 0 && maxPositionsPerStrategy > 0 && maxNewPositionsPerCycle > 0
      && maxOpenRisk > 0.0 && maxNewRiskPerCycle > 0.0 && maxRiskPerStrategy > 0.0
      && maxRiskPerFamily > 0.0 && maxRiskPerInstrument > 0.0 && maxRiskPerCurrency > 0.0
      && maxPositionNotional > 0.0 && maxGrossExposurePercent > 0.0
      && roundUpTolerancePercent > 0.0 && defaultRiskPercent > 0.0 && staleAfterSeconds > 0.0
    }
  }

  datatype Direction = Buy | Sell

  datatype Plan = Plan(
    id: nat,
    strategy: string,
    family: string,
    instrument: string,
    direction: Direction,
    requestedRisk: real,
    requestedSize: real,
    riskAmount: real,
    equity: real,
    entryPrice: real,
    score: real,
    details: Details,
    currencies: seq<string>)

  /** The budget named on a decision as the one that bound it. */
  datatype Budget =
    | PortfolioRisk | CycleRisk | StrategyRisk | FamilyRisk | InstrumentRisk | CurrencyRisk(code: string)
    | OpenPositions | StrategyPositions | CyclePositions | GrossExposure

  /** Reason codes. `Exhausted(b)` stands for the code made of the budget's name and `_exhausted`. */
  datatype Reason =
    | Allocated | NonEntryPassthrough
    | StaleSignal
    | AccountEquityUnavailable | AccountEquityInvalid | BrokerMetadataUnavailable
    | SizingQuoteUnavailable | ApproximateSizingUnsupported
    | WeakerDuplicate | DirectionConflict
    | PortfolioPositionLimit | StrategyPositionLimit | CyclePositionLimit
    | Exhausted(budget: Budget) | SizeZero | GrossExposureLimit | BelowMinSize | SizeRoundedToZero

  /** `id` is the position of the candidate in the list handed to the allocator. */
  datatype Decision = Decision(
    id: nat,
    cycleId: string,
    selected: bool,
    reason: Reason,
    requestedRisk: real,
    size: real,
    risk: real,
    amount: real,
    binding: Option<Budget>)

  const UNASSIGNED := "unassigned"

  /* ----- The ledger ----- */

  /** Something that can be spent against a limit. */
  datatype Account =
    | Portfolio | Cycle
    | Strategy(name: string) | Family(name: string) | Instrument(name: string)
    | Currency(code: string)

  /** Totals over a set of exposures: the open book, or what a cycle has selected so far. */
  datatype Ledger = Ledger(
    positions: int,
    total: real,
    gross: real,
    strategyPositions: map<string, int>,
    strategy: map<string, real>,
    family: map<string, real>,
    instrument: map<string, real>,
    currency: map<string, real>)

  const EMPTY := Ledger(0, 0.0, 0.0, map[], map[], map[], map[], map[])

  function Read(m: map<string, real>, key: string): real { if key in m then m[key] else 0.0 }
  function Count(m: map<string, int>, key: string): int { if key in m then m[key] else 0 }

  function Value(l: Ledger, a: Account): real {
    match a
    case Portfolio => l.total
    case Cycle => l.total
    case Strategy(n) => Read(l.strategy, n)
    case Family(n) => Read(l.family, n)
    case Instrument(n) => Read(l.instrument, n)
    case Currency(c) => Read(l.currency, c)
  }

  /** One position, intent or selected plan, as the ledger sees it. */
  datatype Exposure = Exposure(
    strategy: string, family: string, instrument: string,
    currencies: seq<string>, risk: real, notional: real)

  function AddEach(m: map<string, real>, keys: seq<string>, part: real): map<string, real>
    decreases |keys|
  {
    if keys == [] then m
    else AddEach(m[keys[0] := Read(m, keys[0]) + part], keys[1..], part)
  }

  /** Each currency of an exposure carries an equal part of its risk. */
  function Part(e: Exposure): real {
    e.risk / Max(|e.currencies| as real, 1.0)
  }

  function Charge(l: Ledger, e: Exposure): Ledger {
    Ledger(
      l.positions + 1,
      l.total + e.risk,
      l.gross + e.notional,
      l.strategyPositions[e.strategy := Count(l.strategyPositions, e.strategy) + 1],
      l.strategy[e.strategy := Read(l.strategy, e.strategy) + e.risk],
      l.family[e.family := Read(l.family, e.family) + e.risk],
      l.instrument[e.instrument := Read(l.instrument, e.instrument) + e.risk],
      AddEach(l.currency, e.currencies, Part(e)))
  }

  /** What `key` collects when every entry of `keys` is given `part`. */
  function Collected(keys: seq<string>, part: real, key: string): real {
    if keys == [] then 0.0 else (if keys[0] == key then part else 0.0) + Collected(keys[1..], part, key)
  }

  /** How much of an exposure falls on an account. */
  function Share(e: Exposure, a: Account): real {
    match a
    case Portfolio => e.risk
    case Cycle => e.risk
    case Strategy(n) => if n == e.strategy then e.risk else 0.0
    case Family(n) => if n == e.family then e.risk else 0.0
    case Instrument(n) => if n == e.instrument then e.risk else 0.0
    case Currency(c) => Collected(e.currencies, Part(e), c)
  }

  lemma AddEachReads(m: map<string, real>, keys: seq<string>, part: real, key: string)
    decreases |keys|
    ensures Read(AddEach(m, keys, part), key) == Read(m, key) + Collected(keys, part, key)
  {
    if keys != [] {
      AddEachReads(m[keys[0] := Read(m, keys[0]) + part], keys[1..], part, key);
    }
  }

  /** Charging an exposure raises every account by exactly its share. */
  lemma ChargeRaisesByShare(l: Ledger, e: Exposure, a: Account)
    ensures Value(Charge(l, e), a) == Value(l, a) + Share(e, a)
  {
    if a.Currency? {
      AddEachReads(l.currency, e.currencies, Part(e), a.code);
    }
  }

  lemma CollectedBounds(keys: seq<string>, part: real, key: string)
    requires part >= 0.0
    ensures 0.0 <= Collected(keys, part, key) <= |keys| as real * part
  {
    if keys != [] {
      CollectedBounds(keys[1..], part, key);
      assert |keys| as real * part == |keys[1..]| as real * part + part;
    }
  }

  lemma ShareBounds(e: Exposure, a: Account)
    requires e.risk >= 0.0
    ensures 0.0 <= Share(e, a) <= e.risk
  {
    if a.Currency? && e.currencies != [] {
      var part := Divide(e.risk, |e.currencies| as real);
      Scale(0.0, part, |e.currencies| as real);
      CollectedBounds(e.currencies, Part(e), a.code);
    }
  }

  /* ----- Budgets ----- */

  function Limit(s: Settings, a: Account): real {
    match a
    case Portfolio => s.maxOpenRisk
    case Cycle => s.maxNewRiskPerCycle
    case Strategy(_) => s.maxRiskPerStrategy
    case Family(_) => s.maxRiskPerFamily
    case Instrument(_) => s.maxRiskPerInstrument
    case Currency(_) => s.maxRiskPerCurrency
  }

  /** The cycle budget alone ignores what was open before. */
  function Used(open: Ledger, cycle: Ledger, a: Account): real {
    (if a.Cycle? then 0.0 else Value(open, a)) + Value(cycle, a)
  }

  function Room(s: Settings, open: Ledger, cycle: Ledger, a: Account): real {
    Max(Limit(s, a) - Used(open, cycle, a), 0.0)
  }

  function CurrencyAccounts(codes: seq<string>): (r: seq<Account>)
    ensures |r| == |codes| && forall i :: 0 <= i < |r| ==> r[i] == Currency(codes[i])
  {
    seq(|codes|, i requires 0 <= i < |codes| => Currency(codes[i]))
  }

  function Accounts(p: Plan): seq<Account> {
    [Portfolio, Cycle, Strategy(p.strategy), Family(p.family), Instrument(p.instrument)]
    + CurrencyAccounts(p.currencies)
  }

  /** The first account with the least room, as `min` over the budget items finds it. */
  function Tightest(s: Settings, open: Ledger, cycle: Ledger, accounts: seq<Account>): (a: Account)
    requires accounts != []
    ensures a in accounts
    ensures forall b :: b in accounts ==> Room(s, open, cycle, a) <= Room(s, open, cycle, b)
  {
    var first := accounts[0];
    if |accounts| == 1 then first
    else
      var rest := Tightest(s, open, cycle, accounts[1..]);
      if Room(s, open, cycle, first) <= Room(s, open, cycle, rest) then first else rest
  }

  function Label(a: Account): Budget {
    match a
    case Portfolio => PortfolioRisk
    case Cycle => CycleRisk
    case Strategy(_) => StrategyRisk
    case Family(_) => FamilyRisk
    case Instrument(_) => InstrumentRisk
    case Currency(code) => CurrencyRisk(code)
  }

  function Binding(s: Settings, p: Plan, open: Ledger, cycle: Ledger): Account {
    Tightest(s, open, cycle, Accounts(p))
  }

  function Available(s: Settings, p: Plan, open: Ledger, cycle: Ledger): real {
    Room(s, open, cycle, Binding(s, p, open, cycle))
  }

  function GrossRoom(s: Settings, equity: real, open: Ledger, cycle: Ledger): (room: real)
    ensures room >= 0.0
  {
    Max(equity * (s.maxGrossExposurePercent / 100.0) - (open.gross + cycle.gross), 0.0)
  }

  /* ----- Sizing ----- */

  /** A size with the risk percent and the risk money that go with it. */
  datatype Quantity = Quantity(size: real, risk: real, amount: real)

  datatype Fit = Fits(quantity: Quantity) | Refused(reason: Reason)

  function Notional(size: real, price: real): real { Abs(size * price) }

  function ScaledSize(p: Plan, allocatable: real): real {
    p.requestedSize * (if p.requestedRisk > 0.0 then allocatable / p.requestedRisk else 0.0)
  }

  function CappedNotional(s: Settings, rawNotional: real, grossRoom: real): real {
    Min(Min(rawNotional, s.maxPositionNotional), grossRoom)
  }

  function Capped(p: Plan, allocatable: real, rawSize: real, rawNotional: real, notional: real): Quantity {
    var size := if rawNotional > 0.0 then rawSize * (notional / rawNotional) else rawSize;
    var risk := if rawSize > 0.0 then allocatable * (size / rawSize) else allocatable;
    var amount := if p.requestedRisk > 0.0 then p.riskAmount * (risk / p.requestedRisk) else 0.0;
    Quantity(size, risk, amount)
  }

  function Resized(q: Quantity, size: real): Quantity {
    var ratio := size / Max(q.size, TINY);
    Quantity(size, q.risk * ratio, q.amount * ratio)
  }

  function Tolerance(s: Settings): real { 1.0 + s.roundUpTolerancePercent / 100.0 }

  /** The broker's normalisation, or the minimum order when that stays within the tolerance
      and within the hard limit. The quantity is the one before the final rounding. */
  function FitToBroker(s: Settings, d: Details, q: Quantity, hardLimit: real): Fit {
    match NormalizeOrderSize(d, q.size)
    case Normalized(size) => Fits(Resized(q, size))
    case RoundedToZero => Refused(SizeRoundedToZero)
    case BelowMinimum(_) =>
      var up := Resized(q, MinimumOrder(d));
      if up.risk <= q.risk * Tolerance(s) && up.risk <= hardLimit then Fits(up)
      else Refused(BelowMinSize)
  }

  /* ----- The decision ----- */

  function Reject(p: Plan, reason: Reason, binding: Option<Budget>): Decision {
    Decision(p.id, UNASSIGNED, false, reason, p.requestedRisk, 0.0, 0.0, 0.0, binding)
  }

  /** A raw size under the notional caps. */
  function CapSize(s: Settings, p: Plan, allocatable: real, rawSize: real, rawNotional: real, grossRoom: real): Fit {
    if rawSize <= 0.0 || rawNotional <= 0.0 then Refused(SizeZero)
    else
      var notional := CappedNotional(s, rawNotional, grossRoom);
      var q := Capped(p, allocatable, rawSize, rawNotional, notional);
      if q.size <= 0.0 || notional <= 0.0 then Refused(GrossExposureLimit) else Fits(q)
  }

  /** The risk granted by the budgets, turned into a capped size. */
  function CappedOffer(s: Settings, p: Plan, allocatable: real, grossRoom: real): Fit {
    var rawSize := ScaledSize(p, allocatable);
    CapSize(s, p, allocatable, rawSize, Notional(rawSize, p.entryPrice), grossRoom)
  }

  /** The quantity offered once every budget is respected, or the reason there is none. */
  function Offer(s: Settings, p: Plan, open: Ledger, cycle: Ledger): Fit {
    var available := Available(s, p, open, cycle);
    var allocatable := Min(p.requestedRisk, available);
    if allocatable <= 0.0 then Refused(Exhausted(Label(Binding(s, p, open, cycle))))
    else
      match CappedOffer(s, p, allocatable, GrossRoom(s, p.equity, open, cycle))
      case Refused(reason) => Refused(reason)
      case Fits(q) => FitToBroker(s, p.details, q, available)
  }

  function AllocateCandidate(s: Settings, cycleId: string, p: Plan, open: Ledger, cycle: Ledger): Decision {
    if open.positions + cycle.positions >= s.maxOpenPositions then
      Reject(p, PortfolioPositionLimit, Some(OpenPositions))
    else if Count(open.strategyPositions, p.strategy) + Count(cycle.strategyPositions, p.strategy)
            >= s.maxPositionsPerStrategy then
      Reject(p, StrategyPositionLimit, Some(StrategyPositions))
    else if cycle.positions >= s.maxNewPositionsPerCycle then
      Reject(p, CyclePositionLimit, Some(CyclePositions))
    else
      var budget := Label(Binding(s, p, open, cycle));
      match Offer(s, p, open, cycle)
      case Refused(reason) =>
        Reject(p, reason, Some(if reason == GrossExposureLimit then GrossExposure else budget))
      case Fits(q) =>
        Decision(p.id, cycleId, true, Allocated, p.requestedRisk,
                 Round8(q.size), Round6(q.risk), Round6(q.amount), Some(budget))
  }

  function ExposureOf(p: Plan, d: Decision): Exposure {
    Exposure(p.strategy, p.family, p.instrument, p.currencies, d.risk, Notional(d.size, p.entryPrice))
  }

  /** The greedy pass: the plans in order, each against what the earlier ones left. */
  function Spend(s: Settings, cycleId: string, open: Ledger, cycle: Ledger, plans: seq<Plan>)
    : (seq<Decision>, Ledger)
    decreases |plans|
  {
    if plans == [] then ([], cycle)
    else
      var d := AllocateCandidate(s, cycleId, plans[0], open, cycle);
      var rest := Spend(s, cycleId, open, Reserve(cycle, plans[0], d), plans[1..]);
      ([d] + rest.0, rest.1)
  }

  function Reserve(cycle: Ledger, p: Plan, d: Decision): Ledger {
    if d.selected then Charge(cycle, ExposureOf(p, d)) else cycle
  }

  /** A ledger updated in place: the cycle's running selection, or the open book while it is summed. */
  class RunningLedger {
    var ledger: Ledger

    constructor ()
      ensures ledger == EMPTY
    {
      ledger := EMPTY;
    }

    method Add(e: Exposure)
      modifies this
      ensures ledger == Charge(old(ledger), e)
    {
      ledger := ledger.(
        positions := ledger.positions + 1,
        total := ledger.total + e.risk,
        gross := ledger.gross + e.notional,
        strategyPositions := ledger.strategyPositions[e.strategy := Count(ledger.strategyPositions, e.strategy) + 1]);
      ledger := ledger.(
        strategy := ledger.strategy[e.strategy := Read(ledger.strategy, e.strategy) + e.risk],
        family := ledger.family[e.family := Read(ledger.family, e.family) + e.risk],
        instrument := ledger.instrument[e.instrument := Read(ledger.instrument, e.instrument) + e.risk]);
      var part, currency := Part(e), ledger.currency;
      for i := 0 to |e.currencies|
        invariant ledger == old(Charge(ledger, e)).(currency := old(ledger).currency)
        invariant AddEach(old(ledger).currency, e.currencies, part) == AddEach(currency, e.currencies[i..], part)
      {
        currency := currency[e.currencies[i] := Read(currency, e.currencies[i]) + part];
      }
      ledger := ledger.(currency := currency);
    }
  }
}
