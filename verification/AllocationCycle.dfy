/** A whole allocation cycle: candidates are screened into plans, the plans compete, the
    survivors spend the budgets, and the outcome is counted. */
module AllocationCycle {
  import opened Basics
  import opened IgSizing
  import opened Allocator
  import opened PlanSelection

  datatype Precision = Exact | Approximate | Unsupported

  datatype Quote = Quote(available: bool, precision: Precision, entryPrice: real, riskAmount: real, requestedSize: real)

  /** Answers of the broker, which this model does not compute. */
  datatype FundsRead = FundsFailed | FundsRead(equity: real)
  datatype MarketRead =
    | MarketFailed
    | MarketRead(details: Details, currencies: Option<(string, string)>, quote: Quote)

  datatype Signal =
    | NonEntry
    | Entry(direction: Direction, ageSeconds: real, riskPercent: Option<real>)

  datatype Candidate = Candidate(
    strategy: string, family: Option<string>, instrument: string, score: real, live: bool,
    signal: Signal, funds: FundsRead, market: MarketRead)

  /* ----- Screening ----- */

  function RequestedRisk(s: Settings, riskPercent: Option<real>): real {
    Max(if riskPercent.None? || riskPercent.value == 0.0 then s.defaultRiskPercent else riskPercent.value, 0.0)
  }

  /** No risk is asked for exactly when the signal carries a negative percent. */
  lemma NothingAskedIff(s: Settings, riskPercent: Option<real>)
    requires s.Valid()
    ensures RequestedRisk(s, riskPercent) == 0.0 <==> riskPercent.Some? && riskPercent.value < 0.0
  {
  }

  /** An absent or empty name falls back to another. */
  function NameOr(name: Option<string>, fallback: string): string {
    if name.None? || name.value == "" then fallback else name.value
  }

  function FamilyName(c: Candidate): string { NameOr(c.family, c.strategy) }

  /** The broker's currency pair if it gave one, else the catalogue's, else none. */
  function CurrencyBuckets(catalogue: map<string, seq<string>>, instrument: string,
                           pair: Option<(string, string)>): seq<string> {
    if pair.Some? then [pair.value.0, pair.value.1]
    else if instrument in catalogue then catalogue[instrument]
    else []
  }

  datatype Screened = Decided(decision: Decision) | Planned(plan: Plan)

  function ScreenOne(s: Settings, catalogue: map<string, seq<string>>, cycleId: string, id: nat,
      c: Candidate): Screened {
    match c.signal
    case NonEntry => Decided(Decision(id, cycleId, true, NonEntryPassthrough, 0.0, 0.0, 0.0, 0.0, None))
    case Entry(direction, age, riskPercent) =>
      var risk := RequestedRisk(s, riskPercent);
      if age > s.staleAfterSeconds then Refuse(id, StaleSignal, risk)
      else if c.funds.FundsFailed? then Refuse(id, AccountEquityUnavailable, risk)
      else if c.funds.equity <= 0.0 then Refuse(id, AccountEquityInvalid, risk)
      else
        match c.market
        case MarketFailed => Refuse(id, BrokerMetadataUnavailable, risk)
        case MarketRead(details, pair, quote) =>
          if !quote.available || quote.precision.Unsupported? then Refuse(id, SizingQuoteUnavailable, risk)
          else if quote.precision.Approximate? && c.live then Refuse(id, ApproximateSizingUnsupported, risk)
          else Planned(Plan(
            id, c.strategy, FamilyName(c), c.instrument, direction, risk, Max(quote.requestedSize, 0.0),
            quote.riskAmount, c.funds.equity, quote.entryPrice, c.score, details,
            CurrencyBuckets(catalogue, c.instrument, pair)))
  }

  function Refuse(id: nat, reason: Reason, risk: real): Screened {
    Decided(Decision(id, UNASSIGNED, false, reason, risk, 0.0, 0.0, 0.0, None))
  }

  /** The decisions and the plans that screening the candidates in turn produces. */
  function Screen(s: Settings, catalogue: map<string, seq<string>>, cycleId: string, cs: seq<Candidate>)
    : (seq<Decision>, seq<Plan>)
  {
    if cs == [] then ([], [])
    else
      var n := |cs| - 1;
      Collect(Screen(s, catalogue, cycleId, cs[..n]), ScreenOne(s, catalogue, cycleId, n, cs[n]))
  }

  function Collect(earlier: (seq<Decision>, seq<Plan>), r: Screened): (seq<Decision>, seq<Plan>) {
    match r
    case Decided(d) => (earlier.0 + [d], earlier.1)
    case Planned(p) => (earlier.0, earlier.1 + [p])
  }

  /** A fresh entry signal with positive equity, market details and a usable quote. */
  predicate Plannable(s: Settings, c: Candidate) {
    && c.signal.Entry? && c.signal.ageSeconds <= s.staleAfterSeconds
    && c.funds.FundsRead? && c.funds.equity > 0.0
    && c.market.MarketRead? && c.market.quote.available
    && (c.market.quote.precision.Exact? || (c.market.quote.precision.Approximate? && !c.live))
  }

  lemma PlannedIff(s: Settings, catalogue: map<string, seq<string>>, cycleId: string, id: nat, c: Candidate)
    ensures ScreenOne(s, catalogue, cycleId, id, c).Planned? <==> Plannable(s, c)
    ensures Plannable(s, c) && s.Valid() ==> PlanOf(s, catalogue, ScreenOne(s, catalogue, cycleId, id, c).plan, id, c)
  {
  }

  /** The plan carries its candidate's names, direction and score, asks for the signal's percent, and brings
      the account's equity and the broker's quote and details. */
  predicate PlanOf(s: Settings, catalogue: map<string, seq<string>>, p: Plan, id: nat, c: Candidate) {
    && p.id == id && p.strategy == c.strategy && p.instrument == c.instrument && p.score == c.score
    && p.family == (if c.family == None || c.family == Some("") then c.strategy else c.family.value)
    && c.signal.Entry? && p.direction == c.signal.direction && AsksFor(s, c.signal.riskPercent, p.requestedRisk)
    && c.funds == FundsRead(p.equity)
    && c.market.MarketRead? && p.details == c.market.details
    && p.riskAmount == c.market.quote.riskAmount && p.entryPrice == c.market.quote.entryPrice
    && p.requestedSize == (if c.market.quote.requestedSize > 0.0 then c.market.quote.requestedSize else 0.0)
    && (match c.market.currencies
        case Some((base, quoted)) => p.currencies == [base, quoted]
        case None => p.currencies == if c.instrument in catalogue then catalogue[c.instrument] else [])
  }

  /** The signal's percent, the default for one that is absent or zero, and nothing for a negative one. */
  predicate AsksFor(s: Settings, riskPercent: Option<real>, asked: real) {
    match riskPercent
    case None => asked == s.defaultRiskPercent
    case Some(percent) =>
      if percent > 0.0 then asked == percent else if percent < 0.0 then asked == 0.0 else asked == s.defaultRiskPercent
  }

  function PlannableIds(s: Settings, cs: seq<Candidate>): (ids: seq<nat>)
    ensures forall i :: 0 <= i < |ids| ==> ids[i] < |cs|
  {
    if cs == [] then []
    else
      var n := |cs| - 1;
      PlannableIds(s, cs[..n]) + (if Plannable(s, cs[n]) then [n] else [])
  }

  lemma {:induction false} PlannableIdsAre(s: Settings, cs: seq<Candidate>)
    ensures forall i, j :: 0 <= i < j < |PlannableIds(s, cs)| ==> PlannableIds(s, cs)[i] < PlannableIds(s, cs)[j]
    ensures forall c: nat :: c in PlannableIds(s, cs) <==> c < |cs| && Plannable(s, cs[c])
  {
    if cs != [] {
      hide Plannable;
      var n := |cs| - 1;
      PlannableIdsAre(s, cs[..n]);
      forall c: nat ensures c in PlannableIds(s, cs) <==> c < |cs| && Plannable(s, cs[c]) {
        assert c < n ==> cs[..n][c] == cs[c];
      }
    }
  }

  /** The plans of a cycle are those of its plannable candidates, in order, each once. */
  lemma {:induction false} PlansOfPlannable(s: Settings, catalogue: map<string, seq<string>>, cycleId: string,
                                            cs: seq<Candidate>)
    requires s.Valid()
    ensures forall c: nat :: c in PlannableIds(s, cs) <==> c < |cs| && Plannable(s, cs[c])
    ensures |Screen(s, catalogue, cycleId, cs).1| == |PlannableIds(s, cs)|
    ensures forall i :: 0 <= i < |PlannableIds(s, cs)| ==>
              var id := PlannableIds(s, cs)[i];
              PlanOf(s, catalogue, Screen(s, catalogue, cycleId, cs).1[i], id, cs[id])
  {
    PlannableIdsAre(s, cs);
    if cs != [] {
      var n := |cs| - 1;
      PlansOfPlannable(s, catalogue, cycleId, cs[..n]);
      PlannedIff(s, catalogue, cycleId, n, cs[n]);
      hide ScreenOne, Plannable, PlanOf;
    }
  }

  /** What every plan brings: equity, nothing negative asked for, and a family name that survives
      being read back. */
  ghost predicate WellFormed(p: Plan) {
    && p.equity > 0.0 && p.requestedRisk >= 0.0 && p.requestedSize >= 0.0
    && (p.family != "" || p.strategy == "")
  }

  lemma {:induction false} ScreenedAreWellFormed(s: Settings, catalogue: map<string, seq<string>>, cycleId: string,
                                                 cs: seq<Candidate>)
    ensures forall i :: 0 <= i < |Screen(s, catalogue, cycleId, cs).1| ==>
        WellFormed(Screen(s, catalogue, cycleId, cs).1[i])
  {
    if cs != [] {
      ScreenedAreWellFormed(s, catalogue, cycleId, cs[..|cs| - 1]);
      OneWellFormed(s, catalogue, cycleId, |cs| - 1, cs[|cs| - 1]);
      hide ScreenOne, WellFormed;
    }
  }

  lemma OneWellFormed(s: Settings, catalogue: map<string, seq<string>>, cycleId: string, id: nat, c: Candidate)
    ensures
      var r := ScreenOne(s, catalogue, cycleId, id, c);
      r.Planned? ==> WellFormed(r.plan)
  {
  }

  /** The plans that reach the budgets are well formed, whatever the broker answered. */
  lemma ContendersAreWellFormed(s: Settings, catalogue: map<string, seq<string>>, cycleId: string, cs: seq<Candidate>)
    ensures forall p :: p in Contenders(s, catalogue, cycleId, cs) ==> WellFormed(p)
  {
    var plans := Screen(s, catalogue, cycleId, cs).1;
    ScreenedAreWellFormed(s, catalogue, cycleId, cs);
    SurvivorsAreBest(plans);
    hide WellFormed, Screen, OnePass;
    forall p | p in Contenders(s, catalogue, cycleId, cs) ensures WellFormed(p) {
      assert p in plans;
    }
  }

  /* ----- The cycle ----- */

  function Assign(cycleId: string, d: Decision): Decision {
    if d.cycleId == UNASSIGNED then d.(cycleId := cycleId) else d
  }

  function AssignAll(cycleId: string, ds: seq<Decision>): (r: seq<Decision>)
    ensures |r| == |ds|
    ensures forall i :: 0 <= i < |r| ==> r[i] == Assign(cycleId, ds[i])
  {
    seq(|ds|, i requires 0 <= i < |ds| => Assign(cycleId, ds[i]))
  }

  /** All decisions in the order in which they are made, before the cycle id is filled in. */
  function RawOutcome(s: Settings, catalogue: map<string, seq<string>>, cycleId: string, open: Ledger,
                      cs: seq<Candidate>): (seq<Decision>, Ledger) {
    var screened := Screen(s, catalogue, cycleId, cs);
    var kept := FirstOf(SignalOf, Ranked(screened.1));
    var spent := Spend(s, cycleId, open, EMPTY, OnePass(screened.1));
    (screened.0
     + RejectAll(RestOf(SignalOf, Ranked(screened.1)), WeakerDuplicate)
     + RejectAll(ConflictLosers(kept), DirectionConflict)
     + spent.0,
     spent.1)
  }

  /** The candidates that reach the budgets, in the order in which they spend them. */
  function Contenders(s: Settings, catalogue: map<string, seq<string>>, cycleId: string,
                      cs: seq<Candidate>): seq<Plan> {
    OnePass(Screen(s, catalogue, cycleId, cs).1)
  }

  method ScreenAll(s: Settings, catalogue: map<string, seq<string>>, cycleId: string, cs: seq<Candidate>)
    returns (decisions: seq<Decision>, plans: seq<Plan>)
    ensures (decisions, plans) == Screen(s, catalogue, cycleId, cs)
  {
    decisions, plans := [], [];
    for n := 0 to |cs|
      invariant (decisions, plans) == Screen(s, catalogue, cycleId, cs[..n])
    {
      assert cs[..n + 1][..n] == cs[..n];
      match ScreenOne(s, catalogue, cycleId, n, cs[n])
      case Decided(d) => decisions := decisions + [d];
      case Planned(p) => plans := plans + [p];
    }
    assert cs[..|cs|] == cs;
  }

  method SpendAll(s: Settings, cycleId: string, open: Ledger, state: RunningLedger,
                  plans: seq<Plan>, earlier: seq<Decision>)
    returns (decisions: seq<Decision>)
    modifies state
    ensures decisions == earlier + Spend(s, cycleId, open, old(state.ledger), plans).0
    ensures state.ledger == Spend(s, cycleId, open, old(state.ledger), plans).1
  {
    hide AllocateCandidate, Charge;
    decisions := earlier;
    ghost var all := Spend(s, cycleId, open, state.ledger, plans);
    for n := 0 to |plans|
      invariant earlier + all.0 == decisions + Spend(s, cycleId, open, state.ledger, plans[n..]).0
      invariant all.1 == Spend(s, cycleId, open, state.ledger, plans[n..]).1
    {
      ghost var rest := plans[n..];
      assert rest[0] == plans[n] && rest[1..] == plans[n + 1..];
      var d := AllocateCandidate(s, cycleId, plans[n], open, state.ledger);
      decisions := decisions + [d];
      if d.selected {
        state.Add(ExposureOf(plans[n], d));
      }
    }
  }

  method Allocate(s: Settings, catalogue: map<string, seq<string>>, cycleId: string, open: Ledger, cs: seq<Candidate>)
    returns (decisions: seq<Decision>, state: RunningLedger)
    ensures fresh(state)
    ensures cs == [] ==> decisions == [] && state.ledger == EMPTY
    ensures cs != [] ==> decisions == AssignAll(cycleId, RawOutcome(s, catalogue, cycleId, open, cs).0)
    ensures cs != [] ==> state.ledger == RawOutcome(s, catalogue, cycleId, open, cs).1
  {
    state := new RunningLedger();
    if cs == [] {
      return [], state;
    }
    hide FirstOf, RestOf, Ranked, ConflictLosers, Spend, Screen;
    var plans;
    decisions, plans := ScreenAll(s, catalogue, cycleId, cs);
    SuppressedIsSorted(plans);
    TwoStagesAreOnePass(plans);
    LaterSortIsNoOp(plans);
    var contenders;
    contenders, decisions := SuppressWeakerDuplicates(plans, decisions);
    contenders, decisions := ResolveDirectionConflicts(contenders, decisions);
    decisions := SpendAll(s, cycleId, open, state, Ranked(contenders), decisions);
    var raw := decisions;
    for i := 0 to |raw|
      invariant |decisions| == |raw|
      invariant forall j :: 0 <= j < |raw| ==> decisions[j] == if j < i then Assign(cycleId, raw[j]) else raw[j]
    {
      if decisions[i].cycleId == UNASSIGNED {
        decisions := decisions[i := decisions[i].(cycleId := cycleId)];
      }
    }
  }
}
