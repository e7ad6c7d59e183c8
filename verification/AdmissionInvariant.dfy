/** What every interleaving of the workers keeps: with one lock, the book is never above both its initial
    weight and its cap by more than what entered it otherwise and what the workers missed of it. */
module AdmissionInvariant {
  import opened Basics
  import opened Rounding
  import opened Allocator
  import opened BudgetBounds
  import opened OpenBook
  import opened StoredBook
  import opened AdmissionProtocol

  /* ----- Taking an intent out of the listing ----- */

  /** What an intent contributes to the sum over the counted ones. */
  function CountedWeight(c: Setting, held: set<nat>, i: Intent): real {
    if Counted(held, i) then IntentWeight(c.catalogue, i, c.g) else 0.0
  }

  lemma {:induction false} LinkedSum(c: Setting, held: set<nat>, intents: seq<Intent>, at: nat, id: nat)
    requires at < |intents|
    ensures IntentSum(c.catalogue, held, intents[at := Linked(intents[at], id)], c.g)
         == IntentSum(c.catalogue, held, intents, c.g) - CountedWeight(c, held, intents[at])
  {
    hide Weight, IntentExposure;
    var n, after := |intents| - 1, intents[at := Linked(intents[at], id)];
    if at == n {
      assert after[..n] == intents[..n];
    } else {
      assert after[..n] == intents[..n][at := Linked(intents[at], id)];
      LinkedSum(c, held, intents[..n], at, id);
    }
  }

  lemma {:induction false} WithoutSum(c: Setting, held: set<nat>, intents: seq<Intent>, at: nat)
    requires at < |intents|
    ensures IntentSum(c.catalogue, held, Without(intents, at), c.g)
         == IntentSum(c.catalogue, held, intents, c.g) - CountedWeight(c, held, intents[at])
  {
    hide Weight, IntentExposure, Counted;
    var n := |intents| - 1;
    WithoutSnoc(intents, at);
    hide Without;
    if at < n {
      WithoutSum(c, held, intents[..n], at);
    }
  }

  lemma WithoutSnoc<T>(xs: seq<T>, at: nat)
    requires at < |xs|
    ensures
      var n, rest := |xs| - 1, Without(xs, at);
      if at == n then rest == xs[..n]
      else |rest| == n && rest[n - 1] == xs[n] && rest[..n - 1] == Without(xs[..n], at)
  {
  }

  /** Settling or withdrawing an intent lowers the sum over any set of held ids by its weight there. */
  ghost predicate TakesOut(c: Setting, before: seq<Intent>, after: seq<Intent>, at: nat) {
    && at < |before|
    && NonNegativeIntents(c.catalogue, after)
    && forall held :: IntentSum(c.catalogue, held, after, c.g)
                   == IntentSum(c.catalogue, held, before, c.g) - CountedWeight(c, held, before[at])
  }

  lemma SettleTakesOut(c: Setting, intents: seq<Intent>, at: nat, id: nat)
    requires at < |intents| && NonNegativeIntents(c.catalogue, intents)
    ensures TakesOut(c, intents, intents[at := Linked(intents[at], id)], at)
  {
    forall held {
      LinkedSum(c, held, intents, at, id);
    }
    assert IntentExposure(c.catalogue, Linked(intents[at], id)) == IntentExposure(c.catalogue, intents[at]);
  }

  lemma LeaveTakesOut(c: Setting, intents: seq<Intent>, at: nat)
    requires at < |intents| && NonNegativeIntents(c.catalogue, intents)
    ensures TakesOut(c, intents, Without(intents, at), at)
  {
    forall held {
      WithoutSum(c, held, intents, at);
    }
  }

  /** The sum does not depend on which row is the most recent one. */
  lemma TouchKeepsSum(c: Setting, held: set<nat>, intents: seq<Intent>, at: nat)
    requires at < |intents|
    ensures IntentSum(c.catalogue, held, Without(intents, at) + [intents[at]], c.g)
         == IntentSum(c.catalogue, held, intents, c.g)
  {
    WithoutSum(c, held, intents, at);
    hide Weight, IntentExposure, Counted, Without;
    var rest := Without(intents, at);
    assert (rest + [intents[at]])[..|rest|] == rest;
  }

  /* ----- The invariant ----- */

  /** What a gauge is limited to over many cycles. */
  function Cap(s: Settings, g: Gauge, factor: real): real {
    match g
    case Risk(a) => factor * Limit(s, a) + HALF_MICRO
    case Positions => s.maxOpenPositions as real
    case StrategyPositions(_) => s.maxPositionsPerStrategy as real
  }

  function CapOf(c: Setting): real { Cap(c.s, c.g, c.factor) }

  /** The cycle budget starts afresh in every cycle and is no property of the book. */
  ghost predicate BookGauge(g: Gauge) { g.Risk? ==> !g.account.Cycle? }

  /** What all theorems assume of the settings. */
  ghost predicate Governed(c: Setting) { c.s.Valid() && BookGauge(c.g) && c.factor >= 1.0 }

  /** No two workers are past their lock together. */
  ghost predicate Exclusive(x: World) {
    forall v, w :: 0 <= v < w < |x.workers| ==> x.workers[v].Idle? || x.workers[w].Idle?
  }

  ghost predicate HoldsLocks(dep: Deployment, x: World) {
    && |x.workers| == |dep.processes|
    && (forall w :: 0 <= w < |x.workers| && !x.workers[w].Idle? ==>
          LockOf(dep, w) in x.holders && x.holders[LockOf(dep, w)] == w)
  }

  ghost predicate NonNegativePositions(catalogue: Catalogue, positions: seq<Position>) {
    forall i :: 0 <= i < |positions| ==> PositionExposure(catalogue, positions[i]).risk >= 0.0
  }

  ghost predicate Sound(grants: seq<Grant>) {
    forall i :: 0 <= i < |grants| ==> grants[i].decision.risk >= 0.0 && grants[i].plan.requestedRisk > 0.0
  }

  /** What a worker's two queries would weigh together if the second one were made now and left nothing out. */
  function SeenWeight(c: Setting, b: Book, pc: Pc): real {
    BookSum(c.catalogue, PositionsSeen(b, pc), IntentsSeen(b, pc), c.g)
  }

  /** Any ids being held, the intents of the book weigh no more than the ones read before. */
  ghost predicate Dominates(c: Setting, read: seq<Intent>, now: seq<Intent>) {
    forall held :: IntentSum(c.catalogue, held, now, c.g) <= IntentSum(c.catalogue, held, read, c.g)
  }

  /** The book, less a slack, never weighs more than a worker believes; what a worker still has to store
      fits under the bound. */
  ghost predicate WorkerBounded(c: Setting, bound: real, b: Book, slack: real, pc: Pc) {
    match pc
    case Idle => true
    case Locked => true
    case PositionsRead(positions) =>
      NonNegativePositions(c.catalogue, positions) && BookWeight(c, b) - slack <= SeenWeight(c, b, pc)
    case IntentsRead(intents) => NonNegativeIntents(c.catalogue, intents) && Dominates(c, intents, b.intents)
    case Rebuilt(open) => Gauged(open, c.g) >= 0.0 && BookWeight(c, b) - slack <= Gauged(open, c.g)
    case Storing(pending) => Sound(pending) && BookWeight(c, b) + GrantSum(pending, c.g) <= bound + slack
  }

  ghost predicate AllBounded(c: Setting, bound: real, b: Book, slack: real, workers: seq<Pc>) {
    forall w :: 0 <= w < |workers| ==> WorkerBounded(c, bound, b, slack, workers[w])
  }

  /** By how much the book may be above the bound. */
  function Slack(x: World): real { x.drift + x.missed }

  ghost predicate Invariant(c: Setting, dep: Deployment, bound: real, x: World) {
    && HoldsLocks(dep, x)
    && NonNegative(c.catalogue, x.book)
    && x.drift >= 0.0 && x.missed >= 0.0 && BookWeight(c, x.book) <= bound + Slack(x)
    && AllBounded(c, bound, x.book, Slack(x), x.workers)
  }

  lemma OneHolder(dep: Deployment, x: World)
    requires OneLock(dep) && HoldsLocks(dep, x)
    ensures Exclusive(x)
  {
  }

  lemma LaterBounded(c: Setting, bound: real, b: Book, slack: real, later: real, pc: Pc)
    requires slack <= later && WorkerBounded(c, bound, b, slack, pc)
    ensures WorkerBounded(c, bound, b, later, pc)
  {
    hide BookWeight, SeenWeight, GrantSum, Gauged, Dominates, NonNegativePositions, NonNegativeIntents, Sound;
  }

  /** A change of one worker's own state, by which it may miss something. */
  lemma WorkerMoves(c: Setting, dep: Deployment, bound: real, x: World, w: nat, pc: Pc, y: World)
    requires Invariant(c, dep, bound, x) && w < |x.workers| && y.missed >= x.missed
    requires y == x.(workers := x.workers[w := pc], holders := y.holders, missed := y.missed)
    requires WorkerBounded(c, bound, x.book, Slack(y), pc) && HoldsLocks(dep, y)
    ensures Invariant(c, dep, bound, y)
  {
    hide HoldsLocks, WorkerBounded, NonNegative, BookWeight;
    forall v | 0 <= v < |y.workers| ensures WorkerBounded(c, bound, y.book, Slack(y), y.workers[v]) {
      if v != w {
        LaterBounded(c, bound, x.book, Slack(x), Slack(y), x.workers[v]);
      }
    }
  }

  /** The same for a worker that keeps its lock. */
  lemma Moved(c: Setting, dep: Deployment, bound: real, x: World, w: nat, pc: Pc, y: World)
    requires Invariant(c, dep, bound, x) && w < |x.workers| && !x.workers[w].Idle? && y.missed >= x.missed
    requires y == x.(workers := x.workers[w := pc], missed := y.missed)
    requires WorkerBounded(c, bound, x.book, Slack(y), pc)
    ensures Invariant(c, dep, bound, y)
  {
    hide WorkerBounded;
    assert HoldsLocks(dep, y);
    WorkerMoves(c, dep, bound, x, w, pc, y);
  }

  /* ----- Steps of a worker ----- */

  lemma GrantSumNonNegative(grants: seq<Grant>, g: Gauge)
    requires Sound(grants)
    ensures GrantSum(grants, g) >= 0.0
  {
    if grants != [] {
      hide Weight;
      WeightNonNegative(ExposureOf(grants[0].plan, grants[0].decision), g);
      GrantSumNonNegative(grants[1..], g);
    }
  }

  /** A cycle run on an open state leaves every gauge at its value or its cap. */
  lemma CycleWithinCap(s: Settings, cycleId: string, open: Ledger, plans: seq<Plan>, g: Gauge, factor: real)
    requires s.Valid() && BookGauge(g) && AllLiftedBy(plans, factor) && Gauged(open, g) >= 0.0
    ensures Gauged(open, g) + GrantSum(Grants(s, cycleId, open, EMPTY, plans), g)
         <= Max(Gauged(open, g), Cap(s, g, factor))
  {
    hide Grants, AllLiftedBy, GrantSum, Spend, Value, Limit, Count;
    GrantsWeighCycle(s, cycleId, open, EMPTY, plans, g);
    GaugedEmpty(g);
    match g {
      case Risk(a) => CycleKeepsBudget(s, cycleId, open, EMPTY, plans, factor, a);
      case Positions => CountsWithinCap(s, cycleId, open, plans, g, "");
      case StrategyPositions(n) => CountsWithinCap(s, cycleId, open, plans, g, n);
    }
  }

  lemma CountsWithinCap(s: Settings, cycleId: string, open: Ledger, plans: seq<Plan>, g: Gauge, name: string)
    requires g == Gauge.Positions || g == Gauge.StrategyPositions(name)
    ensures Gauged(open, g) + Gauged(Spend(s, cycleId, open, EMPTY, plans).1, g) <= Max(Gauged(open, g), Cap(s, g, 1.0))
  {
    hide Spend;
    CycleKeepsCounts(s, cycleId, open, EMPTY, plans, name);
    assert Count(EMPTY.strategyPositions, name) == 0;
  }

  /** Grants ask for risk and are given no negative one. */
  lemma {:induction false} GrantsSound(s: Settings, cycleId: string, open: Ledger, cycle: Ledger, plans: seq<Plan>)
    requires s.Valid()
    decreases |plans|
    ensures Sound(Grants(s, cycleId, open, cycle, plans))
  {
    if plans != [] {
      var p := plans[0];
      var d := AllocateCandidate(s, cycleId, p, open, cycle);
      if d.selected {
        SelectedSound(s, cycleId, p, open, cycle);
      }
      hide AllocateCandidate, Reserve;
      GrantsSound(s, cycleId, open, Reserve(cycle, p, d), plans[1..]);
    }
  }

  lemma SelectedSound(s: Settings, cycleId: string, p: Plan, open: Ledger, cycle: Ledger)
    requires s.Valid() && AllocateCandidate(s, cycleId, p, open, cycle).selected
    ensures AllocateCandidate(s, cycleId, p, open, cycle).risk >= 0.0 && p.requestedRisk > 0.0
  {
    LiftAtMostTwo(p);
    OfferWithin(s, p, open, cycle, 2.0);
    hide CappedOffer, FitToBroker, Available, Binding;
    Round6NonNegative(Offer(s, p, open, cycle).quantity.risk);
  }

  lemma LiftAtMostTwo(p: Plan)
    ensures LiftedBy(p.details, 2.0)
  {
  }

  lemma LockStep(c: Setting, dep: Deployment, bound: real, x: World, step: Step)
    requires OneLock(dep) && Invariant(c, dep, bound, x) && Enabled(dep, c.factor, x, step)
    requires step.Acquire? || step.Release?
    ensures Invariant(c, dep, bound, Next(c, dep, x, step))
  {
    OneHolder(dep, x);
    var w, y := step.w, Next(c, dep, x, step);
    var pc := if step.Acquire? then Locked else Idle;
    NextOfWorker(c, dep, x, step, w, pc);
    hide Next, NonNegative, AllBounded, BookWeight;
    assert HoldsLocks(dep, y);
    WorkerMoves(c, dep, bound, x, w, pc, y);
  }

  lemma FirstStep(c: Setting, dep: Deployment, bound: real, x: World, step: Step)
    requires Invariant(c, dep, bound, x) && Enabled(dep, c.factor, x, step) && step.ReadFirst?
    ensures Invariant(c, dep, bound, Next(c, dep, x, step))
  {
    var pc := if dep.intentsFirst then IntentsRead(x.book.intents) else PositionsRead(x.book.positions);
    NextOfWorker(c, dep, x, step, step.w, pc);
    hide Next, HoldsLocks, AllBounded;
    Moved(c, dep, bound, x, step.w, pc, Next(c, dep, x, step));
  }

  /** Before its second query a worker would see at least the book, less the slack, if nothing were left out. */
  lemma SeesBook(c: Setting, bound: real, b: Book, slack: real, pc: Pc)
    requires NonNegative(c.catalogue, b) && slack >= 0.0 && WorkerBounded(c, bound, b, slack, pc)
    requires pc.PositionsRead? || pc.IntentsRead?
    ensures NonNegativePositions(c.catalogue, PositionsSeen(b, pc))
    ensures NonNegativeIntents(c.catalogue, IntentsSeen(b, pc))
    ensures BookWeight(c, b) - slack <= SeenWeight(c, b, pc)
  {
    hide IntentExposure, PositionExposure;
  }

  /** The open state then reads what was seen, less what the listing left out. */
  lemma OpenReads(c: Setting, b: Book, pc: Pc)
    requires NonNegativePositions(c.catalogue, PositionsSeen(b, pc))
    requires NonNegativeIntents(c.catalogue, IntentsSeen(b, pc))
    ensures Gauged(OpenRead(c, b, pc), c.g) == SeenWeight(c, b, pc) - LeftOut(c, b, pc)
    ensures Gauged(OpenRead(c, b, pc), c.g) >= 0.0 && LeftOut(c, b, pc) >= 0.0
  {
    var positions, intents := PositionsSeen(b, pc), IntentsSeen(b, pc);
    hide PositionExposure, IntentExposure, OpenState, PositionSum, IntentSum, PositionsSeen, IntentsSeen;
    OpenStateWeighsBook(c.catalogue, positions, Listed(intents), c.g);
    ListedSum(c.catalogue, Held(positions), intents, c.g);
    PositionSumNonNegative(c.catalogue, positions, c.g);
    IntentSumNonNegative(c.catalogue, Held(positions), Listed(intents), c.g);
    IntentSumNonNegative(c.catalogue, Held(positions), Unlisted(intents), c.g);
  }

  lemma SecondStep(c: Setting, dep: Deployment, bound: real, x: World, step: Step)
    requires Invariant(c, dep, bound, x) && Enabled(dep, c.factor, x, step) && step.ReadSecond?
    ensures Invariant(c, dep, bound, Next(c, dep, x, step))
  {
    var w, pc := step.w, Rebuilt(OpenRead(c, x.book, x.workers[step.w]));
    SecondBounded(c, dep, bound, x, step);
    assert !x.workers[w].Idle? && x.holders == HoldersAfter(dep, x, step);
    hide Invariant, Next, WorkerBounded, MissedBy, OpenRead, HoldersAfter, Covered, PositionsSeen, IntentsSeen;
    NextOfWorker(c, dep, x, step, w, pc);
    Moved(c, dep, bound, x, w, pc, Next(c, dep, x, step));
  }

  /** With what it has now missed, the worker's open state covers the book. */
  lemma SecondBounded(c: Setting, dep: Deployment, bound: real, x: World, step: Step)
    requires Invariant(c, dep, bound, x) && Enabled(dep, c.factor, x, step) && step.ReadSecond?
    ensures
      var later := x.drift + (x.missed + MissedBy(c, x, step));
      && PcAfter(c, dep, x, step, step.w) == Rebuilt(OpenRead(c, x.book, x.workers[step.w]))
      && MissedBy(c, x, step) >= 0.0
      && WorkerBounded(c, bound, x.book, later, Rebuilt(OpenRead(c, x.book, x.workers[step.w])))
  {
    var pc := x.workers[step.w];
    assert WorkerBounded(c, bound, x.book, Slack(x), pc);
    hide HoldsLocks, AllBounded, BookWeight, SeenWeight, LeftOut, OpenRead, NonNegative, PositionsSeen, IntentsSeen;
    hide Covered;
    SeesBook(c, bound, x.book, Slack(x), pc);
    OpenReads(c, x.book, pc);
  }

  lemma CycleStep(c: Setting, dep: Deployment, bound: real, x: World, step: Step)
    requires Governed(c) && CapOf(c) <= bound
    requires Invariant(c, dep, bound, x) && Enabled(dep, c.factor, x, step) && step.RunCycle?
    ensures Invariant(c, dep, bound, Next(c, dep, x, step))
  {
    var w, open := step.w, x.workers[step.w].open;
    assert WorkerBounded(c, bound, x.book, Slack(x), x.workers[w]);
    CycleWithinCap(c.s, step.cycleId, open, step.plans, c.g, c.factor);
    GrantsSound(c.s, step.cycleId, open, EMPTY, step.plans);
    hide Grants, GrantSum, BookWeight, Gauged, HoldsLocks, Cap, AllBounded, NonNegative, AllLiftedBy;
    var pc := Storing(Grants(c.s, step.cycleId, open, EMPTY, step.plans));
    NextOfWorker(c, dep, x, step, w, pc);
    hide Next;
    Moved(c, dep, bound, x, w, pc, Next(c, dep, x, step));
  }

  lemma SkipStep(c: Setting, dep: Deployment, bound: real, x: World, step: Step)
    requires Invariant(c, dep, bound, x) && Enabled(dep, c.factor, x, step) && step.Skip?
    ensures Invariant(c, dep, bound, Next(c, dep, x, step))
  {
    var w, pending := step.w, x.workers[step.w].pending;
    assert WorkerBounded(c, bound, x.book, Slack(x), x.workers[w]);
    GrantSumNonNegative(pending[..1], c.g);
    hide HoldsLocks, BookWeight, AllBounded, NonNegative;
    NextOfWorker(c, dep, x, step, w, Storing(pending[1..]));
    hide Next;
    Moved(c, dep, bound, x, w, Storing(pending[1..]), Next(c, dep, x, step));
  }

  lemma StoredNonNegative(catalogue: Catalogue, b: Book, grant: Grant, id: nat, price: Option<real>)
    requires NonNegative(catalogue, b) && grant.decision.risk >= 0.0 && grant.plan.requestedRisk >= 0.0
    ensures NonNegative(catalogue, Book(b.positions, b.intents + [StoredIntent(id, price, grant)]))
  {
    hide Notional;
    assert IntentExposure(catalogue, StoredIntent(id, price, grant)).risk >= 0.0;
    hide IntentExposure, StoredIntent;
  }

  /** Storing raises the book, less the slack, by at most the weight of the grant. */
  lemma StoreRaises(c: Setting, dep: Deployment, x: World, step: Step)
    requires Enabled(dep, c.factor, x, step) && step.Store?
    ensures
      var y := Next(c, dep, x, step);
      && y.drift >= x.drift
      && BookWeight(c, y.book) - y.drift
         <= BookWeight(c, x.book) - x.drift + GrantWeight(x.workers[step.w].pending[0], c.g)
  {
    hide BookWeight, GrantWeight, StoredIntent, PcAfter, Owned;
  }

  /** Storing the first pending grant moves its weight from the worker to the book; no other worker is past
      the lock. */
  lemma StoreStep(c: Setting, dep: Deployment, bound: real, x: World, step: Step)
    requires OneLock(dep) && Invariant(c, dep, bound, x) && Enabled(dep, c.factor, x, step) && step.Store?
    ensures Invariant(c, dep, bound, Next(c, dep, x, step))
  {
    var w, pending, y := step.w, x.workers[step.w].pending, Next(c, dep, x, step);
    assert WorkerBounded(c, bound, x.book, Slack(x), x.workers[w]);
    OneHolder(dep, x);
    NextOfStore(c, dep, x, step);
    StoreRaises(c, dep, x, step);
    hide Next, BookWeight, GrantWeight, StoredIntent, NonNegative;
    assert HoldsLocks(dep, y);
    StoredNonNegative(c.catalogue, x.book, pending[0], step.id, step.price);
    GrantSumNonNegative(pending[1..], c.g);
    hide HoldsLocks, Enabled;
    StoreBounded(c, bound, x, y, w, pending);
  }

  lemma StoreBounded(c: Setting, bound: real, x: World, y: World, w: nat, pending: seq<Grant>)
    requires Exclusive(x) && w < |x.workers| && x.workers[w] == Storing(pending) && pending != []
    requires WorkerBounded(c, bound, x.book, Slack(x), x.workers[w]) && y.missed == x.missed
    requires y.workers == x.workers[w := Storing(pending[1..])]
    requires BookWeight(c, y.book) - y.drift <= BookWeight(c, x.book) - x.drift + GrantWeight(pending[0], c.g)
    ensures AllBounded(c, bound, y.book, Slack(y), y.workers)
  {
    hide BookWeight, GrantWeight;
    forall v | 0 <= v < |y.workers| ensures WorkerBounded(c, bound, y.book, Slack(y), y.workers[v]) {
      assert v != w ==> x.workers[v].Idle?;
    }
  }

  /* ----- Changes of the book ----- */

  /** A change of the book that leaves a reading worker at least as well informed. */
  ghost predicate ReadKept(c: Setting, x: World, y: World, pc: Pc) {
    && (pc.PositionsRead? ==>
          BookWeight(c, y.book) - Slack(y) - SeenWeight(c, y.book, pc)
          <= BookWeight(c, x.book) - Slack(x) - SeenWeight(c, x.book, pc))
    && (pc.IntentsRead? && Dominates(c, pc.intents, x.book.intents) ==> Dominates(c, pc.intents, y.book.intents))
  }

  lemma BookMoves(c: Setting, dep: Deployment, bound: real, x: World, y: World)
    requires Invariant(c, dep, bound, x) && y.workers == x.workers && y.holders == x.holders
    requires NonNegative(c.catalogue, y.book) && y.drift >= x.drift && y.missed >= x.missed
    requires BookWeight(c, y.book) - Slack(y) <= BookWeight(c, x.book) - Slack(x)
    requires forall w :: 0 <= w < |x.workers| ==> ReadKept(c, x, y, x.workers[w])
    ensures Invariant(c, dep, bound, y)
  {
    assert HoldsLocks(dep, y);
    hide HoldsLocks, BookWeight, SeenWeight, NonNegative, Dominates, NonNegativePositions, NonNegativeIntents;
    forall w | 0 <= w < |x.workers| ensures WorkerBounded(c, bound, y.book, Slack(y), x.workers[w]) {
      assert ReadKept(c, x, y, x.workers[w]);
      assert WorkerBounded(c, bound, x.book, Slack(x), x.workers[w]);
    }
  }

  /** With the intents as they are, whatever raises the book is drift. */
  lemma PositionsChange(c: Setting, dep: Deployment, bound: real, x: World, y: World)
    requires Invariant(c, dep, bound, x) && NonNegativePositions(c.catalogue, y.book.positions)
    requires y.workers == x.workers && y.holders == x.holders && y.book.intents == x.book.intents
    requires y.missed == x.missed && y.drift == x.drift + Max(BookWeight(c, y.book) - BookWeight(c, x.book), 0.0)
    ensures Invariant(c, dep, bound, y)
  {
    hide HoldsLocks, WorkerBounded, BookSum, IntentExposure, PositionExposure;
    BookMoves(c, dep, bound, x, y);
  }

  /** When an intent leaves the listing, a reading worker may miss what it weighs. */
  lemma IntentLeaves(c: Setting, dep: Deployment, bound: real, x: World, y: World, at: nat)
    requires Invariant(c, dep, bound, x) && TakesOut(c, x.book.intents, y.book.intents, at)
    requires y.workers == x.workers && y.holders == x.holders && y.book.positions == x.book.positions
    requires y.missed == x.missed + TornWeight(c, x, at)
    requires y.drift == x.drift + Max(BookWeight(c, y.book) - BookWeight(c, x.book), 0.0)
    ensures Invariant(c, dep, bound, y)
  {
    hide HoldsLocks, WorkerBounded, IntentExposure, PositionExposure, Weight, IntentSum, PositionSum, AllBounded;
    WeightOf(c, x, at);
    LeavesRead(c, x, y, at);
    BookMoves(c, dep, bound, x, y);
  }

  lemma LeavesRead(c: Setting, x: World, y: World, at: nat)
    requires TakesOut(c, x.book.intents, y.book.intents, at) && y.book.positions == x.book.positions
    requires IntentWeight(c.catalogue, x.book.intents[at], c.g) >= 0.0
    requires y.missed == x.missed + TornWeight(c, x, at)
    requires y.drift == x.drift + Max(BookWeight(c, y.book) - BookWeight(c, x.book), 0.0)
    ensures BookWeight(c, y.book) - Slack(y) <= BookWeight(c, x.book) - Slack(x)
    ensures forall w :: 0 <= w < |x.workers| ==> ReadKept(c, x, y, x.workers[w])
  {
    hide IntentExposure, PositionExposure, Weight, IntentSum, PositionSum, NonNegativeIntents, IntentWeight, Held;
    hide Counted;
    forall w | 0 <= w < |x.workers| ensures ReadKept(c, x, y, x.workers[w]) {
    }
  }

  lemma WeightOf(c: Setting, x: World, at: nat)
    requires NonNegative(c.catalogue, x.book) && at < |x.book.intents|
    ensures IntentWeight(c.catalogue, x.book.intents[at], c.g) >= 0.0
  {
    hide IntentExposure, Weight;
    WeightNonNegative(IntentExposure(c.catalogue, x.book.intents[at]), c.g);
  }

  /** A step of the book grants nothing. */
  lemma RiseOfBook(c: Setting, x: World, step: Step)
    requires BookChanging(step)
    ensures Rise(c, x, step) == Max(BookWeight(c, BookAfter(x, step)) - BookWeight(c, x.book), 0.0)
  {
    hide BookWeight, BookAfter;
  }

  lemma PositionsAfter(c: Setting, dep: Deployment, x: World, step: Step)
    requires Enabled(dep, c.factor, x, step) && BookChanging(step) && !Settling(step) && !step.Touch?
    requires NonNegativePositions(c.catalogue, x.book.positions)
    ensures BookAfter(x, step).intents == x.book.intents && MissedBy(c, x, step) == 0.0
    ensures NonNegativePositions(c.catalogue, BookAfter(x, step).positions)
  {
    hide Counted, Held, Owned;
  }

  lemma IntentsAfter(c: Setting, dep: Deployment, x: World, step: Step)
    requires Enabled(dep, c.factor, x, step) && Settling(step) && NonNegativeIntents(c.catalogue, x.book.intents)
    ensures BookAfter(x, step).positions == x.book.positions && MissedBy(c, x, step) == TornWeight(c, x, step.at)
    ensures TakesOut(c, x.book.intents, BookAfter(x, step).intents, step.at)
    ensures dep.fillsSettle || NothingTorn(x, step.at)
  {
    hide NothingTorn, TakesOut, Held, IntentExposure;
    match step {
      case Settle(at, id) => SettleTakesOut(c, x.book.intents, at, id);
      case Leave(at, _) => LeaveTakesOut(c, x.book.intents, at);
    }
  }

  lemma TouchAfter(c: Setting, dep: Deployment, x: World, step: Step)
    requires Enabled(dep, c.factor, x, step) && step.Touch? && NonNegativeIntents(c.catalogue, x.book.intents)
    ensures BookAfter(x, step).positions == x.book.positions && MissedBy(c, x, step) == 0.0
    ensures NonNegativeIntents(c.catalogue, BookAfter(x, step).intents)
    ensures SameSums(c, x.book.intents, BookAfter(x, step).intents)
  {
    hide IntentSum, IntentExposure;
    forall held {
      TouchKeepsSum(c, held, x.book.intents, step.at);
    }
  }

  ghost predicate SameSums(c: Setting, before: seq<Intent>, after: seq<Intent>) {
    forall held :: IntentSum(c.catalogue, held, after, c.g) == IntentSum(c.catalogue, held, before, c.g)
  }

  lemma IntentTouched(c: Setting, dep: Deployment, bound: real, x: World, y: World)
    requires Invariant(c, dep, bound, x) && NonNegativeIntents(c.catalogue, y.book.intents)
    requires SameSums(c, x.book.intents, y.book.intents) && y.book.positions == x.book.positions
    requires y.workers == x.workers && y.holders == x.holders && y.missed == x.missed
    requires y.drift == x.drift + Max(BookWeight(c, y.book) - BookWeight(c, x.book), 0.0)
    ensures Invariant(c, dep, bound, y)
  {
    hide HoldsLocks, WorkerBounded, IntentExposure, PositionExposure, IntentSum, PositionSum, AllBounded;
    BookMoves(c, dep, bound, x, y);
  }

  lemma InvariantBook(c: Setting, dep: Deployment, bound: real, x: World)
    requires Invariant(c, dep, bound, x)
    ensures NonNegativePositions(c.catalogue, x.book.positions) && NonNegativeIntents(c.catalogue, x.book.intents)
  {
    hide HoldsLocks, AllBounded, BookWeight;
  }

  lemma BookStep(c: Setting, dep: Deployment, bound: real, x: World, step: Step)
    requires Invariant(c, dep, bound, x) && Enabled(dep, c.factor, x, step) && BookChanging(step)
    ensures Invariant(c, dep, bound, Next(c, dep, x, step))
  {
    hide Invariant, Enabled, BookAfter, ElsewhereAfter, Rise, Next, MissedBy, TornWeight, TakesOut, BookWeight;
    hide NonNegativePositions, NonNegativeIntents, NothingTorn;
    InvariantBook(c, dep, bound, x);
    NextOfBook(c, dep, x, step);
    RiseOfBook(c, x, step);
    if Settling(step) {
      IntentsAfter(c, dep, x, step);
      IntentLeaves(c, dep, bound, x, Next(c, dep, x, step), step.at);
    } else if step.Touch? {
      TouchAfter(c, dep, x, step);
      IntentTouched(c, dep, bound, x, Next(c, dep, x, step));
    } else {
      PositionsAfter(c, dep, x, step);
      PositionsChange(c, dep, bound, x, Next(c, dep, x, step));
    }
  }

  /* ----- Every step ----- */

  /** Under one lock every step of every worker, and every event of the book, keeps the invariant. */
  lemma StepKeepsInvariant(c: Setting, dep: Deployment, bound: real, x: World, step: Step)
    requires Governed(c) && OneLock(dep) && CapOf(c) <= bound
    requires Invariant(c, dep, bound, x) && Enabled(dep, c.factor, x, step)
    ensures Invariant(c, dep, bound, Next(c, dep, x, step))
  {
    hide Invariant, Next, Enabled, Cap;
    match step {
      case Acquire(_) => LockStep(c, dep, bound, x, step);
      case Release(_) => LockStep(c, dep, bound, x, step);
      case ReadFirst(_) => FirstStep(c, dep, bound, x, step);
      case ReadSecond(_) => SecondStep(c, dep, bound, x, step);
      case RunCycle(_, _, _) => CycleStep(c, dep, bound, x, step);
      case Skip(_) => SkipStep(c, dep, bound, x, step);
      case Store(_, _, _) => StoreStep(c, dep, bound, x, step);
      case _ => BookStep(c, dep, bound, x, step);
    }
  }

  /** The bound on the book over a run. */
  function BoundFrom(c: Setting, start: World): real { Max(BookWeight(c, start.book), CapOf(c)) }

  lemma StartInvariant(c: Setting, dep: Deployment, x: World)
    requires Initial(c, dep, x)
    ensures Invariant(c, dep, BoundFrom(c, x), x)
  {
    hide BookWeight, NonNegative, CapOf, OwnedOnce;
  }

  /** Under one lock, in every interleaving of the workers and of the events of the book, no gauge of the
      stored book is ever above both its initial value and its cap by more than what entered the book
      otherwise than by grants and what the workers missed of it between or past their listings. */
  lemma {:induction false} AdmissionBound(c: Setting, dep: Deployment, worlds: seq<World>, steps: seq<Step>, n: nat)
    requires Governed(c) && OneLock(dep)
    requires Run(c, dep, worlds, steps) && Initial(c, dep, worlds[0]) && n < |worlds|
    ensures Invariant(c, dep, BoundFrom(c, worlds[0]), worlds[n])
    ensures BookWeight(c, worlds[n].book) <= BoundFrom(c, worlds[0]) + worlds[n].drift + worlds[n].missed
  {
    hide Invariant, Next, Enabled, Initial, BookWeight, CapOf;
    var bound := BoundFrom(c, worlds[0]);
    if n == 0 {
      StartInvariant(c, dep, worlds[0]);
    } else {
      AdmissionBound(c, dep, worlds, steps, n - 1);
      StepKeepsInvariant(c, dep, bound, worlds[n - 1], steps[n - 1]);
    }
    InvariantBounds(c, dep, bound, worlds[n]);
  }

  lemma InvariantBounds(c: Setting, dep: Deployment, bound: real, x: World)
    requires Invariant(c, dep, bound, x)
    ensures BookWeight(c, x.book) <= bound + x.drift + x.missed && HoldsLocks(dep, x)
  {
  }

  /* ----- Deployments that miss nothing ----- */

  /** Either intents are listed first or nothing is settled between the two listings, and no listing leaves
      out a counted intent. */
  predicate MissesNothing(dep: Deployment) { (dep.intentsFirst || !dep.fillsSettle) && !dep.overflows }

  /** No worker lists positions first where intents come first. */
  ghost predicate InOrder(dep: Deployment, x: World) {
    dep.intentsFirst ==> forall w :: 0 <= w < |x.workers| ==> !x.workers[w].PositionsRead?
  }

  lemma OrderKept(c: Setting, dep: Deployment, x: World, step: Step)
    requires InOrder(dep, x) && Enabled(dep, c.factor, x, step)
    ensures InOrder(dep, Next(c, dep, x, step))
  {
    hide OpenRead, Grants, Rise, BookAfter, AllLiftedBy, NothingTorn, Held, Counted, Covered, MissedBy, Owned;
  }

  lemma StepMissesNothing(c: Setting, dep: Deployment, x: World, step: Step)
    requires MissesNothing(dep) && InOrder(dep, x) && Enabled(dep, c.factor, x, step)
    ensures MissedBy(c, x, step) == 0.0
  {
    hide IntentSum, Held, Counted, Owned, AllLiftedBy, Unlisted;
    if step.ReadSecond? {
      var pc := x.workers[step.w];
      NoneCountedSum(c.catalogue, Held(PositionsSeen(x.book, pc)), Unlisted(IntentsSeen(x.book, pc)), c.g);
    }
  }

  lemma {:induction false} RunMissesNothing(c: Setting, dep: Deployment, worlds: seq<World>, steps: seq<Step>, n: nat)
    requires MissesNothing(dep) && Run(c, dep, worlds, steps) && Initial(c, dep, worlds[0]) && n < |worlds|
    ensures worlds[n].missed == 0.0 && InOrder(dep, worlds[n])
  {
    if n > 0 {
      RunMissesNothing(c, dep, worlds, steps, n - 1);
      var x, step := worlds[n - 1], steps[n - 1];
      assert Enabled(dep, c.factor, x, step) && worlds[n] == Next(c, dep, x, step);
      assert worlds[n].missed == x.missed + MissedBy(c, x, step);
      hide Next, Enabled, MissedBy, InOrder, Run, Initial;
      OrderKept(c, dep, x, step);
      StepMissesNothing(c, dep, x, step);
    }
  }
}
