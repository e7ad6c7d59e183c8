/** Runs of the admission protocol that start from an empty book and whose grants are each for another
    instrument: a worker's turn, two workers behind different locks, a fill between two listings, and a
    listing that leaves out a counted intent. */
module SampleRuns {
  import opened Basics
  import opened Rounding
  import opened IgSizing
  import opened Allocator
  import opened BudgetBounds
  import opened AllocationCycle
  import opened SamplePlans
  import opened OpenBook
  import opened StoredBook
  import opened AdmissionProtocol
  import opened AdmissionInvariant
  import opened ReachableWorlds

  /* ----- Settings, instruments and rows ----- */

  const RISK := 0.1

  /** A portfolio limit of k grants of one tenth of a percent, and no shortage of positions. */
  function RoomFor(k: nat): Settings {
    Uniform(k as real * RISK, 1.0, 1.0).(maxOpenPositions := 1000, maxPositionsPerStrategy := 1000)
  }

  function SettingFor(k: nat): Setting { Setting(RoomFor(k), map[], Risk(Portfolio), 1.0) }

  /** The n-th instrument. */
  function Name(n: nat): (name: string)
    ensures |name| == n + 1
  {
    if n == 0 then "a" else Name(n - 1) + "a"
  }

  const DETAILS := Details(None, Some(1.0))

  function PlanFor(n: nat): Plan { SampleOn(Name(n), DETAILS, RISK, 1.0) }

  /** The stored intent of a grant of the whole request for the n-th instrument. */
  function Row(n: nat): Intent {
    Intent(Some(n), None, "s", Some("f"), Name(n), Some(RISK), Some(RISK), Some(1.0), Some(1.0), None, Some(1.0))
  }

  function Rows(n: nat): (rows: seq<Intent>)
    ensures |rows| == n && forall i :: 0 <= i < n ==> rows[i] == Row(i)
  {
    seq(n, i requires 0 <= i < n => Row(i))
  }

  /* ----- What a worker reads of such rows ----- */

  /** The open state of m such rows, none of them for this instrument. */
  ghost predicate Reads(open: Ledger, m: nat, instrument: string) {
    && open.positions == Count(open.strategyPositions, "s") == m && open.gross == m as real
    && open.total == Read(open.strategy, "s") == Read(open.family, "f") == m as real * RISK
    && Read(open.instrument, instrument) == 0.0
  }

  ghost predicate SampleRow(i: Intent, instrument: string) { exists n: nat :: i == Row(n) && Name(n) != instrument }

  lemma RowExposed(i: Intent, instrument: string)
    requires SampleRow(i, instrument)
    ensures Counted({}, i)
    ensures
      var e := IntentExposure(map[], i);
      && e.strategy == "s" && e.family == "f" && e.instrument != instrument && e.risk == RISK && e.notional == 1.0
  {
    hide CurrencyBuckets, Name;
  }

  lemma ChargeReads(open: Ledger, m: nat, e: Exposure, instrument: string)
    requires Reads(open, m, instrument)
    requires e.strategy == "s" && e.family == "f" && e.instrument != instrument && e.risk == RISK && e.notional == 1.0
    ensures Reads(Charge(open, e), m + 1, instrument)
  {
    hide AddEach, Part;
  }

  lemma {:induction false} RowsRead(rows: seq<Intent>, instrument: string)
    requires forall i :: 0 <= i < |rows| ==> SampleRow(rows[i], instrument)
    ensures Reads(OpenState(map[], [], rows), |rows|, instrument)
  {
    hide Reads, Charge, IntentExposure, SampleRow;
    assert Held([]) == {} && ChargePositions(map[], []) == EMPTY;
    if rows == [] {
      NothingReads(instrument);
    } else {
      var n := |rows| - 1;
      RowsRead(rows[..n], instrument);
      assert SampleRow(rows[n], instrument);
      RowExposed(rows[n], instrument);
      ChargeReads(OpenState(map[], [], rows[..n]), n, IntentExposure(map[], rows[n]), instrument);
    }
  }

  lemma NothingReads(instrument: string)
    ensures Reads(EMPTY, 0, instrument)
  {
  }

  /* ----- What the cycle then grants ----- */

  lemma RoomIs(k: nat, m: nat, n: nat, open: Ledger)
    requires m < k && m < 1000 && Reads(open, m, Name(n))
    ensures Available(RoomFor(k), PlanFor(n), open, EMPTY) >= RISK
    ensures GrossRoom(RoomFor(k), PlanFor(n).equity, open, EMPTY) >= 1.0
  {
    var s, p := RoomFor(k), PlanFor(n);
    assert Accounts(p) == [Portfolio, Cycle, Strategy("s"), Family("f"), Instrument(Name(n))];
    assert p.equity == 1001.0;
    hide Name, Accounts, Tightest;
    assert forall a :: a in [Portfolio, Cycle, Strategy("s"), Family("f"), Instrument(Name(n))] ==>
        Room(s, open, EMPTY, a) >= RISK;
  }

  /** With room for more than m grants, a worker that reads m rows grants the whole request once more. */
  lemma OneMoreGranted(k: nat, m: nat, n: nat, open: Ledger) returns (grant: Grant)
    requires m < k && m < 1000 && Reads(open, m, Name(n))
    ensures Grants(RoomFor(k), "c", open, EMPTY, [PlanFor(n)]) == [grant] && grant.plan == PlanFor(n)
    ensures grant.decision.risk == RISK && grant.decision.size == 1.0
  {
    var s, p := RoomFor(k), PlanFor(n);
    RoomIs(k, m, n, open);
    Fitted(s, p.riskAmount, Available(s, p, open, EMPTY));
    hide Available, GrossRoom, FitToBroker, SampleOn, Round6, Round8, Name;
    SampleOffered(s, Name(n), DETAILS, RISK, 1.0, open);
    hide Offer, Binding, PlanFor;
    grant := Grant(p, AllocateCandidate(s, "c", p, open, EMPTY));
    SingleGrant(s, "c", open, p);
  }

  lemma Fitted(s: Settings, amount: real, hardLimit: real)
    ensures FitToBroker(s, DETAILS, Quantity(1.0, RISK, amount), hardLimit) == Fits(Quantity(1.0, RISK, amount))
    ensures Round6(RISK) == RISK && Round8(1.0) == 1.0
  {
    UnitStep(DETAILS);
    hide RoundedSize;
  }

  lemma UnitStep(d: Details)
    requires d == Details(None, Some(1.0))
    ensures LiftedBy(d, 1.0) && RoundedSize(d, 1.0) == 1.0
  {
    assert StepOnGrid(d);
    SteppedSizeIsExact(d, 1.0);
  }

  lemma SingleGrant(s: Settings, cycleId: string, open: Ledger, p: Plan)
    requires AllocateCandidate(s, cycleId, p, open, EMPTY).selected
    ensures Grants(s, cycleId, open, EMPTY, [p]) == [Grant(p, AllocateCandidate(s, cycleId, p, open, EMPTY))]
  {
    hide AllocateCandidate, Charge;
    assert Grants(s, cycleId, open, Reserve(EMPTY, p, AllocateCandidate(s, cycleId, p, open, EMPTY)), [p][1..]) == [];
  }

  lemma StoredRow(n: nat, grant: Grant)
    requires grant.plan == PlanFor(n) && grant.decision.risk == RISK && grant.decision.size == 1.0
    ensures StoredIntent(n, Some(1.0), grant) == Row(n) && grant.plan.instrument == Name(n)
    ensures GrantWeight(grant, Risk(Portfolio)) == RISK
  {
    hide Name, Notional;
  }

  lemma RowWeighs(n: nat)
    ensures IntentWeight(map[], Row(n), Risk(Portfolio)) == RISK
  {
    hide Name, Notional, CurrencyBuckets;
    assert IntentExposure(map[], Row(n)).risk == RISK;
  }

  /* ----- A worker's turn ----- */

  /** A step in which one worker changes its own state and perhaps its lock. */
  lemma Moves(c: Setting, dep: Deployment, start: World, x: World, step: Step, w: nat, pc: Pc) returns (y: World)
    requires Reaches(c, dep, start, x) && Enabled(dep, c.factor, x, step) && !step.Store? && !BookChanging(step)
    requires w == step.w && w < |x.workers| && PcAfter(c, dep, x, step, w) == pc
    ensures Reaches(c, dep, start, y)
    ensures y == x.(workers := x.workers[w := pc], holders := HoldersAfter(dep, x, step), missed := y.missed)
  {
    hide Reaches, Enabled, PcAfter, Next;
    ReachesNext(c, dep, start, x, step);
    NextOfWorker(c, dep, x, step, w, pc);
    y := Next(c, dep, x, step);
  }

  lemma Enters(c: Setting, dep: Deployment, start: World, x: World, w: nat) returns (y: World)
    requires Reaches(c, dep, start, x)
    requires w < |dep.processes| == |x.workers| && x.workers[w].Idle? && LockOf(dep, w) !in x.holders
    ensures Reaches(c, dep, start, y)
    ensures y == x.(workers := x.workers[w := Locked], holders := x.holders[LockOf(dep, w) := w], missed := y.missed)
  {
    hide Reaches;
    y := Moves(c, dep, start, x, Acquire(w), w, Locked);
  }

  function FirstRead(dep: Deployment, b: Book): Pc {
    if dep.intentsFirst then IntentsRead(b.intents) else PositionsRead(b.positions)
  }

  /** A worker lists what comes first in the deployment. */
  lemma ReadsFirst(c: Setting, dep: Deployment, start: World, x: World, w: nat) returns (y: World)
    requires Reaches(c, dep, start, x) && w < |x.workers| && x.workers[w].Locked?
    ensures Reaches(c, dep, start, y)
    ensures y == x.(workers := x.workers[w := FirstRead(dep, x.book)], missed := y.missed)
  {
    hide Reaches;
    y := Moves(c, dep, start, x, ReadFirst(w), w, FirstRead(dep, x.book));
  }

  /** The second listing of a worker that sees m rows, and the cycle it then runs. */
  lemma RunsCycle(k: nat, dep: Deployment, start: World, x: World, w: nat, m: nat, n: nat)
    returns (y: World, grant: Grant)
    requires Reaches(SettingFor(k), dep, start, x) && w < |x.workers| && m < k && m < 1000
    requires x.workers[w].PositionsRead? || x.workers[w].IntentsRead?
    requires dep.overflows || Covered(PositionsSeen(x.book, x.workers[w]), IntentsSeen(x.book, x.workers[w]))
    requires Reads(OpenRead(SettingFor(k), x.book, x.workers[w]), m, Name(n))
    ensures Reaches(SettingFor(k), dep, start, y)
    ensures y == x.(workers := x.workers[w := Storing([grant])], missed := y.missed)
    ensures grant.plan == PlanFor(n) && grant.decision.risk == RISK && grant.decision.size == 1.0
  {
    var open := OpenRead(SettingFor(k), x.book, x.workers[w]);
    hide Reaches, OpenRead, SettingFor, PlanFor, Reads, Covered, PositionsSeen, IntentsSeen;
    var read := ReadsSecond(SettingFor(k), dep, start, x, w);
    y, grant := GrantsOne(k, dep, start, read, w, m, n, open);
  }

  lemma ReadsSecond(c: Setting, dep: Deployment, start: World, x: World, w: nat) returns (y: World)
    requires Reaches(c, dep, start, x) && w < |x.workers|
    requires x.workers[w].PositionsRead? || x.workers[w].IntentsRead?
    requires dep.overflows || Covered(PositionsSeen(x.book, x.workers[w]), IntentsSeen(x.book, x.workers[w]))
    ensures Reaches(c, dep, start, y)
    ensures y == x.(workers := x.workers[w := Rebuilt(OpenRead(c, x.book, x.workers[w]))], missed := y.missed)
  {
    hide Reaches, OpenRead, Covered, PositionsSeen, IntentsSeen;
    y := Moves(c, dep, start, x, ReadSecond(w), w, Rebuilt(OpenRead(c, x.book, x.workers[w])));
  }

  lemma GrantsOne(k: nat, dep: Deployment, start: World, x: World, w: nat, m: nat, n: nat, open: Ledger)
    returns (y: World, grant: Grant)
    requires Reaches(SettingFor(k), dep, start, x) && w < |x.workers| && m < k && m < 1000
    requires x.workers[w] == Rebuilt(open) && Reads(open, m, Name(n))
    ensures Reaches(SettingFor(k), dep, start, y)
    ensures y == x.(workers := x.workers[w := Storing([grant])], missed := y.missed)
    ensures grant.plan == PlanFor(n) && grant.decision.risk == RISK && grant.decision.size == 1.0
  {
    hide Reaches, Grants, AllLiftedBy, RoomFor, PlanFor, Reads, Name;
    grant := OneMoreGranted(k, m, n, open);
    LiftedPlan(n);
    y := Moves(SettingFor(k), dep, start, x, RunCycle(w, "c", [PlanFor(n)]), w, Storing([grant]));
  }

  lemma LiftedPlan(n: nat)
    ensures AllLiftedBy([PlanFor(n)], 1.0)
  {
    UnitStep(DETAILS);
    hide Name;
  }

  /** A worker stores its one grant: the book gains the row, and nothing drifts. */
  lemma Stores(k: nat, grant: Grant, dep: Deployment, start: World, x: World, w: nat, n: nat) returns (y: World)
    requires Reaches(SettingFor(k), dep, start, x) && w < |x.workers| && x.workers[w] == Storing([grant])
    requires grant.plan == PlanFor(n) && grant.decision.risk == RISK && grant.decision.size == 1.0
    requires n !in Held(x.book.positions) && !Owned(x, Name(n))
    ensures Reaches(SettingFor(k), dep, start, y)
    ensures y == x.(book := Book(x.book.positions, x.book.intents + [Row(n)]), workers := x.workers[w := Storing([])])
    ensures Weighs(map[], y.book, Risk(Portfolio)) == Weighs(map[], x.book, Risk(Portfolio)) + RISK
  {
    var c, step := SettingFor(k), Store(w, n, Some(1.0));
    StoredRow(n, grant);
    RowAppended(x.book, n);
    StoreDrifts(c, x, w, n, grant);
    hide Reaches, Weighs, Row, Rise, Held, Owned, PlanFor, Name, StoredIntent, RoomFor;
    assert [grant][1..] == [];
    assert Enabled(dep, c.factor, x, step);
    NextOfStore(c, dep, x, step);
    ReachesNext(c, dep, start, x, step);
    y := Next(c, dep, x, step);
  }

  lemma RowAppended(b: Book, n: nat)
    requires n !in Held(b.positions)
    ensures Weighs(map[], Book(b.positions, b.intents + [Row(n)]), Risk(Portfolio))
         == Weighs(map[], b, Risk(Portfolio)) + RISK
  {
    RowWeighs(n);
    assert (b.intents + [Row(n)])[..|b.intents|] == b.intents;
    assert Counted(Held(b.positions), Row(n));
    hide IntentExposure, Row;
  }

  lemma StoreDrifts(c: Setting, x: World, w: nat, n: nat, grant: Grant)
    requires c.catalogue == map[] && c.g == Risk(Portfolio)
    requires w < |x.workers| && x.workers[w] == Storing([grant]) && n !in Held(x.book.positions)
    requires StoredIntent(n, Some(1.0), grant) == Row(n) && GrantWeight(grant, Risk(Portfolio)) == RISK
    ensures Rise(c, x, Store(w, n, Some(1.0))) == 0.0
  {
    RowAppended(x.book, n);
    hide Weighs, StoredIntent, GrantWeight, Row;
  }

  lemma Releases(c: Setting, dep: Deployment, start: World, x: World, w: nat) returns (y: World)
    requires Reaches(c, dep, start, x)
    requires w < |dep.processes| == |x.workers| && !x.workers[w].Idle?
    ensures Reaches(c, dep, start, y)
    ensures y == x.(workers := x.workers[w := Idle], holders := x.holders - {LockOf(dep, w)}, missed := y.missed)
  {
    hide Reaches;
    y := Moves(c, dep, start, x, Release(w), w, Idle);
  }

  /* ----- Turn after turn ----- */

  /** An idle deployment with the first n rows in the book. */
  ghost predicate HoldsRows(dep: Deployment, x: World, n: nat) {
    && x.book == Book([], Rows(n)) && x.elsewhere == {} && x.holders == map[] && x.drift == 0.0
    && x.workers == AllIdle(dep)
  }

  ghost function AllIdle(dep: Deployment): seq<Pc> {
    seq(|dep.processes|, w requires 0 <= w < |dep.processes| => Idle)
  }

  ghost function Start(dep: Deployment): World { World(Book([], []), {}, map[], AllIdle(dep), 0.0, 0.0) }

  lemma StartReached(c: Setting, dep: Deployment)
    ensures Reaches(c, dep, Start(dep), Start(dep)) && HoldsRows(dep, Start(dep), 0)
  {
    assert Rows(0) == [];
    ReachesStart(c, dep, Start(dep));
  }

  lemma NamesDiffer(i: nat, j: nat)
    requires i != j
    ensures Name(i) != Name(j)
  {
  }

  lemma NotOwned(x: World, n: nat)
    requires x.book.intents == Rows(n) && x.elsewhere == {}
    ensures !Owned(x, Name(n))
  {
    hide Name;
    forall i | 0 <= i < n ensures x.book.intents[i].instrument != Name(n) {
      NamesDiffer(i, n);
    }
  }

  /** What the next worker reads: all rows as long as they fit in a listing. */
  lemma ListedRows(n: nat)
    ensures
      var listed := Listed(Rows(n));
      |listed| == (if n <= LIST_LIMIT then n else LIST_LIMIT)
      && Reads(OpenState(map[], [], listed), |listed|, Name(n))
  {
    hide Row, Name, OpenState, Reads;
    var listed := Listed(Rows(n));
    forall i | 0 <= i < |listed| ensures SampleRow(listed[i], Name(n)) {
      var j := n - |listed| + i;
      NamesDiffer(j, n);
      assert listed[i] == Row(j);
    }
    RowsRead(listed, Name(n));
  }

  /** One turn of the first worker adds one row, as long as its listing shows room for one. */
  lemma Turn(k: nat, dep: Deployment, start: World, x: World, n: nat) returns (y: World)
    requires Reaches(SettingFor(k), dep, start, x) && |dep.processes| > 0 && HoldsRows(dep, x, n)
    requires if n <= LIST_LIMIT then n < k else LIST_LIMIT < k && dep.overflows
    ensures Reaches(SettingFor(k), dep, start, y) && HoldsRows(dep, y, n + 1)
    ensures Weighs(map[], y.book, Risk(Portfolio)) == Weighs(map[], x.book, Risk(Portfolio)) + RISK
  {
    var c := SettingFor(k);
    ListedRows(n);
    hide Reaches, Reads, Weighs, Rows, Row, Name, PlanFor, OpenState;
    var locked := Enters(c, dep, start, x, 0);
    var read := ReadsFirst(c, dep, start, locked, 0);
    assert PositionsSeen(read.book, read.workers[0]) == [] && IntentsSeen(read.book, read.workers[0]) == Rows(n);
    var granted, grant := RunsCycle(k, dep, start, read, 0, |Listed(Rows(n))|, n);
    NotOwned(granted, n);
    assert Held([]) == {};
    var stored := Stores(k, grant, dep, start, granted, 0, n);
    y := Releases(c, dep, start, stored, 0);
    RowsSnoc(n);
    assert y.workers == AllIdle(dep);
  }

  lemma RowsSnoc(n: nat)
    ensures Rows(n) + [Row(n)] == Rows(n + 1)
  {
    hide Row;
  }

  /** The first n grants, one turn each. */
  lemma {:induction false} Turns(k: nat, dep: Deployment, n: nat) returns (x: World)
    requires |dep.processes| > 0 && n <= k && n <= LIST_LIMIT + 1
    ensures Reaches(SettingFor(k), dep, Start(dep), x) && HoldsRows(dep, x, n)
    ensures Weighs(map[], x.book, Risk(Portfolio)) == n as real * RISK
  {
    if n == 0 {
      StartReached(SettingFor(k), dep);
      x := Start(dep);
    } else {
      hide Reaches, HoldsRows, Weighs;
      x := Turns(k, dep, n - 1);
      x := Turn(k, dep, Start(dep), x, n - 1);
    }
  }

  /* ----- Runs past the limit ----- */

  /** The book starts empty and ends one grant past a limit of k. */
  ghost predicate Overspent(k: nat, dep: Deployment, x: World) {
    && Reaches(SettingFor(k), dep, Start(dep), x) && x.drift == 0.0
    && Weighs(map[], x.book, Risk(Portfolio)) == (k + 1) as real * RISK
  }

  /** When a listing may leave out a counted intent, the book can be filled with one intent more than a
      listing returns, and the next worker reads room for one. */
  lemma OverflowOverspends(dep: Deployment) returns (x: World)
    requires |dep.processes| > 0 && dep.overflows
    ensures Overspent(LIST_LIMIT + 1, dep, x)
  {
    hide Reaches, Weighs;
    x := Turns(LIST_LIMIT + 1, dep, LIST_LIMIT + 1);
    x := Turn(LIST_LIMIT + 1, dep, Start(dep), x, LIST_LIMIT + 1);
  }

  /** Two workers behind different locks each grant the whole limit, for two instruments. */
  lemma TwoLocksOverspend(dep: Deployment) returns (x: World)
    requires !OneLock(dep)
    ensures Overspent(1, dep, x)
  {
    var v, w :| 0 <= v < w < |dep.processes| && dep.processes[v] != dep.processes[w];
    StartReached(SettingFor(1), dep);
    x := Start(dep);
    assert Weighs(map[], x.book, Risk(Portfolio)) == 0.0;
    hide Reaches, PlanFor, Row, Weighs, Name;
    var first, second;
    x, first := Prepares(dep, Start(dep), x, v, 0);
    x, second := Prepares(dep, Start(dep), x, w, 1);
    assert Held([]) == {};
    x := Stores(1, first, dep, Start(dep), x, v, 0);
    NamesDiffer(0, 1);
    RowNamed(0);
    x := Stores(1, second, dep, Start(dep), x, w, 1);
  }

  lemma RowNamed(n: nat)
    ensures Row(n).instrument == Name(n) && Row(n).id == Some(n) && Row(n).positionId.None?
  {
    hide Name;
  }

  /** With an empty book, a worker comes as far as its pending grant. */
  lemma Prepares(dep: Deployment, start: World, x: World, w: nat, n: nat) returns (y: World, grant: Grant)
    requires Reaches(SettingFor(1), dep, start, x) && x.book == Book([], [])
    requires w < |dep.processes| == |x.workers| && x.workers[w].Idle? && LockOf(dep, w) !in x.holders
    ensures Reaches(SettingFor(1), dep, start, y)
    ensures y == x.(workers := x.workers[w := Storing([grant])], holders := x.holders[LockOf(dep, w) := w],
                    missed := y.missed)
    ensures grant.plan == PlanFor(n) && grant.decision.risk == RISK && grant.decision.size == 1.0
  {
    NothingReads(Name(n));
    assert OpenState(map[], [], Listed([])) == EMPTY;
    hide Reaches, PlanFor, Name, Reads, OpenState;
    var locked := Enters(SettingFor(1), dep, start, x, w);
    var read := ReadsFirst(SettingFor(1), dep, start, locked, w);
    y, grant := RunsCycle(1, dep, start, read, w, 0, n);
  }

  /** A fill that completes between the two listings of a worker is in neither: the worker reads an empty
      book and grants the whole limit again, for another instrument. */
  lemma TornReadOverspends(dep: Deployment) returns (x: World)
    requires |dep.processes| > 0 && !dep.intentsFirst && dep.fillsSettle
    ensures Overspent(1, dep, x)
  {
    var c := SettingFor(1);
    hide Reaches, PlanFor, Row, Weighs, Name, Rows, Reads, OpenState;
    x := Turns(1, dep, 1);
    RowsOne();
    x := Enters(c, dep, Start(dep), x, 0);
    x := ReadsFirst(c, dep, Start(dep), x, 0);
    x := Fills(c, dep, Start(dep), x, Filled());
    NothingReads(Name(1));
    NothingOpen();
    var grant;
    x, grant := RunsCycle(1, dep, Start(dep), x, 0, 0, 1);
    NamesDiffer(0, 1);
    HeldByFilled();
    x := Stores(1, grant, dep, Start(dep), x, 0, 1);
  }

  lemma NothingOpen()
    ensures OpenState(map[], [], []) == EMPTY && Held([]) == {}
  {
  }

  lemma RowsOne()
    ensures Rows(1) == [Row(0)]
  {
    hide Row;
  }

  /** The position that the fill of the first row opens. */
  function Filled(): Position { Position(Some(0), "s", Some("f"), Name(0), Some(RISK), 1.0, None, 1.0) }

  lemma HeldByFilled()
    ensures Held([]) == {} && Held([Filled()]) == {0}
  {
    hide Name;
    assert [Filled()][..0] == [];
  }

  /** The fill commits its position, and then the intent leaves the reserved states as opened. */
  lemma Fills(c: Setting, dep: Deployment, start: World, x: World, p: Position) returns (y: World)
    requires c.catalogue == map[] && c.g == Risk(Portfolio) && p == Filled() && x.elsewhere == {}
    requires Reaches(c, dep, start, x) && dep.fillsSettle && x.book == Book([], [Row(0)])
    ensures Reaches(c, dep, start, y)
    ensures y == x.(book := Book([p], []), elsewhere := {Name(0)}, missed := y.missed)
    ensures Weighs(map[], y.book, Risk(Portfolio)) == Weighs(map[], x.book, Risk(Portfolio))
  {
    HeldByFilled();
    FilledWeighs(p);
    RowNamed(0);
    hide Reaches, Weighs, Held, Row, Name;
    assert [] + [p] == [p] && Without([Row(0)], 0) == [];
    FilledOf(p);
    hide Filled;
    y := StepsQuietly(c, dep, start, x, Fill(0, p));
    y := StepsQuietly(c, dep, start, y, Leave(0, true));
  }

  lemma FilledOf(p: Position)
    requires p == Filled()
    ensures p.intentId == Some(0) && p.instrument == Name(0) && Or(p.risk, 0.0) == RISK
  {
    hide Name;
  }

  /** The book weighs the same before the fill, after it and without the settled intent. */
  lemma FilledWeighs(p: Position)
    requires p == Filled()
    ensures Weighs(map[], Book([], [Row(0)]), Risk(Portfolio)) == RISK
    ensures Weighs(map[], Book([p], [Row(0)]), Risk(Portfolio)) == RISK
    ensures Weighs(map[], Book([p], []), Risk(Portfolio)) == RISK
  {
    HeldByFilled();
    FilledAlone(p);
    RowWeighs(0);
    RowNamed(0);
    hide Row, Held, Filled, PositionSum, IntentExposure;
    assert [Row(0)][..0] == [];
    assert IntentSum(map[], {}, [Row(0)], Risk(Portfolio)) == RISK;
    assert IntentSum(map[], {0}, [Row(0)], Risk(Portfolio)) == 0.0;
    assert PositionSum(map[], [], Risk(Portfolio)) == 0.0;
  }

  lemma FilledAlone(p: Position)
    requires p == Filled()
    ensures PositionSum(map[], [], Risk(Portfolio)) == 0.0 && PositionSum(map[], [p], Risk(Portfolio)) == RISK
  {
    hide Notional, Name, CurrencyBuckets;
    assert PositionExposure(map[], p).risk == RISK;
    hide PositionExposure;
    assert [p][..0] == [];
  }

  lemma StepsQuietly(c: Setting, dep: Deployment, start: World, x: World, step: Step) returns (y: World)
    requires Reaches(c, dep, start, x) && Enabled(dep, c.factor, x, step) && BookChanging(step)
    requires BookWeight(c, BookAfter(x, step)) == BookWeight(c, x.book)
    ensures Reaches(c, dep, start, y)
    ensures y == x.(book := BookAfter(x, step), elsewhere := ElsewhereAfter(x, step), missed := y.missed)
  {
    hide Reaches, BookWeight, Rise, Next, Enabled, BookAfter, ElsewhereAfter;
    ReachesNext(c, dep, start, x, step);
    NextOfBook(c, dep, x, step);
    RiseOfBook(c, x, step);
    y := Next(c, dep, x, step);
  }
}
