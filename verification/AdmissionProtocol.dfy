/** Many workers admitting trades against one risk book: each takes the allocation lock, rebuilds the
    open state with two queries, runs a cycle, stores its selected decisions and releases the lock.
    Fills, closings, repricings and adopted positions change the book at any time, outside the lock. */
module AdmissionProtocol {
  import opened Basics
  import opened Allocator
  import opened BudgetBounds
  import opened OpenBook
  import opened StoredBook

  datatype Dialect = PostgreSql | OtherDialect

  /** Where the workers run, in which order the two queries are made, whether the intent of a fresh fill may
      be settled while a worker is between its two queries, and whether a listing may leave out an intent
      that the worker would count. The code lists positions first and does nothing about the other two. */
  datatype Deployment = Deployment(
    dialect: Dialect, processes: seq<nat>, intentsFirst: bool, fillsSettle: bool, overflows: bool)

  /** What a run is made under, beside the deployment, and the gauge that is watched. */
  datatype Setting = Setting(s: Settings, catalogue: Catalogue, g: Gauge, factor: real)

  function BookWeight(c: Setting, b: Book): real { Weighs(c.catalogue, b, c.g) }

  /** The advisory lock of the database, or the lock of one process. */
  datatype Lock = Advisory | Local(process: nat)

  function LockOf(dep: Deployment, w: nat): Lock
    requires w < |dep.processes|
  {
    if dep.dialect.PostgreSql? then Advisory else Local(dep.processes[w])
  }

  /** All workers contend for the same lock. */
  predicate OneLock(dep: Deployment) {
    dep.dialect.PostgreSql? || forall v, w :: 0 <= v < w < |dep.processes| ==> dep.processes[v] == dep.processes[w]
  }

  /* ----- The step model ----- */

  datatype Pc =
    | Idle
    | Locked
    | PositionsRead(positions: seq<Position>)
    | IntentsRead(intents: seq<Intent>)
    | Rebuilt(open: Ledger)
    | Storing(pending: seq<Grant>)

  /** `elsewhere` holds the instruments owned by an unclosed intent in a state that reserves no risk, such as
      an open position's. `drift` adds up what has entered the book on the gauge other than by grants at
      their weight, and `missed` what the workers have missed of it when they read it. */
  datatype World = World(
    book: Book, elsewhere: set<string>, holders: map<Lock, nat>, workers: seq<Pc>, drift: real, missed: real)

  /** `Settle` links an intent to its position and leaves it listed, as a partial fill does; `Leave` takes it
      out of the reserving states, still owning its instrument or not; `Touch` is any other update, which
      makes its row the most recent one. `Claim` and `Vacate` are unclosed intents outside the listing. */
  datatype Step =
    | Acquire(w: nat)
    | ReadFirst(w: nat)
    | ReadSecond(w: nat)
    | RunCycle(w: nat, cycleId: string, plans: seq<Plan>)
    | Store(w: nat, id: nat, price: Option<real>)
    | Skip(w: nat)
    | Release(w: nat)
    | Fill(at: nat, position: Position)
    | Settle(at: nat, positionId: nat)
    | Leave(at: nat, owning: bool)
    | Touch(at: nat)
    | Close(at: nat)
    | Reprice(at: nat, risk: real)
    | Adopt(position: Position)
    | Claim(instrument: string)
    | Vacate(instrument: string)

  function Without<T>(xs: seq<T>, i: nat): seq<T>
    requires i < |xs|
  {
    xs[..i] + xs[i + 1..]
  }

  function Linked(i: Intent, positionId: nat): Intent { i.(positionId := Some(positionId)) }

  /** Some unclosed intent owns the instrument: no second one is admitted for it. */
  predicate Owned(x: World, instrument: string) {
    instrument in x.elsewhere || exists i :: 0 <= i < |x.book.intents| && x.book.intents[i].instrument == instrument
  }

  /** An intent that a worker's snapshot of the positions still counts, although a position holds it. */
  ghost predicate Torn(snapshot: seq<Position>, b: Book, at: nat)
    requires at < |b.intents|
  {
    Counted(Held(snapshot), b.intents[at]) && !Counted(Held(b.positions), b.intents[at])
  }

  /** Taking an intent out of the listing does not hide a fill from a worker between its queries. */
  ghost predicate NothingTorn(x: World, at: nat)
    requires at < |x.book.intents|
  {
    forall w :: 0 <= w < |x.workers| && x.workers[w].PositionsRead? ==> !Torn(x.workers[w].positions, x.book, at)
  }

  /** The positions and the intents behind the two queries, when the second one is made now. */
  function PositionsSeen(b: Book, pc: Pc): seq<Position> { if pc.PositionsRead? then pc.positions else b.positions }

  function IntentsSeen(b: Book, pc: Pc): seq<Intent> { if pc.IntentsRead? then pc.intents else b.intents }

  ghost predicate At(x: World, w: nat) { w < |x.workers| }

  ghost predicate HasPending(x: World, w: nat) {
    At(x, w) && x.workers[w].Storing? && x.workers[w].pending != []
  }

  ghost predicate Enabled(dep: Deployment, factor: real, x: World, step: Step) {
    match step
    case Acquire(w) => At(x, w) && x.workers[w].Idle? && w < |dep.processes| && LockOf(dep, w) !in x.holders
    case ReadFirst(w) => At(x, w) && x.workers[w].Locked?
    case ReadSecond(w) =>
      && At(x, w) && (x.workers[w].IntentsRead? || x.workers[w].PositionsRead?)
      && (dep.overflows || Covered(PositionsSeen(x.book, x.workers[w]), IntentsSeen(x.book, x.workers[w])))
    case RunCycle(w, id, plans) => At(x, w) && x.workers[w].Rebuilt? && AllLiftedBy(plans, factor)
    case Store(w, id, _) => HasPending(x, w) && !Owned(x, x.workers[w].pending[0].plan.instrument)
    case Skip(w) => HasPending(x, w)
    case Release(w) => At(x, w) && !x.workers[w].Idle? && w < |dep.processes|
    case Fill(at, p) =>
      && at < |x.book.intents| && Counted(Held(x.book.positions), x.book.intents[at])
      && x.book.intents[at].id.Some? && p.intentId == x.book.intents[at].id
      && p.instrument == x.book.intents[at].instrument && Or(p.risk, 0.0) >= 0.0
    case Settle(at, _) =>
      && at < |x.book.intents| && x.book.intents[at].id.Some? && x.book.intents[at].id.value in Held(x.book.positions)
      && (dep.fillsSettle || NothingTorn(x, at))
    case Leave(at, _) => at < |x.book.intents| && (dep.fillsSettle || NothingTorn(x, at))
    case Touch(at) => at < |x.book.intents|
    case Close(at) => at < |x.book.positions|
    case Reprice(at, risk) => at < |x.book.positions| && risk >= 0.0
    case Adopt(p) => Or(p.risk, 0.0) >= 0.0
    case Claim(k) => !Owned(x, k)
    case Vacate(_) => true
  }

  /** The book after a step. */
  function BookAfter(x: World, step: Step): Book {
    var b := x.book;
    match step
    case Store(w, id, price) =>
      if w < |x.workers| && x.workers[w].Storing? && x.workers[w].pending != [] then
        Book(b.positions, b.intents + [StoredIntent(id, price, x.workers[w].pending[0])])
      else b
    case Fill(at, p) => Book(b.positions + [p], b.intents)
    case Settle(at, id) =>
      if at < |b.intents| then Book(b.positions, b.intents[at := Linked(b.intents[at], id)]) else b
    case Leave(at, _) => if at < |b.intents| then Book(b.positions, Without(b.intents, at)) else b
    case Touch(at) =>
      if at < |b.intents| then Book(b.positions, Without(b.intents, at) + [b.intents[at]]) else b
    case Close(at) => if at < |b.positions| then Book(Without(b.positions, at), b.intents) else b
    case Reprice(at, risk) =>
      if at < |b.positions| then Book(b.positions[at := b.positions[at].(risk := Some(risk))], b.intents) else b
    case Adopt(p) => Book(b.positions + [p], b.intents)
    case _ => b
  }

  function ElsewhereAfter(x: World, step: Step): set<string> {
    match step
    case Leave(at, owning) =>
      if owning && at < |x.book.intents| then x.elsewhere + {x.book.intents[at].instrument} else x.elsewhere
    case Claim(k) => x.elsewhere + {k}
    case Vacate(k) => x.elsewhere - {k}
    case _ => x.elsewhere
  }

  /** What a step grants, as the cycle weighed it. */
  function GrantedBy(x: World, step: Step, g: Gauge): real {
    match step
    case Store(w, _, _) =>
      if w < |x.workers| && x.workers[w].Storing? && x.workers[w].pending != [] then
        GrantWeight(x.workers[w].pending[0], g)
      else 0.0
    case _ => 0.0
  }

  /** How far a step raises the book beyond what it grants. */
  function Rise(c: Setting, x: World, step: Step): real {
    Max(BookWeight(c, BookAfter(x, step)) - BookWeight(c, x.book) - GrantedBy(x, step, c.g), 0.0)
  }

  /** What a worker misses of the book by a step: an intent that leaves the listing between its two queries
      and whose position it has not seen, or what its listing leaves out. */
  ghost function MissedBy(c: Setting, x: World, step: Step): real {
    match step
    case Settle(at, _) => TornWeight(c, x, at)
    case Leave(at, _) => TornWeight(c, x, at)
    case ReadSecond(w) => if At(x, w) then LeftOut(c, x.book, x.workers[w]) else 0.0
    case _ => 0.0
  }

  ghost function TornWeight(c: Setting, x: World, at: nat): real {
    if at < |x.book.intents| && !NothingTorn(x, at) then IntentWeight(c.catalogue, x.book.intents[at], c.g) else 0.0
  }

  function LeftOut(c: Setting, b: Book, pc: Pc): real {
    IntentSum(c.catalogue, Held(PositionsSeen(b, pc)), Unlisted(IntentsSeen(b, pc)), c.g)
  }

  /** The control state of a worker after a step. */
  ghost function PcAfter(c: Setting, dep: Deployment, x: World, step: Step, w: nat): Pc
    requires Enabled(dep, c.factor, x, step) && w < |x.workers|
  {
    match step
    case Acquire(v) => if v == w then Locked else x.workers[w]
    case ReadFirst(v) =>
      if v != w then x.workers[w]
      else if dep.intentsFirst then IntentsRead(x.book.intents)
      else PositionsRead(x.book.positions)
    case ReadSecond(v) => if v == w then Rebuilt(OpenRead(c, x.book, x.workers[w])) else x.workers[w]
    case RunCycle(v, id, plans) =>
      if v == w then Storing(Grants(c.s, id, x.workers[w].open, EMPTY, plans)) else x.workers[w]
    case Store(v, _, _) => if v == w then Storing(x.workers[w].pending[1..]) else x.workers[w]
    case Skip(v) => if v == w then Storing(x.workers[w].pending[1..]) else x.workers[w]
    case Release(v) => if v == w then Idle else x.workers[w]
    case _ => x.workers[w]
  }

  /** The open state built from the answers of the two queries. */
  function OpenRead(c: Setting, b: Book, pc: Pc): Ledger {
    OpenState(c.catalogue, PositionsSeen(b, pc), Listed(IntentsSeen(b, pc)))
  }

  ghost function HoldersAfter(dep: Deployment, x: World, step: Step): map<Lock, nat>
    requires step.Acquire? || step.Release? ==> step.w < |dep.processes|
  {
    match step
    case Acquire(w) => x.holders[LockOf(dep, w) := w]
    case Release(w) => x.holders - {LockOf(dep, w)}
    case _ => x.holders
  }

  ghost function Next(c: Setting, dep: Deployment, x: World, step: Step): World
    requires Enabled(dep, c.factor, x, step)
  {
    World(
      BookAfter(x, step),
      ElsewhereAfter(x, step),
      HoldersAfter(dep, x, step),
      seq(|x.workers|, w requires 0 <= w < |x.workers| => PcAfter(c, dep, x, step, w)),
      x.drift + Rise(c, x, step),
      x.missed + MissedBy(c, x, step))
  }

  /** Steps that happen outside the lock. */
  ghost predicate BookChanging(step: Step) {
    || step.Fill? || Settling(step) || step.Touch? || step.Close? || step.Reprice? || step.Adopt?
    || step.Claim? || step.Vacate?
  }

  ghost predicate Settling(step: Step) { step.Settle? || step.Leave? }

  /** A step that leaves the book alone is a change of its worker. */
  lemma NextOfWorker(c: Setting, dep: Deployment, x: World, step: Step, w: nat, pc: Pc)
    requires Enabled(dep, c.factor, x, step) && !step.Store? && !BookChanging(step)
    requires w == step.w && PcAfter(c, dep, x, step, w) == pc
    ensures Next(c, dep, x, step)
         == x.(workers := x.workers[w := pc], holders := HoldersAfter(dep, x, step),
               missed := x.missed + MissedBy(c, x, step))
  {
    hide Weighs, OpenRead, Grants, AllLiftedBy, Covered, MissedBy, HoldersAfter;
    assert Next(c, dep, x, step).workers == x.workers[w := pc];
  }

  /** A step of the book alone leaves the workers and the locks. */
  lemma NextOfBook(c: Setting, dep: Deployment, x: World, step: Step)
    requires Enabled(dep, c.factor, x, step) && BookChanging(step)
    ensures Next(c, dep, x, step)
         == x.(book := BookAfter(x, step), elsewhere := ElsewhereAfter(x, step),
               drift := x.drift + Rise(c, x, step), missed := x.missed + MissedBy(c, x, step))
  {
    hide Weighs, Enabled, MissedBy, BookAfter, ElsewhereAfter, Rise;
    assert Next(c, dep, x, step).workers == x.workers;
  }

  /** Storing moves the first pending grant to the book. */
  lemma NextOfStore(c: Setting, dep: Deployment, x: World, step: Step)
    requires Enabled(dep, c.factor, x, step) && step.Store?
    ensures
      var pending := x.workers[step.w].pending;
      Next(c, dep, x, step)
        == x.(book := Book(x.book.positions, x.book.intents + [StoredIntent(step.id, step.price, pending[0])]),
              workers := x.workers[step.w := Storing(pending[1..])], drift := x.drift + Rise(c, x, step))
  {
    hide Weighs, Rise, StoredIntent, Owned;
    assert Next(c, dep, x, step).workers == x.workers[step.w := Storing(x.workers[step.w].pending[1..])];
  }

  /** The listing that a worker reads has the rows that were updated last: the one that a step stores or
      touches is in it, and so are all rows as long as they fit. */
  lemma LatestIsListed(c: Setting, dep: Deployment, x: World, step: Step)
    requires Enabled(dep, c.factor, x, step) && (step.Touch? || step.Store?)
    ensures
      var row :=
        if step.Touch? then x.book.intents[step.at]
        else StoredIntent(step.id, step.price, x.workers[step.w].pending[0]);
      var after := Next(c, dep, x, step).book.intents;
      && row in Listed(after) && after[|after| - 1] == row
      && (|after| <= LIST_LIMIT ==> forall i :: i in x.book.intents ==> i in Listed(after))
  {
    hide Weighs, PcAfter, MissedBy, Rise, StoredIntent, HoldersAfter, ElsewhereAfter, Counted, Held;
    var before, after := x.book.intents, Next(c, dep, x, step).book.intents;
    assert Listed(after)[|Listed(after)| - 1] == after[|after| - 1];
    if step.Touch? {
      assert before == before[..step.at] + [before[step.at]] + before[step.at + 1..];
    }
  }

  /* ----- One unclosed intent per instrument ----- */

  ghost predicate OwnedOnce(x: World) { OnceEach(x.book.intents, x.elsewhere) }

  ghost predicate OnceEach(intents: seq<Intent>, elsewhere: set<string>) {
    && (forall i, j :: 0 <= i < j < |intents| ==> intents[i].instrument != intents[j].instrument)
    && (forall i :: 0 <= i < |intents| ==> intents[i].instrument !in elsewhere)
  }

  /** Every step leaves at most one unclosed intent to each instrument. */
  lemma OwnedOnceKept(c: Setting, dep: Deployment, x: World, step: Step)
    requires OwnedOnce(x) && Enabled(dep, c.factor, x, step)
    ensures OwnedOnce(Next(c, dep, x, step))
  {
    hide PcAfter, Rise, MissedBy, Covered, Counted, Held, NothingTorn, AllLiftedBy;
  }

  /* ----- Runs ----- */

  ghost predicate Run(c: Setting, dep: Deployment, worlds: seq<World>, steps: seq<Step>) {
    && |worlds| == |steps| + 1
    && (forall i :: 0 <= i < |steps| ==>
          Enabled(dep, c.factor, worlds[i], steps[i]) && worlds[i + 1] == Next(c, dep, worlds[i], steps[i]))
  }

  ghost predicate Initial(c: Setting, dep: Deployment, x: World) {
    && x.holders == map[] && x.drift == x.missed == 0.0 && NonNegative(c.catalogue, x.book) && OwnedOnce(x)
    && x.workers == seq(|dep.processes|, w requires 0 <= w < |dep.processes| => Idle)
  }
}
