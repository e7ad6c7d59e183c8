/** Runs in which nothing but grants enters the book: what each step must satisfy for that, and the
    bound such runs keep without any drift. */
module QuietRuns {
  import opened Basics
  import opened Allocator
  import opened OpenBook
  import opened StoredBook
  import opened AdmissionProtocol
  import opened AdmissionInvariant

  function PositionWeight(catalogue: Catalogue, p: Position, g: Gauge): real {
    Weight(PositionExposure(catalogue, p), g)
  }

  /** Taking this position away makes no intent count again: settled, or held by another position. */
  ghost predicate NoneReturns(b: Book, at: nat)
    requires at < |b.positions|
  {
    forall i :: 0 <= i < |b.intents| ==>
      (Counted(Held(Without(b.positions, at)), b.intents[i]) ==> Counted(Held(b.positions), b.intents[i]))
  }

  /** A grant is stored at a percent above zero, a fill brings no more than its intent reserved, a
      closed position's intent does not count again, a position is repriced downwards, and none is adopted. */
  ghost predicate Quiet(catalogue: Catalogue, g: Gauge, x: World, step: Step) {
    match step
    case Store(w, id, _) =>
      HasPending(x, w) ==>
        var grant := x.workers[w].pending[0];
        grant.decision.risk > 0.0 && Named(grant.plan) && Agreed(catalogue, g, grant.plan)
    case Fill(at, p) =>
      at < |x.book.intents| ==> PositionWeight(catalogue, p, g) <= IntentWeight(catalogue, x.book.intents[at], g)
    case Close(at) => at < |x.book.positions| ==> NoneReturns(x.book, at)
    case Reprice(at, risk) =>
      at < |x.book.positions| ==>
        PositionWeight(catalogue, x.book.positions[at].(risk := Some(risk)), g)
        <= PositionWeight(catalogue, x.book.positions[at], g)
    case Adopt(_) => false
    case _ => true
  }

  /* ----- Sums ----- */

  /** With fewer intents counted the sum is lower, and it loses at least those that no longer count. */
  lemma {:induction false} HoldingMore(catalogue: Catalogue, held: set<nat>, more: set<nat>, intents: seq<Intent>,
                                       at: nat, g: Gauge)
    requires NonNegativeIntents(catalogue, intents) && at < |intents|
    requires forall i :: 0 <= i < |intents| && Counted(more, intents[i]) ==> Counted(held, intents[i])
    requires Counted(held, intents[at]) && !Counted(more, intents[at])
    ensures IntentSum(catalogue, more, intents, g)
         <= IntentSum(catalogue, held, intents, g) - IntentWeight(catalogue, intents[at], g)
  {
    hide Weight, IntentExposure, Counted;
    var n := |intents| - 1;
    WeightNonNegative(IntentExposure(catalogue, intents[n]), g);
    if at < n {
      HoldingMore(catalogue, held, more, intents[..n], at, g);
    } else {
      CountingLess(catalogue, held, more, intents[..n], g);
    }
  }

  lemma {:induction false} CountingLess(catalogue: Catalogue, held: set<nat>, more: set<nat>, intents: seq<Intent>,
                                        g: Gauge)
    requires NonNegativeIntents(catalogue, intents)
    requires forall i :: 0 <= i < |intents| && Counted(more, intents[i]) ==> Counted(held, intents[i])
    ensures IntentSum(catalogue, more, intents, g) <= IntentSum(catalogue, held, intents, g)
  {
    if intents != [] {
      hide Weight, IntentExposure, Counted;
      var n := |intents| - 1;
      WeightNonNegative(IntentExposure(catalogue, intents[n]), g);
      CountingLess(catalogue, held, more, intents[..n], g);
    }
  }

  lemma PositionAppended(catalogue: Catalogue, positions: seq<Position>, p: Position, g: Gauge)
    ensures PositionSum(catalogue, positions + [p], g)
         == PositionSum(catalogue, positions, g) + PositionWeight(catalogue, p, g)
    ensures Held(positions + [p]) == Held(positions) + (if p.intentId.Some? then {p.intentId.value} else {})
  {
    assert (positions + [p])[..|positions|] == positions;
  }

  lemma {:induction false} PositionRemoved(catalogue: Catalogue, positions: seq<Position>, at: nat, g: Gauge)
    requires at < |positions| && NonNegativePositions(catalogue, positions)
    ensures PositionSum(catalogue, Without(positions, at), g) <= PositionSum(catalogue, positions, g)
  {
    hide Weight, PositionExposure;
    var n := |positions| - 1;
    WeightNonNegative(PositionExposure(catalogue, positions[n]), g);
    WithoutSnoc(positions, at);
    hide Without;
    if at < n {
      PositionRemoved(catalogue, positions[..n], at, g);
    }
  }

  lemma {:induction false} PositionRepriced(catalogue: Catalogue, positions: seq<Position>, at: nat, p: Position,
                                            g: Gauge)
    requires at < |positions| && p.intentId == positions[at].intentId
    ensures PositionSum(catalogue, positions[at := p], g) - PositionSum(catalogue, positions, g)
         == PositionWeight(catalogue, p, g) - PositionWeight(catalogue, positions[at], g)
    ensures Held(positions[at := p]) == Held(positions)
  {
    hide Weight, PositionExposure;
    var n := |positions| - 1;
    if at == n {
      assert positions[at := p][..n] == positions[..n];
    } else {
      assert positions[at := p][..n] == positions[..n][at := p];
      PositionRepriced(catalogue, positions[..n], at, p, g);
    }
  }

  /* ----- Quiet steps ----- */

  /** A quiet step raises the book by no more than it grants. */
  lemma QuietStep(c: Setting, dep: Deployment, x: World, step: Step)
    requires NonNegative(c.catalogue, x.book) && Enabled(dep, c.factor, x, step) && Quiet(c.catalogue, c.g, x, step)
    requires step.Store? ==> Sound(x.workers[step.w].pending)
    ensures Rise(c, x, step) == 0.0
  {
    match step {
      case Store(w, id, price) => QuietStore(c, x, w, id, price);
      case Fill(at, p) => QuietFill(c, dep, x, at, p);
      case Settle(at, id) => QuietLeaving(c, dep, x, step);
      case Leave(at, _) => QuietLeaving(c, dep, x, step);
      case Touch(at) => QuietTouch(c, x, at);
      case Close(at) => QuietClose(c, x, at);
      case Reprice(at, risk) => QuietReprice(c, x, at, risk);
      case _ =>
    }
  }

  lemma QuietStore(c: Setting, x: World, w: nat, id: nat, price: Option<real>)
    requires At(x, w) && x.workers[w].Storing? && x.workers[w].pending != []
    requires Quiet(c.catalogue, c.g, x, Store(w, id, price)) && Sound(x.workers[w].pending)
    ensures Rise(c, x, Store(w, id, price)) == 0.0
  {
    var b, grant := x.book, x.workers[w].pending[0];
    var row := StoredIntent(id, price, grant);
    StoredWeight(c.catalogue, grant, id, price, c.g);
    hide IntentExposure, Weight;
    WeightNonNegative(ExposureOf(grant.plan, grant.decision), c.g);
    assert (b.intents + [row])[..|b.intents|] == b.intents;
  }

  lemma QuietFill(c: Setting, dep: Deployment, x: World, at: nat, p: Position)
    requires NonNegative(c.catalogue, x.book) && Enabled(dep, c.factor, x, Fill(at, p))
    requires Quiet(c.catalogue, c.g, x, Fill(at, p))
    ensures Rise(c, x, Fill(at, p)) == 0.0
  {
    hide IntentExposure, PositionExposure, Weight;
    var b := x.book;
    PositionAppended(c.catalogue, b.positions, p, c.g);
    HoldingMore(c.catalogue, Held(b.positions), Held(b.positions + [p]), b.intents, at, c.g);
  }

  lemma QuietLeaving(c: Setting, dep: Deployment, x: World, step: Step)
    requires NonNegative(c.catalogue, x.book) && Enabled(dep, c.factor, x, step) && Settling(step)
    ensures Rise(c, x, step) == 0.0
  {
    hide Enabled, BookAfter, IntentExposure, PositionSum, IntentSum;
    IntentsAfter(c, dep, x, step);
    WeightNonNegative(IntentExposure(c.catalogue, x.book.intents[step.at]), c.g);
  }

  lemma QuietTouch(c: Setting, x: World, at: nat)
    requires at < |x.book.intents|
    ensures Rise(c, x, Touch(at)) == 0.0
  {
    hide Without, IntentSum, PositionSum;
    TouchKeepsSum(c, Held(x.book.positions), x.book.intents, at);
  }

  lemma QuietClose(c: Setting, x: World, at: nat)
    requires NonNegative(c.catalogue, x.book) && at < |x.book.positions| && NoneReturns(x.book, at)
    ensures Rise(c, x, Close(at)) == 0.0
  {
    hide IntentExposure, PositionExposure, Weight, Counted, Without;
    var b := x.book;
    PositionRemoved(c.catalogue, b.positions, at, c.g);
    CountingLess(c.catalogue, Held(b.positions), Held(Without(b.positions, at)), b.intents, c.g);
  }

  lemma QuietReprice(c: Setting, x: World, at: nat, risk: real)
    requires at < |x.book.positions| && Quiet(c.catalogue, c.g, x, Reprice(at, risk))
    ensures Rise(c, x, Reprice(at, risk)) == 0.0
  {
    hide IntentExposure, PositionExposure, Weight;
    PositionRepriced(c.catalogue, x.book.positions, at, x.book.positions[at].(risk := Some(risk)), c.g);
  }

  /** Adopting a position that belongs to no intent is what a quiet run excludes: it raises the book by the whole
      weight of the position, all of it drift. */
  lemma AdoptionDrifts(c: Setting, dep: Deployment, x: World, p: Position)
    requires Enabled(dep, c.factor, x, Adopt(p)) && p.intentId == None
    ensures
      var y, weight := Next(c, dep, x, Adopt(p)), PositionWeight(c.catalogue, p, c.g);
      && y.book.intents == x.book.intents && BookWeight(c, y.book) == BookWeight(c, x.book) + weight
      && weight >= 0.0 && y.drift == x.drift + weight
  {
    hide IntentExposure, PositionExposure, Weight, Held, PositionSum, IntentSum;
    var b := x.book;
    PositionAppended(c.catalogue, b.positions, p, c.g);
    AdoptedWeight(c, p);
    assert Held(b.positions + [p]) == Held(b.positions) + {} == Held(b.positions);
  }

  lemma AdoptedWeight(c: Setting, p: Position)
    requires Or(p.risk, 0.0) >= 0.0
    ensures PositionWeight(c.catalogue, p, c.g) >= 0.0
  {
    WeightNonNegative(PositionExposure(c.catalogue, p), c.g);
  }

  /* ----- Quiet runs ----- */

  /** Under one lock, in a run of quiet steps, no gauge of the book is ever above both its initial value and
      its cap by more than what the workers missed: in the order of the code, by the weight of the intents
      settled while a worker was between its listings and of the counted ones that its listing left out. */
  lemma {:induction false} QuietRunsKeepBound(c: Setting, dep: Deployment, worlds: seq<World>, steps: seq<Step>, n: nat)
    requires Governed(c) && OneLock(dep)
    requires Run(c, dep, worlds, steps) && Initial(c, dep, worlds[0]) && n < |worlds|
    requires forall i :: 0 <= i < n ==> Quiet(c.catalogue, c.g, worlds[i], steps[i])
    ensures worlds[n].drift == 0.0
    ensures BookWeight(c, worlds[n].book) <= BoundFrom(c, worlds[0]) + worlds[n].missed
    ensures MissesNothing(dep) ==> BookWeight(c, worlds[n].book) <= BoundFrom(c, worlds[0])
  {
    hide BookWeight, Quiet, BoundFrom, Governed, Enabled, Invariant, MissesNothing;
    AdmissionBound(c, dep, worlds, steps, n);
    if MissesNothing(dep) {
      RunMissesNothing(c, dep, worlds, steps, n);
    }
    if n > 0 {
      QuietRunsKeepBound(c, dep, worlds, steps, n - 1);
      AdmissionBound(c, dep, worlds, steps, n - 1);
      InvariantSound(c, dep, BoundFrom(c, worlds[0]), worlds[n - 1]);
      hide Rise, NonNegative, InOrder;
      var x, step := worlds[n - 1], steps[n - 1];
      if step.Store? {
        StoringWhenStored(dep, c.factor, x, step);
      }
      QuietStep(c, dep, x, step);
    }
  }

  lemma StoringWhenStored(dep: Deployment, factor: real, x: World, step: Step)
    requires Enabled(dep, factor, x, step) && step.Store?
    ensures At(x, step.w) && x.workers[step.w].Storing?
  {
  }

  lemma InvariantSound(c: Setting, dep: Deployment, bound: real, x: World)
    requires Invariant(c, dep, bound, x)
    ensures NonNegative(c.catalogue, x.book)
    ensures forall w :: 0 <= w < |x.workers| && x.workers[w].Storing? ==> Sound(x.workers[w].pending)
  {
    hide HoldsLocks, BookWeight, NonNegative, Sound;
    assert forall w :: 0 <= w < |x.workers| ==> WorkerBounded(c, bound, x.book, Slack(x), x.workers[w]);
  }
}
