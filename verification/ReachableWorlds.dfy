/** The worlds that some run leads to. */
module ReachableWorlds {
  import opened BudgetBounds
  import opened StoredBook
  import opened AdmissionProtocol
  import opened AdmissionInvariant

  ghost predicate Leads(c: Setting, dep: Deployment, start: World, x: World, worlds: seq<World>, steps: seq<Step>) {
    Run(c, dep, worlds, steps) && worlds[0] == start && worlds[|steps|] == x
  }

  /** Some run leads from an initial world to x. */
  ghost predicate Reaches(c: Setting, dep: Deployment, start: World, x: World) {
    && Initial(c, dep, start)
    && exists worlds: seq<World>, steps: seq<Step> :: Leads(c, dep, start, x, worlds, steps)
  }

  lemma ReachesStart(c: Setting, dep: Deployment, start: World)
    requires Initial(c, dep, start)
    ensures Reaches(c, dep, start, start)
  {
    hide Initial, Enabled, Next;
    assert Leads(c, dep, start, start, [start], []);
  }

  lemma ReachesNext(c: Setting, dep: Deployment, start: World, x: World, step: Step)
    requires Reaches(c, dep, start, x) && Enabled(dep, c.factor, x, step)
    ensures Reaches(c, dep, start, Next(c, dep, x, step))
  {
    hide Initial, Enabled, Next;
    var worlds: seq<World>, steps: seq<Step> :| Leads(c, dep, start, x, worlds, steps);
    assert Leads(c, dep, start, Next(c, dep, x, step), worlds + [Next(c, dep, x, step)], steps + [step]);
  }

  /** Each lock is in the hands of the one worker past it. */
  lemma LocksHeld(c: Setting, dep: Deployment, start: World, x: World)
    requires Reaches(c, dep, start, x)
    ensures HoldsLocks(dep, x)
  {
    hide Next, Enabled;
    var worlds: seq<World>, steps: seq<Step> :| Leads(c, dep, start, x, worlds, steps);
    for n := 0 to |steps|
      invariant HoldsLocks(dep, worlds[n])
    {
      LocksKept(c, dep, worlds[n], steps[n]);
    }
  }

  lemma LocksKept(c: Setting, dep: Deployment, x: World, step: Step)
    requires HoldsLocks(dep, x) && Enabled(dep, c.factor, x, step)
    ensures HoldsLocks(dep, Next(c, dep, x, step))
  {
    hide OpenRead, Grants, Rise, BookAfter, AllLiftedBy, NothingTorn, Covered, MissedBy, Owned, ElsewhereAfter;
    var y := Next(c, dep, x, step);
    forall w | 0 <= w < |y.workers| && !y.workers[w].Idle?
      ensures LockOf(dep, w) in y.holders && y.holders[LockOf(dep, w)] == w
    {
      assert y.workers[w] == PcAfter(c, dep, x, step, w);
    }
  }

  /** In every run, whatever the locks, each instrument is owned by at most one unclosed intent. */
  lemma OneIntentPerInstrument(c: Setting, dep: Deployment, start: World, x: World)
    requires Reaches(c, dep, start, x)
    ensures OwnedOnce(x)
  {
    hide Next, Enabled, OwnedOnce;
    var worlds: seq<World>, steps: seq<Step> :| Leads(c, dep, start, x, worlds, steps);
    for n := 0 to |steps|
      invariant OwnedOnce(worlds[n])
    {
      OwnedOnceKept(c, dep, worlds[n], steps[n]);
    }
  }
}
