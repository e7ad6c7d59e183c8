/** Exactly which deployments exclude the workers from each other, and exactly which keep the bound on
    the book, over all settings and runs. */
module AdmissionConditions {
  import opened Allocator
  import opened OpenBook
  import opened StoredBook
  import opened AdmissionProtocol
  import opened AdmissionInvariant
  import opened ReachableWorlds
  import opened SampleRuns

  /* ----- Mutual exclusion ----- */

  /** In every run, under any settings, at most one worker is past its lock. */
  ghost predicate Excludes(dep: Deployment) {
    forall c: Setting, start: World, x: World :: Reaches(c, dep, start, x) ==> Exclusive(x)
  }

  /** The workers exclude each other exactly when they contend for one lock: on PostgreSQL always, and
      elsewhere only within one process. */
  lemma MutualExclusionIff(dep: Deployment)
    ensures Excludes(dep) <==> OneLock(dep)
  {
    if OneLock(dep) {
      forall c: Setting, start: World, x: World | Reaches(c, dep, start, x) ensures Exclusive(x) {
        LocksHeld(c, dep, start, x);
        OneHolder(dep, x);
      }
    } else {
      var v, w :| 0 <= v < w < |dep.processes| && dep.processes[v] != dep.processes[w];
      var c, start := SettingFor(1), Start(dep);
      StartReached(c, dep);
      hide Reaches;
      var x := Enters(c, dep, start, start, v);
      var y := Enters(c, dep, start, x, w);
      assert y.workers[v] == Locked && y.workers[w] == Locked;
    }
  }

  /* ----- The bound ----- */

  /** In every run, under any settings, the book stays within its initial weight or its cap, but for
      what entered it otherwise than by grants. */
  ghost predicate KeepsBound(dep: Deployment) {
    forall c: Setting, start: World, x: World :: Governed(c) && Reaches(c, dep, start, x) ==> Within(c, start, x)
  }

  ghost predicate Within(c: Setting, start: World, x: World) {
    BookWeight(c, x.book) <= BoundFrom(c, start) + x.drift
  }

  /** The bound is kept exactly when the workers share one lock, either intents are listed first or no fill
      is settled between the two listings, and no listing leaves out an intent that would be counted. Each
      failure is reached from an empty book. */
  lemma KeepsBoundIff(dep: Deployment)
    requires |dep.processes| > 0
    ensures KeepsBound(dep)
       <==> OneLock(dep) && (dep.intentsFirst || !dep.fillsSettle) && !dep.overflows
  {
    if OneLock(dep) && MissesNothing(dep) {
      forall c: Setting, start: World, x: World | Governed(c) && Reaches(c, dep, start, x) ensures Within(c, start, x) {
        AdmissionSafety(c, dep, start, x);
      }
    } else {
      var k: nat, x;
      if !OneLock(dep) {
        k := 1;
        x := TwoLocksOverspend(dep);
      } else if dep.overflows {
        k := LIST_LIMIT + 1;
        x := OverflowOverspends(dep);
      } else {
        k := 1;
        x := TornReadOverspends(dep);
      }
      PastBound(k, dep, x);
    }
  }

  /** In a deployment that misses nothing the book stays within its initial weight or its cap, but for what
      entered it otherwise. */
  lemma AdmissionSafety(c: Setting, dep: Deployment, start: World, x: World)
    requires OneLock(dep) && MissesNothing(dep) && Governed(c) && Reaches(c, dep, start, x)
    ensures BookWeight(c, x.book) <= BoundFrom(c, start) + x.drift
  {
    hide Governed, Initial, BookWeight, BoundFrom, OneLock, MissesNothing;
    var worlds: seq<World>, steps: seq<Step> :| Leads(c, dep, start, x, worlds, steps);
    AdmissionBound(c, dep, worlds, steps, |steps|);
    RunMissesNothing(c, dep, worlds, steps, |steps|);
  }

  lemma PastBound(k: nat, dep: Deployment, x: World)
    requires k > 0 && Overspent(k, dep, x)
    ensures Governed(SettingFor(k)) && !Within(SettingFor(k), Start(dep), x)
  {
    assert Weighs(map[], Book([], []), Risk(Portfolio)) == 0.0;
    hide Weighs, Reaches;
  }
}
