/** Runs of refreshes, acknowledgements and resolutions that start from an empty table: when every refresh
    leaves exactly the current conditions active, and a run in which one does not. */
module AlertRuns {
  import opened Basics
  import opened Alerts

  /* ----- Runs in which every refresh matches ----- */

  /** The event is as the service makes it, a refresh completes, and an acknowledgement finds its alert active. */
  ghost predicate Disciplined(rows: seq<Alert>, e: Event)
    requires Valid(rows)
  {
    && Receivable(e)
    && (e.Refreshing? ==> Refreshed(rows, e.cs, e.clock).handled == |e.cs|)
    && (e.Acknowledging? && e.id < |rows| ==> Active(rows[e.id]))
  }

  /** A refresh has distinct candidates, at most as many as the caller asks for. */
  ghost predicate Receivable(e: Event) {
    e.Refreshing? ==> DistinctKeys(e.cs) && |e.cs| <= CANDIDATE_LIMIT
  }

  function ActiveCount(rows: seq<Alert>): nat { StaleCount(rows, {}) }

  lemma {:induction false} StaleAmongActive(rows: seq<Alert>, keys: set<string>)
    ensures StaleCount(rows, keys) <= ActiveCount(rows)
  {
    if rows != [] {
      StaleAmongActive(rows[..|rows| - 1], keys);
    }
  }

  lemma {:induction false} ActiveAmongKeyed(rows: seq<Alert>, keys: set<string>)
    requires forall i :: 0 <= i < |rows| && Active(rows[i]) ==> rows[i].key in keys
    ensures ActiveCount(rows) <= KeyedCount(rows, keys)
  {
    if rows != [] {
      ActiveAmongKeyed(rows[..|rows| - 1], keys);
    }
  }

  lemma {:induction false} ChangeCount(rows: seq<Alert>, i: nat, a: Alert)
    requires i < |rows| && (Active(a) ==> Active(rows[i]))
    ensures ActiveCount(rows[i := a]) <= ActiveCount(rows)
  {
    var n := |rows| - 1;
    if i < n {
      assert rows[i := a][..n] == rows[..n][i := a];
      ChangeCount(rows[..n], i, a);
    } else {
      assert rows[i := a][..n] == rows[..n];
    }
  }

  /** When the active keys are these, there are at most so many active alerts. */
  lemma MatchedCount(rows: seq<Alert>, keys: set<string>)
    requires Valid(rows) && ActiveKeysAre(rows, keys)
    ensures ActiveCount(rows) <= |keys|
  {
    forall i | 0 <= i < |rows| && Active(rows[i]) ensures rows[i].key in keys {
      assert HasActive(rows, rows[i].key);
    }
    forall k | k in keys ensures HasKey(rows, k) {
      assert HasActive(rows, k);
    }
    hide ActiveCount, KeyedCount, ActiveKeysAre;
    ActiveAmongKeyed(rows, keys);
    KeyedAll(rows, keys);
  }

  lemma DisciplinedRefresh(rows: seq<Alert>, e: Event)
    requires Valid(rows) && Disciplined(rows, e) && e.Refreshing? && ActiveCount(rows) <= CANDIDATE_LIMIT
    ensures ActiveKeysAre(After(rows, e), Keys(e.cs)) && ActiveCount(After(rows, e)) <= CANDIDATE_LIMIT
  {
    hide Refreshed, Keys, ActiveCount, ActiveKeysAre, Valid, DistinctKeys;
    StaleAmongActive(rows, Keys(e.cs));
    MatchesWhenFits(rows, e.cs, e.clock);
    DistinctCount(e.cs);
    MatchedCount(After(rows, e), Keys(e.cs));
  }

  lemma DisciplinedStep(rows: seq<Alert>, e: Event)
    requires Valid(rows) && Disciplined(rows, e) && ActiveCount(rows) <= CANDIDATE_LIMIT
    ensures ActiveCount(After(rows, e)) <= CANDIDATE_LIMIT
    ensures e.Refreshing? ==> ActiveKeysAre(After(rows, e), Keys(e.cs))
  {
    match e {
      case Refreshing(_, _) => DisciplinedRefresh(rows, e);
      case Acknowledging(id, actor, at, updatedAt) =>
        if id < |rows| {
          ChangeCount(rows, id, Acknowledge(rows[id], actor, at, updatedAt));
        }
      case Resolving(id, actor, at, updatedAt) =>
        if id < |rows| {
          ChangeCount(rows, id, Resolve(rows[id], actor, at, updatedAt));
        }
    }
  }

  ghost predicate DisciplinedRun(events: seq<Event>) {
    forall n :: 0 <= n < |events| ==> Disciplined(Run(events[..n]), events[n])
  }

  lemma RunAt(events: seq<Event>, n: nat)
    requires n < |events|
    ensures Run(events[..n + 1]) == After(Run(events[..n]), events[n])
  {
    assert events[..n + 1][..n] == events[..n];
  }

  /** In every run in which refreshes complete and only active alerts are acknowledged, every refresh leaves
      exactly its candidates' keys active, however many alerts are stored and whatever the clock. */
  lemma {:induction false} EveryRefreshMatches(events: seq<Event>, n: nat)
    requires DisciplinedRun(events) && n < |events|
    ensures events[n].Refreshing? ==> ActiveKeysAre(Run(events[..n + 1]), Keys(events[n].cs))
    ensures ActiveCount(Run(events[..n + 1])) <= CANDIDATE_LIMIT
  {
    hide After, Disciplined, ActiveKeysAre, ActiveCount, Keys;
    RunAt(events, n);
    if n > 0 {
      EveryRefreshMatches(events, n - 1);
    } else {
      NoneActive();
    }
    assert Disciplined(Run(events[..n]), events[n]);
    hide Run;
    DisciplinedStep(Run(events[..n]), events[n]);
  }

  lemma NoneActive()
    ensures Run([]) == [] && ActiveCount([]) == 0
  {
  }

  /* ----- A run in which one does not ----- */

  const BLANK := Content("warning", "", "", 0, [], [], [])

  function Name(n: nat): (name: string)
    ensures |name| == n
  {
    if n == 0 then "" else Name(n - 1) + "a"
  }

  /** m new conditions, named from n on. */
  function Batch(n: nat, m: nat): (cs: seq<Candidate>)
    ensures |cs| == m && forall i :: 0 <= i < m ==> cs[i] == Candidate(Name(n + i), BLANK, None, None)
  {
    seq(m, i requires 0 <= i < m => Candidate(Name(n + i), BLANK, None, None))
  }

  lemma NamesDiffer(i: nat, j: nat)
    requires i != j
    ensures Name(i) != Name(j)
  {
  }

  lemma BatchDistinct(n: nat, m: nat)
    ensures DistinctKeys(Batch(n, m))
    ensures forall i :: 0 <= i < m ==> Batch(n, m)[i].key == Name(n + i)
  {
    hide Name;
    forall i, j | 0 <= i < j < m ensures Batch(n, m)[i].key != Batch(n, m)[j].key {
      NamesDiffer(n + i, n + j);
    }
  }

  /** n alerts, named in order, of which the first `back` and those from `low` on are active; none changed
      after time t. */
  ghost predicate Layout(rows: seq<Alert>, n: nat, back: nat, low: nat, t: int) {
    && |rows| == n && Valid(rows)
    && forall i :: 0 <= i < n ==>
         && rows[i].key == Name(i) && rows[i].updatedAt <= t
         && (Active(rows[i]) <==> i < back || i >= low)
  }

  lemma BatchIsNew(rows: seq<Alert>, n: nat, back: nat, low: nat, t: int, m: nat, k: nat)
    requires Layout(rows, n, back, low, t) && k < m
    ensures !HasKey(rows, Batch(n, m)[k].key)
  {
    hide Name;
    forall i | 0 <= i < n ensures rows[i].key != Name(n + k) {
      NamesDiffer(i, n + k);
    }
  }

  /** A clock that stands still. */
  function Stopped(t: int): nat -> int { _ => t }

  /** New conditions are appended in order. */
  function Appended(rows: seq<Alert>, cs: seq<Candidate>, t: int): (r: seq<Alert>)
    ensures |r| == |rows| + |cs|
  {
    rows + seq(|cs|, i requires 0 <= i < |cs| => Created(cs[i], |rows| + i, t))
  }

  lemma {:induction false} NewUpserts(rows: seq<Alert>, known: map<string, nat>, cs: seq<Candidate>, t: int)
    requires DistinctKeys(cs) && forall k :: k in known ==> known[k] < |rows|
    requires forall i :: 0 <= i < |cs| ==> cs[i].key !in known && !HasKey(rows, cs[i].key)
    ensures UpsertAll(rows, known, cs, Stopped(t)) == Upserted(Appended(rows, cs, t), |cs|)
  {
    if cs == [] {
      assert Appended(rows, cs, t) == rows;
    } else {
      var n := |cs| - 1;
      var earlier := Appended(rows, cs[..n], t);
      NewUpserts(rows, known, cs[..n], t);
      NewKey(rows, cs, t);
      hide HasKey, Appended;
    }
  }

  lemma NewKey(rows: seq<Alert>, cs: seq<Candidate>, t: int)
    requires cs != [] && DistinctKeys(cs) && !HasKey(rows, cs[|cs| - 1].key)
    ensures
      var n, earlier := |cs| - 1, Appended(rows, cs[..|cs| - 1], t);
      !HasKey(earlier, cs[n].key) && Appended(rows, cs, t) == earlier + [Created(cs[n], |earlier|, t)]
  {
    var n, earlier := |cs| - 1, Appended(rows, cs[..|cs| - 1], t);
    forall i | 0 <= i < |earlier| ensures earlier[i].key != cs[n].key {
      assert i < |rows| ==> earlier[i] == rows[i];
    }
  }

  lemma {:induction false} LapseStamps(rows: seq<Alert>, listed: seq<Alert>, keys: set<string>, clock: nat -> int,
                                       s: nat, t: int)
    requires (forall a :: a in listed ==> a.id < |rows|) && forall n :: clock(n) <= t
    requires forall i :: 0 <= i < |rows| ==> rows[i].updatedAt <= t
    ensures forall i :: 0 <= i < |rows| ==> LapseAll(rows, listed, keys, clock, s)[i].updatedAt <= t
  {
    if listed != [] {
      assert listed == listed[..|listed| - 1] + [listed[|listed| - 1]];
      LapseStamps(rows, listed[..|listed| - 1], keys, clock, s, t);
    }
  }

  lemma {:induction false} FewStale(rows: seq<Alert>, low: nat, keys: set<string>)
    requires low <= |rows| && forall i :: 0 <= i < low ==> !Active(rows[i])
    ensures StaleCount(rows, keys) <= |rows| - low
  {
    if |rows| > low {
      FewStale(rows[..|rows| - 1], low, keys);
    } else {
      NoStale(rows, keys);
    }
  }

  lemma {:induction false} NoStale(rows: seq<Alert>, keys: set<string>)
    requires forall i :: 0 <= i < |rows| ==> !Active(rows[i])
    ensures StaleCount(rows, keys) == 0
  {
    if rows != [] {
      NoStale(rows[..|rows| - 1], keys);
    }
  }

  lemma {:induction false} AllStale(rows: seq<Alert>, keys: set<string>)
    requires forall i :: 0 <= i < |rows| ==> Stale(rows[i], keys)
    ensures StaleCount(rows, keys) == |rows|
  {
    if rows != [] {
      AllStale(rows[..|rows| - 1], keys);
    }
  }

  ghost function Refresh(n: nat, m: nat, t: int): Event { Refreshing(Batch(n, m), Stopped(t)) }

  /** What a refresh with new conditions stores before anything lapses. */
  lemma NewRefresh(rows: seq<Alert>, n: nat, back: nat, low: nat, t: int, m: nat, later: int)
    requires Layout(rows, n, back, low, t)
    ensures Upserts(rows, Batch(n, m), Stopped(later)) == Upserted(Appended(rows, Batch(n, m), later), m)
    ensures Refreshed(rows, Batch(n, m), Stopped(later)).handled == m
  {
    BatchDistinct(n, m);
    var cs := Batch(n, m);
    ListingMembers(rows);
    IndexLeadsBack(Listing(rows), rows);
    forall i | 0 <= i < m ensures cs[i].key !in Index(Listing(rows)) && !HasKey(rows, cs[i].key) {
      BatchIsNew(rows, n, back, low, t, m, i);
    }
    hide Listing, Index, HasKey, Batch, Layout, UpsertAll, LapseAll, Appended;
    NewUpserts(rows, Index(Listing(rows)), cs, later);
  }

  /** Such a refresh leaves the new conditions active and resolves all others. */
  lemma RefreshLayout(rows: seq<Alert>, n: nat, low: nat, t: int, m: nat)
    requires Layout(rows, n, 0, low, t) && low <= n && m + (n - low) <= LIST_LIMIT
    ensures Layout(After(rows, Refresh(n, m, t + 1)), n + m, 0, n, t + 1)
  {
    assert Valid(rows);
    hide *;
    var up, after := Appended(rows, Batch(n, m), t + 1), After(rows, Refresh(n, m, t + 1));
    RefreshMatched(rows, n, low, t, m);
    AppendedRows(rows, n, low, t, m);
    RefreshLapses(rows, n, low, t, m);
    LapsedRows(up, after, n, m, t + 1);
    LayoutOf(after, n, m, t + 1);
  }

  lemma LayoutOf(rows: seq<Alert>, n: nat, m: nat, t: int)
    requires Valid(rows) && |rows| == n + m && ActiveKeysAre(rows, Keys(Batch(n, m)))
    requires forall i :: 0 <= i < n + m ==> rows[i].key == Name(i) && rows[i].updatedAt <= t
    ensures Layout(rows, n + m, 0, n, t)
  {
    hide Name, Batch, Valid, ActiveKeysAre;
    forall i | 0 <= i < n + m ensures Active(rows[i]) <==> i >= n {
      ActiveIffNamed(rows, Batch(n, m), n, m, i);
    }
  }

  lemma RefreshMatched(rows: seq<Alert>, n: nat, low: nat, t: int, m: nat)
    requires Layout(rows, n, 0, low, t) && low <= n && m + (n - low) <= LIST_LIMIT
    ensures ActiveKeysAre(After(rows, Refresh(n, m, t + 1)), Keys(Batch(n, m)))
  {
    NewRefresh(rows, n, 0, low, t, m, t + 1);
    BatchDistinct(n, m);
    FewStale(rows, low, Keys(Batch(n, m)));
    hide Name, Refreshed, Batch, Stopped, ActiveKeysAre, StaleCount;
    MatchesWhenFits(rows, Batch(n, m), Stopped(t + 1));
  }

  /** The rows before anything lapses. */
  lemma AppendedRows(rows: seq<Alert>, n: nat, low: nat, t: int, m: nat)
    requires Layout(rows, n, 0, low, t)
    ensures
      var up := Appended(rows, Batch(n, m), t + 1);
      |up| == n + m && forall i :: 0 <= i < n + m ==> up[i].key == Name(i) && up[i].updatedAt <= t + 1
  {
    var up := Appended(rows, Batch(n, m), t + 1);
    hide Name, Valid;
    forall i | 0 <= i < n + m ensures up[i].key == Name(i) && up[i].updatedAt <= t + 1 {
      assert i < n ==> up[i] == rows[i];
      assert i >= n ==> up[i] == Created(Batch(n, m)[i - n], i, t + 1);
    }
  }

  lemma RefreshLapses(rows: seq<Alert>, n: nat, low: nat, t: int, m: nat)
    requires Layout(rows, n, 0, low, t)
    ensures
      var up, after := Appended(rows, Batch(n, m), t + 1), After(rows, Refresh(n, m, t + 1));
      && Valid(up) && (forall a :: a in Listing(ActiveRows(up)) ==> a.id < |up|) && Valid(after)
      && after == LapseAll(up, Listing(ActiveRows(up)), Keys(Batch(n, m)), Stopped(t + 1), m)
      && |after| == |up|
  {
    var up := Appended(rows, Batch(n, m), t + 1);
    NewRefresh(rows, n, 0, low, t, m, t + 1);
    hide Name, Layout, Upserts, Listing, ActiveRows, Appended, Batch, Stopped, Keys, Valid, LapseAll;
    ListedIds(up);
  }

  lemma LapsedRows(up: seq<Alert>, after: seq<Alert>, n: nat, m: nat, t: int)
    requires Valid(up) && |up| == n + m && forall a :: a in Listing(ActiveRows(up)) ==> a.id < |up|
    requires forall i :: 0 <= i < n + m ==> up[i].key == Name(i) && up[i].updatedAt <= t
    requires after == LapseAll(up, Listing(ActiveRows(up)), Keys(Batch(n, m)), Stopped(t), m)
    ensures forall i :: 0 <= i < n + m ==> after[i].key == Name(i) && after[i].updatedAt <= t
  {
    ListedIds(up);
    hide Name, Listing, ActiveRows, Keys, Batch;
    LapseStamps(up, Listing(ActiveRows(up)), Keys(Batch(n, m)), Stopped(t), m, t);
    forall i | 0 <= i < n + m ensures after[i].key == Name(i) {
      LapseAllRows(up, Listing(ActiveRows(up)), Keys(Batch(n, m)), Stopped(t), m, i);
    }
  }

  lemma ActiveIffNamed(rows: seq<Alert>, cs: seq<Candidate>, n: nat, m: nat, i: nat)
    requires Valid(rows) && |rows| == n + m && ActiveKeysAre(rows, Keys(cs)) && cs == Batch(n, m) && i < n + m
    requires forall j :: 0 <= j < n + m ==> rows[j].key == Name(j)
    ensures Active(rows[i]) <==> i >= n
  {
    hide Name;
    assert Active(rows[i]) ==> HasActive(rows, Name(i));
    if i < n {
      NotInBatch(i, n, m);
    } else {
      assert cs[i - n] in cs && cs[i - n].key == Name(i);
      assert HasActive(rows, Name(i));
    }
  }

  function Ack(i: nat): Event { Acknowledging(i, "operator", 4, 4) }

  /** Acknowledging the next resolved alert makes it active. */
  lemma AckLayout(rows: seq<Alert>, n: nat, back: nat, low: nat)
    requires Layout(rows, n, back, low, 4) && back < low <= n
    ensures Layout(After(rows, Ack(back)), n, back + 1, low, 4)
  {
    hide Name;
  }

  function Acks(n: nat): seq<Event> { seq(n, i requires 0 <= i < n => Ack(i)) }

  /** Three refreshes, each with new conditions only, and an acknowledgement of every resolved alert. */
  ghost function History(acks: nat): seq<Event> {
    [Refresh(0, 200, 1), Refresh(200, 200, 2), Refresh(400, 99, 3)] + Acks(acks)
  }

  lemma RunSnoc(events: seq<Event>, e: Event)
    ensures Run(events + [e]) == After(Run(events), e)
  {
    assert (events + [e])[..|events|] == events;
  }

  lemma RefreshesLayout()
    ensures Layout(Run(History(0)), 499, 0, 400, 3)
  {
    hide Layout, After, Run;
    var first, second, third := Refresh(0, 200, 1), Refresh(200, 200, 2), Refresh(400, 99, 3);
    EmptyLayout();
    RunSnoc([], first);
    RunSnoc([first], second);
    RunSnoc([first, second], third);
    assert [] + [first] == [first] && [first] + [second] == [first, second];
    assert [first, second] + [third] == History(0);
    RefreshLayout(Run([]), 0, 0, 0, 200);
    RefreshLayout(Run([first]), 200, 0, 1, 200);
    RefreshLayout(Run([first, second]), 400, 200, 2, 99);
  }

  lemma EmptyLayout()
    ensures Layout(Run([]), 0, 0, 0, 0)
  {
  }

  lemma {:induction false} HistoryLayout(acks: nat)
    requires acks <= 400
    ensures Layout(Run(History(acks)), 499, acks, 400, 4)
  {
    hide After, Run;
    if acks == 0 {
      RefreshesLayout();
    } else {
      HistoryLayout(acks - 1);
      assert History(acks) == History(acks - 1) + [Ack(acks - 1)];
      RunSnoc(History(acks - 1), Ack(acks - 1));
      hide Layout, History;
      AckLayout(Run(History(acks - 1)), 499, acks - 1, 400);
    }
  }

  lemma HistoryReceivable(n: nat)
    requires n < |History(400)|
    ensures Receivable(History(400)[n])
  {
    BatchDistinct(0, 200);
    BatchDistinct(200, 200);
    BatchDistinct(400, 99);
    hide Batch;
  }

  /** Fewer than 500 stored alerts do not suffice: after this run all 499 are active, and a completed refresh
      with two new conditions leaves a stale one active. */
  lemma StaleAlertSurvives()
    ensures
      var rows, e := Run(History(400)), Refresh(499, 2, 5);
      && |rows| == 499 < LIST_LIMIT
      && (forall n :: 0 <= n < |History(400)| ==> Receivable(History(400)[n])) && Receivable(e)
      && Refreshed(rows, e.cs, e.clock).handled == |e.cs|
      && !ActiveKeysAre(After(rows, e), Keys(e.cs))
  {
    var rows, cs := Run(History(400)), Batch(499, 2);
    HistoryLayout(400);
    forall n: nat | n < |History(400)| ensures Receivable(History(400)[n]) {
      HistoryReceivable(n);
    }
    BatchDistinct(499, 2);
    NewRefresh(rows, 499, 400, 400, 4, 2, 5);
    hide Run, History, Name, Refreshed, StaleCount, ActiveKeysAre;
    forall i | 0 <= i < 499 ensures Stale(rows[i], Keys(cs)) {
      NotInBatch(i, 499, 2);
    }
    AllStale(rows, Keys(cs));
    RefreshMatchesIff(rows, cs, Stopped(5), 5);
  }

  lemma NotInBatch(i: nat, n: nat, m: nat)
    requires i < n
    ensures Name(i) !in Keys(Batch(n, m))
  {
    hide Name;
    forall j: nat | j < m ensures Batch(n, m)[j].key != Name(i) {
      NamesDiffer(n + j, i);
    }
  }
}
