/** Alerts that become active again: by a refresh, which clears the resolution mark and counts a
    recurrence, or by an acknowledgement, which does neither. */
module AlertMarks {
  import opened Alerts

  /* ----- One row through one refresh ----- */

  /** Candidates leave a row alone, or see it again under one of their keys. */
  ghost predicate Seen(a: Alert, b: Alert, keys: set<string>) {
    b == a || (a.key in keys && b.key == a.key && Active(b) && SeenMarks(a, b))
  }

  predicate SeenMarks(a: Alert, b: Alert) {
    if Active(a) then b.resolvedAt == a.resolvedAt && b.recurrence == a.recurrence
    else b.resolvedAt.None? && b.recurrence == a.recurrence + 1
  }

  ghost predicate AllSeen(before: seq<Alert>, after: seq<Alert>, keys: set<string>) {
    && |before| <= |after|
    && (forall i :: 0 <= i < |before| ==> Seen(before[i], after[i], keys))
    && (forall i :: |before| <= i < |after| ==> Fresh(after[i]))
  }

  ghost predicate Fresh(a: Alert) { Active(a) && a.resolvedAt.None? && a.recurrence == 1 }

  lemma SeesOne(rows: seq<Alert>, known: map<string, nat>, c: Candidate, now: int, keys: set<string>)
    requires Indexes(known, rows) && c.key in keys
    ensures Upsert(rows, known, c, now).Some? ==> AllSeen(rows, Upsert(rows, known, c, now).value, keys)
  {
    hide HasKey;
  }

  lemma SeenTwice(first: seq<Alert>, second: seq<Alert>, third: seq<Alert>, keys: set<string>)
    requires AllSeen(first, second, keys) && AllSeen(second, third, keys)
    ensures AllSeen(first, third, keys)
  {
    forall i | |first| <= i < |third| ensures Fresh(third[i]) {
      if i < |second| {
        assert Fresh(second[i]) && Seen(second[i], third[i], keys);
      }
    }
    forall i | 0 <= i < |first| ensures Seen(first[i], third[i], keys) {
      assert Seen(first[i], second[i], keys) && Seen(second[i], third[i], keys);
    }
  }

  lemma {:induction false} UpsertAllSees(rows: seq<Alert>, known: map<string, nat>, cs: seq<Candidate>,
                                         clock: nat -> int, keys: set<string>)
    requires Valid(rows) && Indexes(known, rows) && forall c :: c in cs ==> c.key in keys
    requires forall k :: k in known ==> known[k] < |rows|
    ensures AllSeen(rows, UpsertAll(rows, known, cs, clock).rows, keys)
  {
    if cs != [] {
      var n := |cs| - 1;
      assert cs[n] in cs;
      UpsertAllSees(rows, known, cs[..n], clock, keys);
      UpsertAllKeeps(rows, known, cs[..n], clock, keys);
      var earlier := UpsertAll(rows, known, cs[..n], clock).rows;
      hide Upsert, Valid, Indexes, AllSeen, Extends;
      SeesOne(earlier, known, cs[n], clock(n), keys);
      if Upsert(earlier, known, cs[n], clock(n)).Some? {
        SeenTwice(rows, earlier, Upsert(earlier, known, cs[n], clock(n)).value, keys);
      }
    }
  }

  /** Through a refresh a row keeps its marks, or is resolved, or comes back from a resolution: then the
      mark is gone and a recurrence is counted. */
  ghost predicate Refreshes(a: Alert, b: Alert) {
    if Active(a) then b.recurrence == a.recurrence && (Active(b) ==> b.resolvedAt == a.resolvedAt)
    else if Active(b) then b.resolvedAt.None? && b.recurrence == a.recurrence + 1
    else b.recurrence == a.recurrence
  }

  lemma RefreshMoves(rows: seq<Alert>, cs: seq<Candidate>, clock: nat -> int)
    requires Valid(rows)
    ensures
      var after := Refreshed(rows, cs, clock).rows;
      && |rows| <= |after|
      && (forall i :: 0 <= i < |rows| ==> Refreshes(rows[i], after[i]))
      && (forall i :: |rows| <= i < |after| ==>
            after[i].recurrence == 1 && (Active(after[i]) ==> after[i].resolvedAt.None?))
  {
    hide UpsertAll, LapseAll, Listing, ActiveRows, Keys, Index;
    var up, keys := Upserts(rows, cs, clock), Keys(cs);
    UpsertsSee(rows, cs, clock);
    if up.handled == |cs| {
      ListedIds(up.rows);
      var listed := Listing(ActiveRows(up.rows));
      var after := LapseAll(up.rows, listed, keys, clock, |cs|);
      forall i | 0 <= i < |up.rows| ensures Lapses(up.rows[i], after[i], keys) {
        LapseAllRows(up.rows, listed, keys, clock, |cs|, i);
      }
      hide Upserts;
      forall i | 0 <= i < |rows| ensures Refreshes(rows[i], after[i]) {
        assert Seen(rows[i], up.rows[i], keys);
      }
    } else {
      forall i | 0 <= i < |rows| ensures Refreshes(rows[i], up.rows[i]) {
        assert Seen(rows[i], up.rows[i], keys);
      }
    }
  }

  ghost predicate Lapses(a: Alert, b: Alert, keys: set<string>) {
    b == a || (a.key !in keys && Active(a) && !Active(b) && b.recurrence == a.recurrence)
  }

  lemma UpsertsSee(rows: seq<Alert>, cs: seq<Candidate>, clock: nat -> int)
    requires Valid(rows)
    ensures AllSeen(rows, Upserts(rows, cs, clock).rows, Keys(cs))
  {
    hide Valid, Listing, Index, AllSeen;
    ListingMembers(rows);
    IndexLeadsBack(Listing(rows), rows);
    KeysContain(cs);
    UpsertAllSees(rows, Index(Listing(rows)), cs, clock, Keys(cs));
  }

  /* ----- Runs ----- */

  /** What one event does to a row that is there before it. */
  ghost predicate Moves(rows: seq<Alert>, e: Event, i: nat)
    requires Valid(rows) && i < |rows| <= |After(rows, e)|
  {
    var a, b := rows[i], After(rows, e)[i];
    match e
    case Refreshing(_, _) => Refreshes(a, b)
    case Acknowledging(id, _, _, _) =>
      && b.recurrence == a.recurrence && b.resolvedAt == a.resolvedAt
      && (if id == i then Active(b) else b.state == a.state)
    case Resolving(id, _, _, _) =>
      && b.recurrence == a.recurrence
      && (if id == i then !Active(b) else b.state == a.state && b.resolvedAt == a.resolvedAt)
  }

  lemma EventMoves(rows: seq<Alert>, e: Event)
    requires Valid(rows)
    ensures |rows| <= |After(rows, e)|
    ensures forall i :: 0 <= i < |rows| ==> Moves(rows, e, i)
    ensures forall i :: |rows| <= i < |After(rows, e)| ==>
        After(rows, e)[i].recurrence == 1 && (Active(After(rows, e)[i]) ==> After(rows, e)[i].resolvedAt.None?)
  {
    hide Refreshed, Valid;
    if e.Refreshing? {
      RefreshMoves(rows, e.cs, e.clock);
    }
  }

  /** The row is there and resolved after the first n events. */
  ghost predicate ResolvedAt(events: seq<Event>, n: nat, i: nat)
    requires n <= |events|
  {
    i < |Run(events[..n])| && !Active(Run(events[..n])[i])
  }

  predicate AcknowledgesRow(e: Event, i: nat) { e.Acknowledging? && e.id == i }

  /** Since it was last resolved, the row was acknowledged while it was resolved; nothing, a refresh
      included, made it active before that. */
  ghost predicate AcknowledgedBack(events: seq<Event>, i: nat) {
    exists j :: 0 <= j < |events| && BackBy(events, i, j)
  }

  ghost predicate BackBy(events: seq<Event>, i: nat, j: nat)
    requires j < |events|
  {
    && AcknowledgesRow(events[j], i) && ResolvedAt(events, j, i)
    && forall n :: j < n <= |events| ==> !ResolvedAt(events, n, i)
  }

  lemma Prefix(events: seq<Event>, n: nat)
    requires n < |events|
    ensures events[..|events| - 1][..n] == events[..n]
  {
  }

  lemma EarlierAt(events: seq<Event>, n: nat, i: nat)
    requires n < |events|
    ensures ResolvedAt(events[..|events| - 1], n, i) <==> ResolvedAt(events, n, i)
  {
    Prefix(events, n);
  }

  lemma LastAt(events: seq<Event>, i: nat)
    ensures ResolvedAt(events, |events|, i) <==> i < |Run(events)| && !Active(Run(events)[i])
  {
    assert events[..|events|] == events;
  }

  /** The last event brings an acknowledged resolved row back; an earlier one counts as long as the row
      has stayed active. */
  lemma BackByLast(events: seq<Event>, i: nat)
    requires events != [] && !ResolvedAt(events, |events|, i)
    ensures
      var n := |events| - 1;
      AcknowledgedBack(events, i) <==>
      if ResolvedAt(events, n, i) then AcknowledgesRow(events[n], i) else AcknowledgedBack(events[..n], i)
  {
    hide ResolvedAt;
    var n := |events| - 1;
    if ResolvedAt(events, n, i) {
      if AcknowledgesRow(events[n], i) {
        assert BackBy(events, i, n);
      }
    } else {
      forall j | 0 <= j < n ensures BackBy(events, i, j) <==> BackBy(events[..n], i, j) {
        SameBack(events, i, j);
      }
      if AcknowledgedBack(events[..n], i) {
        var j :| 0 <= j < n && BackBy(events[..n], i, j);
        assert BackBy(events, i, j);
      }
    }
  }

  lemma SameBack(events: seq<Event>, i: nat, j: nat)
    requires j < |events| - 1 && !ResolvedAt(events, |events|, i)
    ensures BackBy(events, i, j) <==> BackBy(events[..|events| - 1], i, j)
  {
    hide ResolvedAt;
    var earlier := events[..|events| - 1];
    assert earlier[j] == events[j];
    forall n | 0 <= n <= |earlier| ensures ResolvedAt(earlier, n, i) <==> ResolvedAt(events, n, i) {
      EarlierAt(events, n, i);
    }
    if BackBy(events, i, j) {
      forall n | j < n <= |earlier| ensures !ResolvedAt(earlier, n, i) {
        assert !ResolvedAt(events, n, i);
      }
    }
    if BackBy(earlier, i, j) {
      forall n | j < n <= |events| ensures !ResolvedAt(events, n, i) {
        if n < |events| {
          assert !ResolvedAt(earlier, n, i);
        }
      }
    }
  }

  lemma NotThereYet(events: seq<Event>, i: nat)
    requires i >= |Run(events)|
    ensures !AcknowledgedBack(events, i)
  {
    forall j | 0 <= j <= |events| ensures !ResolvedAt(events, j, i) {
      RowsStay(events, j);
    }
    hide ResolvedAt;
  }

  lemma {:induction false} RowsStay(events: seq<Event>, n: nat)
    requires n <= |events|
    ensures |Run(events[..n])| <= |Run(events)|
  {
    if n < |events| {
      hide After;
      RowsStay(events[..|events| - 1], n);
      Prefix(events, n);
      EventMoves(Run(events[..|events| - 1]), events[|events| - 1]);
    } else {
      assert events[..n] == events;
    }
  }

  /** Over every run an active alert carries a resolution mark exactly when, since it was last resolved,
      it was made active by an acknowledgement rather than by a refresh. */
  lemma {:induction false} ResolutionMarkIff(events: seq<Event>, i: nat)
    requires i < |Run(events)| && Active(Run(events)[i])
    ensures Run(events)[i].resolvedAt.Some? <==> AcknowledgedBack(events, i)
  {
    hide After, AcknowledgedBack, Refreshes;
    var n := |events| - 1;
    var rows, e := Run(events[..n]), events[n];
    EventMoves(rows, e);
    LastAt(events, i);
    BackByLast(events, i);
    if i >= |rows| {
      NotThereYet(events[..n], i);
    } else {
      RunMarks(events[..n]);
      assert Marked(rows[i]) && Moves(rows, e, i);
      MarkMoves(rows, e, i);
      if Active(rows[i]) {
        ResolutionMarkIff(events[..n], i);
      }
    }
  }

  lemma MarkMoves(rows: seq<Alert>, e: Event, i: nat)
    requires Valid(rows) && i < |rows| <= |After(rows, e)| && Marked(rows[i]) && Moves(rows, e, i)
    requires Active(After(rows, e)[i])
    ensures
      var b := After(rows, e)[i];
      if Active(rows[i]) then b.resolvedAt == rows[i].resolvedAt else b.resolvedAt.Some? <==> AcknowledgesRow(e, i)
  {
    hide After;
  }

  /* ----- Recurrences ----- */

  /** The event makes the row active that was resolved before it. */
  ghost predicate Leaves(rows: seq<Alert>, e: Event, i: nat)
    requires Valid(rows)
  {
    i < |rows| && i < |After(rows, e)| && !Active(rows[i]) && Active(After(rows, e)[i])
  }

  /** How often the row became active again. */
  ghost function TimesBack(events: seq<Event>, i: nat): nat {
    if events == [] then 0
    else
      var n := |events| - 1;
      TimesBack(events[..n], i) + (if Leaves(Run(events[..n]), events[n], i) then 1 else 0)
  }

  /** How often it was acknowledged while it was resolved. */
  ghost function TimesAcknowledgedBack(events: seq<Event>, i: nat): nat {
    if events == [] then 0
    else
      var n := |events| - 1;
      TimesAcknowledgedBack(events[..n], i)
      + (if AcknowledgesRow(events[n], i) && ResolvedAt(events, n, i) then 1 else 0)
  }

  lemma {:induction false} NeverBack(events: seq<Event>, i: nat)
    requires i >= |Run(events)|
    ensures TimesBack(events, i) == TimesAcknowledgedBack(events, i) == 0
  {
    if events != [] {
      hide After;
      EventMoves(Run(events[..|events| - 1]), events[|events| - 1]);
      NeverBack(events[..|events| - 1], i);
    }
  }

  /** Over every run the recurrence count misses exactly the returns that were acknowledgements: an alert
      became active again as often as it counts recurrences and as it was acknowledged while resolved. */
  lemma {:induction false} MissedRecurrences(events: seq<Event>, i: nat)
    requires i < |Run(events)|
    ensures TimesBack(events, i) == Run(events)[i].recurrence - 1 + TimesAcknowledgedBack(events, i)
  {
    hide After, Refreshes;
    var n := |events| - 1;
    var rows, e := Run(events[..n]), events[n];
    EventMoves(rows, e);
    if i >= |rows| {
      NeverBack(events[..n], i);
    } else {
      assert Moves(rows, e, i);
      MissedRecurrences(events[..n], i);
      CountMoves(rows, e, i);
    }
  }

  lemma CountMoves(rows: seq<Alert>, e: Event, i: nat)
    requires Valid(rows) && i < |rows| <= |After(rows, e)| && Moves(rows, e, i)
    ensures After(rows, e)[i].recurrence - rows[i].recurrence
         == (if Leaves(rows, e, i) then 1 else 0) - (if AcknowledgesRow(e, i) && !Active(rows[i]) then 1 else 0)
  {
    hide After;
  }
}
