/** What a refresh writes into the rows, spelled out field by field for the conditions it handled. */
module AlertContents {
  import opened Basics
  import opened Alerts

  /** The row shows the condition as it was found now. */
  ghost predicate Shows(b: Alert, c: Candidate, now: int) {
    && b.key == c.key && b.content == c.content && b.lastEvaluatedAt == now && b.updatedAt == now
    && (c.lastSeenAt == None ==> b.lastSeenAt == now)
    && (c.lastSeenAt != None ==> c.lastSeenAt == Some(b.lastSeenAt))
  }

  ghost predicate Severe(c: Candidate) { c.content.severity in ["error", "warning"] }

  /** A stored alert keeps when it was first seen and first became severe. While active it keeps its state and
      its marks; a resolved one is open again, without marks and with one more recurrence. */
  ghost predicate Continues(a: Alert, b: Alert, c: Candidate, now: int) {
    && Shows(b, c, now) && b.firstSeenAt == a.firstSeenAt
    && b.escalatedAt == (if a.escalatedAt == None && Severe(c) then Some(now) else a.escalatedAt)
    && (a.state != Resolved ==>
          && b.state == a.state && b.recurrence == a.recurrence
          && b.acknowledgedAt == a.acknowledgedAt && b.acknowledgedBy == a.acknowledgedBy
          && b.resolvedAt == a.resolvedAt && b.resolvedBy == a.resolvedBy)
    && (a.state == Resolved ==>
          && b.state == Open && b.recurrence == a.recurrence + 1
          && b.acknowledgedAt == b.resolvedAt == None && b.acknowledgedBy == b.resolvedBy == None)
  }

  /** A new alert is open and has occurred once. */
  ghost predicate Begins(b: Alert, c: Candidate, now: int) {
    && Shows(b, c, now) && b.state == Open && b.recurrence == 1
    && (c.firstSeenAt == None ==> b.firstSeenAt == now)
    && (c.firstSeenAt != None ==> c.firstSeenAt == Some(b.firstSeenAt))
    && b.escalatedAt == (if Severe(c) then Some(now) else None)
    && b.acknowledgedAt == b.resolvedAt == None && b.acknowledgedBy == b.resolvedBy == None
  }

  /** Row `i` is the condition's. */
  ghost predicate Carries(before: seq<Alert>, after: seq<Alert>, c: Candidate, now: int, i: nat) {
    && |before| <= |after| && i < |after|
    && (if i < |before| then Continues(before[i], after[i], c, now) else Begins(after[i], c, now))
  }

  ghost predicate Recorded(before: seq<Alert>, after: seq<Alert>, c: Candidate, now: int) {
    exists i: nat :: Carries(before, after, c, now, i)
  }

  lemma UpsertRecords(before: seq<Alert>, rows: seq<Alert>, known: map<string, nat>, c: Candidate, now: int,
                      keys: set<string>)
    requires Indexes(known, before) && Extends(before, rows, keys) && c.key !in keys
    ensures (forall k :: k in known ==> known[k] < |rows|)
    ensures var r := Upsert(rows, known, c, now); r.Some? ==> Recorded(before, r.value, c, now)
  {
    hide HasKey;
    var r := Upsert(rows, known, c, now);
    if c.key in known {
      assert rows[known[c.key]] == before[known[c.key]];
      assert Carries(before, r.value, c, now, known[c.key]);
    } else if r.Some? {
      assert Carries(before, r.value, c, now, |rows|);
    }
  }

  lemma UpsertSpares(before: seq<Alert>, rows: seq<Alert>, known: map<string, nat>, c: Candidate, now: int,
                     d: Candidate, at: int)
    requires Indexes(known, rows) && Recorded(before, rows, d, at) && c.key != d.key
    ensures (forall k :: k in known ==> known[k] < |rows|)
    ensures var r := Upsert(rows, known, c, now); r.Some? ==> Recorded(before, r.value, d, at)
  {
    hide HasKey, SeenAgain;
    var i: nat :| Carries(before, rows, d, at, i);
    var r := Upsert(rows, known, c, now);
    if r.Some? {
      assert r.value[i] == rows[i];
      assert Carries(before, r.value, d, at, i);
    }
  }

  lemma {:induction false} UpsertAllRecords(rows: seq<Alert>, known: map<string, nat>, cs: seq<Candidate>,
                                            clock: nat -> int, m: nat)
    requires Valid(rows) && Indexes(known, rows) && DistinctKeys(cs)
    requires m < UpsertAll(rows, known, cs, clock).handled
    ensures Recorded(rows, UpsertAll(rows, known, cs, clock).rows, cs[m], clock(m))
  {
    hide Upsert, Recorded, Extends, Indexes, Valid, Keys;
    var n := |cs| - 1;
    IndexBounds(known, rows);
    var earlier := UpsertAll(rows, known, cs[..n], clock);
    KeysContain(cs[..n]);
    UpsertAllKeeps(rows, known, cs[..n], clock, Keys(cs[..n]));
    if earlier.handled == n && m == n {
      LastIsNew(cs);
      UpsertRecords(rows, earlier.rows, known, cs[n], clock(n), Keys(cs[..n]));
    } else {
      UpsertAllRecords(rows, known, cs[..n], clock, m);
      if earlier.handled == n {
        UpsertSpares(rows, earlier.rows, known, cs[n], clock(n), cs[m], clock(m));
      }
    }
  }

  lemma LastIsNew(cs: seq<Candidate>)
    requires DistinctKeys(cs) && cs != []
    ensures cs[|cs| - 1].key !in Keys(cs[..|cs| - 1])
  {
  }

  lemma LapseSpares(before: seq<Alert>, rows: seq<Alert>, listed: seq<Alert>, keys: set<string>, clock: nat -> int,
                    t: nat, c: Candidate, now: int)
    requires Valid(rows) && (forall a :: a in listed ==> a in rows && a.id < |rows|)
    requires Recorded(before, rows, c, now) && c.key in keys
    ensures Recorded(before, LapseAll(rows, listed, keys, clock, t), c, now)
  {
    hide LapseAll, Continues, Begins, Valid;
    var i: nat :| Carries(before, rows, c, now, i);
    assert rows[i].key == c.key by { CarriesKey(before, rows, c, now, i); }
    LapseAllRows(rows, listed, keys, clock, t, i);
    assert Carries(before, LapseAll(rows, listed, keys, clock, t), c, now, i);
  }

  lemma CarriesKey(before: seq<Alert>, rows: seq<Alert>, c: Candidate, now: int, i: nat)
    requires Carries(before, rows, c, now, i)
    ensures rows[i].key == c.key
  {
  }

  /** After a refresh with distinct candidates every one it handled has a row that shows it, continued from the
      stored alert under its key or begun anew; no other row differs from before except by having lapsed. */
  lemma RefreshRecords(rows: seq<Alert>, cs: seq<Candidate>, clock: nat -> int)
    requires Valid(rows) && DistinctKeys(cs)
    ensures
      var r := Refreshed(rows, cs, clock);
      && (forall m :: 0 <= m < r.handled ==> Recorded(rows, r.rows, cs[m], clock(m)))
      && |rows| <= |r.rows|
      && forall i :: 0 <= i < |rows| && rows[i].key !in Keys(cs) ==> OnlyLapsed(rows[i], r.rows[i], clock, |cs|)
  {
    hide UpsertAll, LapseAll, Listing, ActiveRows, Index, Recorded, Valid, Keys, OnlyLapsed, Extends;
    var known := Index(Listing(rows));
    var up := Upserts(rows, cs, clock);
    ListingMembers(rows);
    IndexLeadsBack(Listing(rows), rows);
    KeysContain(cs);
    assert Indexes(known, rows) && Valid(rows);
    UpsertAllKeeps(rows, known, cs, clock, Keys(cs));
    Kept(rows, up.rows, Keys(cs), clock, |cs|);
    forall m | 0 <= m < up.handled ensures Recorded(rows, up.rows, cs[m], clock(m)) {
      UpsertAllRecords(rows, known, cs, clock, m);
    }
    if up.handled == |cs| {
      ListedIds(up.rows);
      forall m | 0 <= m < up.handled ensures Recorded(rows, Refreshed(rows, cs, clock).rows, cs[m], clock(m)) {
        LapseSpares(rows, up.rows, Listing(ActiveRows(up.rows)), Keys(cs), clock, |cs|, cs[m], clock(m));
      }
      forall i | 0 <= i < |rows| && rows[i].key !in Keys(cs)
        ensures OnlyLapsed(rows[i], Refreshed(rows, cs, clock).rows[i], clock, |cs|)
      {
        LapseOnly(up.rows, Listing(ActiveRows(up.rows)), Keys(cs), clock, |cs|, i);
      }
    }
  }

  lemma Kept(before: seq<Alert>, after: seq<Alert>, keys: set<string>, clock: nat -> int, t: nat)
    requires Extends(before, after, keys)
    ensures |before| <= |after|
    ensures forall i :: 0 <= i < |before| && before[i].key !in keys ==> after[i] == before[i]
    ensures forall i :: 0 <= i < |before| && before[i].key !in keys ==> OnlyLapsed(before[i], after[i], clock, t)
  {
  }

  /** The row is as before, or was active and is resolved: nothing but its state, the time of the resolution and
      that of the update has changed, and these two are readings made one after the other, `from` or later. */
  ghost predicate OnlyLapsed(a: Alert, b: Alert, clock: nat -> int, from: nat) {
    b == a || (Active(a) && exists n: nat :: n >= from && LapsedAt(a, b, clock, n))
  }

  ghost predicate LapsedAt(a: Alert, b: Alert, clock: nat -> int, n: nat) {
    && b.state == Resolved && b.resolvedAt == Some(clock(n)) && b.updatedAt == clock(n + 1)
    && b.(state := a.state, resolvedAt := a.resolvedAt, updatedAt := a.updatedAt) == a
  }

  lemma {:induction false} LapseOnly(rows: seq<Alert>, listed: seq<Alert>, keys: set<string>, clock: nat -> int, t: nat,
                                     i: nat)
    requires Valid(rows) && (forall a :: a in listed ==> a in rows && Active(a) && a.id < |rows|) && i < |rows|
    ensures OnlyLapsed(rows[i], LapseAll(rows, listed, keys, clock, t)[i], clock, t)
  {
    if listed != [] {
      var n := |listed| - 1;
      assert listed[n] in listed && forall a :: a in listed[..n] ==> a in listed;
      LapseOnly(rows, listed[..n], keys, clock, t, i);
      hide Valid;
      if listed[n].key !in keys && listed[n].id == i {
        LapseAllRows(rows, listed[..n], keys, clock, t, i);
        RowOfId(rows, listed[n], i);
        hide LapseAll;
        LapseNext(rows, listed, keys, clock, t, n);
        assert listed[..n + 1] == listed;
        assert LapsedAt(rows[i], LapseAll(rows, listed, keys, clock, t)[i], clock, t + 2 * n);
      }
    }
  }

  lemma RowOfId(rows: seq<Alert>, a: Alert, i: nat)
    requires Valid(rows) && a in rows && a.id == i < |rows|
    ensures rows[i] == a
  {
  }

  /* ----- What operators write ----- */

  /** Nothing has changed but the row's state, its acknowledgement, its resolution and the time of its update. */
  ghost predicate Handled(rows: seq<Alert>, after: seq<Alert>, id: nat, updatedAt: int) {
    && id < |rows| == |after|
    && (forall i :: 0 <= i < |rows| && i != id ==> after[i] == rows[i])
    && after[id].updatedAt == updatedAt
    && (var a, b := rows[id], after[id];
        && b.id == a.id && b.key == a.key && b.recurrence == a.recurrence && b.content == a.content
        && b.firstSeenAt == a.firstSeenAt && b.lastSeenAt == a.lastSeenAt
        && b.lastEvaluatedAt == a.lastEvaluatedAt && b.escalatedAt == a.escalatedAt)
  }

  /** An acknowledged alert names who acknowledged it and when, and keeps the marks of a resolution; a
      resolved one names who resolved it and when, and keeps the marks of an acknowledgement. An unknown id
      changes nothing. */
  lemma OperatorsWrite(rows: seq<Alert>, id: nat, actor: string, at: int, updatedAt: int)
    requires Valid(rows)
    ensures id >= |rows| ==> After(rows, Acknowledging(id, actor, at, updatedAt)) == rows
    ensures id >= |rows| ==> After(rows, Resolving(id, actor, at, updatedAt)) == rows
    ensures id < |rows| ==>
      var after := After(rows, Acknowledging(id, actor, at, updatedAt));
      && Handled(rows, after, id, updatedAt) && after[id].state == Acknowledged
      && after[id].acknowledgedAt == Some(at) && after[id].acknowledgedBy == Some(actor)
      && after[id].resolvedAt == rows[id].resolvedAt && after[id].resolvedBy == rows[id].resolvedBy
    ensures id < |rows| ==>
      var after := After(rows, Resolving(id, actor, at, updatedAt));
      && Handled(rows, after, id, updatedAt) && after[id].state == Resolved
      && after[id].resolvedAt == Some(at) && after[id].resolvedBy == Some(actor)
      && after[id].acknowledgedAt == rows[id].acknowledgedAt && after[id].acknowledgedBy == rows[id].acknowledgedBy
  {
  }
}
