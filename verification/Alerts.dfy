/** Allocation alerts: a refresh reconciles the stored alerts with the conditions that hold now,
    and operators acknowledge or resolve them. A row's id is its position in the table. */
module Alerts {
  import opened Basics
  import opened Ordering

  const LIST_LIMIT := 500
  const CANDIDATE_LIMIT := 200

  datatype State = Open | Acknowledged | Resolved

  /** What a refresh copies from the condition it found. */
  datatype Content = Content(
    severity: string, title: string, message: string, count: int,
    intentIds: seq<int>, cycleIds: seq<string>, executionIds: seq<int>)

  datatype Candidate = Candidate(key: string, content: Content, firstSeenAt: Option<int>, lastSeenAt: Option<int>)

  datatype Alert = Alert(
    id: nat, key: string, state: State, recurrence: nat, content: Content,
    firstSeenAt: int, lastSeenAt: int, lastEvaluatedAt: int,
    acknowledgedAt: Option<int>, acknowledgedBy: Option<string>,
    resolvedAt: Option<int>, resolvedBy: Option<string>,
    escalatedAt: Option<int>, updatedAt: int)

  predicate Active(a: Alert) { !a.state.Resolved? }

  function SeenOr(t: Option<int>, now: int): int { if t.Some? then t.value else now }

  predicate Escalates(c: Content) { c.severity == "error" || c.severity == "warning" }

  function Created(c: Candidate, id: nat, now: int): Alert {
    Alert(id, c.key, Open, 1, c.content, SeenOr(c.firstSeenAt, now), SeenOr(c.lastSeenAt, now), now,
          None, None, None, None, if Escalates(c.content) then Some(now) else None, now)
  }

  function Reopened(a: Alert): Alert {
    if a.state.Resolved? then
      a.(state := Open, recurrence := a.recurrence + 1, acknowledgedAt := None, acknowledgedBy := None,
         resolvedAt := None, resolvedBy := None)
    else a
  }

  function SeenAgain(a: Alert, c: Candidate, now: int): Alert {
    Reopened(a).(
      content := c.content, lastSeenAt := SeenOr(c.lastSeenAt, now), lastEvaluatedAt := now, updatedAt := now,
      escalatedAt := if Escalates(c.content) && a.escalatedAt.None? then Some(now) else a.escalatedAt)
  }

  function Lapsed(a: Alert, resolvedAt: int, updatedAt: int): Alert {
    a.(state := Resolved, resolvedAt := Some(resolvedAt), updatedAt := updatedAt)
  }

  /* ----- Listing ----- */

  /** Latest change first, then highest id. */
  predicate NewerLe(a: Alert, b: Alert) {
    if a.updatedAt != b.updatedAt then a.updatedAt > b.updatedAt else a.id >= b.id
  }

  function Listing(rows: seq<Alert>): seq<Alert> { First(LIST_LIMIT, StableSort(NewerLe, rows)) }

  function ActiveRows(rows: seq<Alert>): seq<Alert> {
    if rows == [] then []
    else ActiveRows(rows[..|rows| - 1]) + (if Active(rows[|rows| - 1]) then [rows[|rows| - 1]] else [])
  }

  /** The id under each listed key. */
  function Index(listing: seq<Alert>): map<string, nat> {
    if listing == [] then map[]
    else Index(listing[..|listing| - 1])[listing[|listing| - 1].key := listing[|listing| - 1].id]
  }

  /* ----- The table ----- */

  /** Rows are numbered by position and no two share a key. */
  ghost predicate Valid(rows: seq<Alert>) {
    && (forall i :: 0 <= i < |rows| ==> rows[i].id == i)
    && (forall i, j :: 0 <= i < j < |rows| ==> rows[i].key != rows[j].key)
  }

  /** Every index entry leads to the row with that key. */
  ghost predicate Indexes(known: map<string, nat>, rows: seq<Alert>) {
    forall k :: k in known ==> known[k] < |rows| && rows[known[k]].key == k
  }

  predicate HasKey(rows: seq<Alert>, key: string) { exists i :: 0 <= i < |rows| && rows[i].key == key }

  /** The table after the first `handled` candidates; fewer than all of them when the unique key
      refused an insertion. */
  datatype Upserted = Upserted(rows: seq<Alert>, handled: nat)

  function Upsert(rows: seq<Alert>, known: map<string, nat>, c: Candidate, now: int): (r: Option<seq<Alert>>)
    requires forall k :: k in known ==> known[k] < |rows|
    ensures r.Some? ==> |r.value| >= |rows|
  {
    if c.key in known then Some(rows[known[c.key] := SeenAgain(rows[known[c.key]], c, now)])
    else if HasKey(rows, c.key) then None
    else Some(rows + [Created(c, |rows|, now)])
  }

  function UpsertAll(rows: seq<Alert>, known: map<string, nat>, cs: seq<Candidate>, clock: nat -> int): (r: Upserted)
    requires forall k :: k in known ==> known[k] < |rows|
    ensures |r.rows| >= |rows| && r.handled <= |cs|
  {
    if cs == [] then Upserted(rows, 0)
    else
      var n := |cs| - 1;
      var earlier := UpsertAll(rows, known, cs[..n], clock);
      if earlier.handled < n then earlier
      else
        var next := Upsert(earlier.rows, known, cs[n], clock(n));
        if next.None? then earlier else Upserted(next.value, |cs|)
  }

  function Keys(cs: seq<Candidate>): set<string> { set c | c in cs :: c.key }

  /** Listed rows whose condition is gone are resolved, in listing order. */
  function LapseAll(rows: seq<Alert>, listed: seq<Alert>, keys: set<string>, clock: nat -> int, t: nat): (r: seq<Alert>)
    requires forall a :: a in listed ==> a.id < |rows|
    ensures |r| == |rows|
  {
    if listed == [] then rows
    else
      var n := |listed| - 1;
      var earlier := LapseAll(rows, listed[..n], keys, clock, t);
      if listed[n].key in keys then earlier
      else earlier[listed[n].id := Lapsed(earlier[listed[n].id], clock(t + 2 * n), clock(t + 2 * n + 1))]
  }

  lemma FirstMembers<T>(n: nat, xs: seq<T>)
    ensures forall x :: x in First(n, xs) ==> x in xs
  {
  }

  lemma ListingMembers(rows: seq<Alert>)
    ensures forall a :: a in Listing(rows) ==> a in rows
  {
    SortContents(NewerLe, rows);
    FirstMembers(LIST_LIMIT, StableSort(NewerLe, rows));
  }

  lemma ActiveMembers(rows: seq<Alert>, a: Alert)
    ensures a in ActiveRows(rows) <==> a in rows && Active(a)
  {
    if rows != [] {
      ActiveMembers(rows[..|rows| - 1], a);
      assert rows == rows[..|rows| - 1] + [rows[|rows| - 1]];
    }
  }

  lemma IndexLeadsBack(listing: seq<Alert>, rows: seq<Alert>)
    requires Valid(rows) && forall a :: a in listing ==> a in rows
    ensures Indexes(Index(listing), rows)
  {
    if listing != [] {
      var n := |listing| - 1;
      assert forall a :: a in listing[..n] ==> a in listing;
      IndexLeadsBack(listing[..n], rows);
      assert listing[n] in rows;
    }
  }

  lemma IndexKeys(listing: seq<Alert>, k: string)
    ensures k in Index(listing) <==> HasKey(listing, k)
  {
    if listing != [] {
      var n := |listing| - 1;
      IndexKeys(listing[..n], k);
      if HasKey(listing, k) && listing[n].key != k {
        var i :| 0 <= i < |listing| && listing[i].key == k;
        assert listing[..n][i].key == k;
      }
      if HasKey(listing[..n], k) {
        var i :| 0 <= i < n && listing[..n][i].key == k;
        assert listing[i].key == k;
      }
    }
  }

  /** The first half of a refresh: candidates against the first listing. */
  function Upserts(rows: seq<Alert>, cs: seq<Candidate>, clock: nat -> int): (r: Upserted)
    requires Valid(rows)
    ensures Valid(r.rows) && r.handled <= |cs|
  {
    ListingMembers(rows);
    IndexLeadsBack(Listing(rows), rows);
    UpsertAllKeeps(rows, Index(Listing(rows)), cs, clock, Keys(cs));
    UpsertAll(rows, Index(Listing(rows)), cs, clock)
  }

  /** A refresh; `handled` is short of all candidates when it stopped with an integrity error. */
  function Refreshed(rows: seq<Alert>, cs: seq<Candidate>, clock: nat -> int): Upserted
    requires Valid(rows)
  {
    var up := Upserts(rows, cs, clock);
    if up.handled < |cs| then up
    else
      ListedIds(up.rows);
      Upserted(LapseAll(up.rows, Listing(ActiveRows(up.rows)), Keys(cs), clock, |cs|), |cs|)
  }

  lemma ListedIds(rows: seq<Alert>)
    requires Valid(rows)
    ensures forall a :: a in Listing(ActiveRows(rows)) ==> a in rows && Active(a) && a.id < |rows|
  {
    ListingMembers(ActiveRows(rows));
    forall a | a in Listing(ActiveRows(rows)) ensures a in rows && Active(a) && a.id < |rows| {
      ActiveMembers(rows, a);
    }
  }

  /** Only rows under some of the keys have changed, and only such rows are new. */
  ghost predicate Extends(before: seq<Alert>, after: seq<Alert>, keys: set<string>) {
    && |before| <= |after|
    && (forall i :: 0 <= i < |before| ==> after[i].key == before[i].key)
    && (forall i :: 0 <= i < |before| && before[i].key !in keys ==> after[i] == before[i])
    && (forall i :: |before| <= i < |after| ==> after[i].key in keys)
  }

  lemma UpsertKeeps(rows: seq<Alert>, known: map<string, nat>, c: Candidate, now: int, keys: set<string>)
    requires Valid(rows) && Indexes(known, rows) && c.key in keys
    ensures
      var r := Upsert(rows, known, c, now);
      r.Some? ==> Valid(r.value) && Indexes(known, r.value) && Extends(rows, r.value, keys)
  {
  }

  lemma {:induction false} UpsertAllKeeps(rows: seq<Alert>, known: map<string, nat>, cs: seq<Candidate>,
      clock: nat -> int, keys: set<string>)
    requires Valid(rows) && Indexes(known, rows)
    requires forall c :: c in cs ==> c.key in keys
    ensures
      var r := UpsertAll(rows, known, cs, clock);
      Valid(r.rows) && Indexes(known, r.rows) && Extends(rows, r.rows, keys)
  {
    if cs != [] {
      var n := |cs| - 1;
      UpsertAllKeeps(rows, known, cs[..n], clock, keys);
      hide Upsert, Indexes, Valid;
      assert Indexes(known, rows) ==> forall k :: k in known ==> known[k] < |rows| by { IndexBounds(known, rows); }
      UpsertKeeps(UpsertAll(rows, known, cs[..n], clock).rows, known, cs[n], clock(n), keys);
    }
  }

  lemma IndexBounds(known: map<string, nat>, rows: seq<Alert>)
    ensures Indexes(known, rows) ==> forall k :: k in known ==> known[k] < |rows|
  {
  }

  /* ----- What a refresh does to each row ----- */

  /** What the handled candidates make of each row: rows under their keys end up active, having
      come back once if they were resolved, and all other rows are as before. */
  ghost predicate Touched(before: seq<Alert>, after: seq<Alert>, keys: set<string>) {
    && Extends(before, after, keys)
    && (forall i :: 0 <= i < |before| && before[i].key in keys ==>
          && after[i].state == (if before[i].state.Resolved? then Open else before[i].state)
          && after[i].recurrence == before[i].recurrence + (if before[i].state.Resolved? then 1 else 0))
    && (forall i :: |before| <= i < |after| ==> after[i].state.Open? && after[i].recurrence == 1)
    && (forall k :: k in keys ==> HasKey(after, k))
  }

  lemma KeysKept(rows: seq<Alert>, after: seq<Alert>, keys: set<string>, key: string, at: nat)
    requires at < |after| && after[at].key == key
    requires |rows| <= |after| && forall i :: 0 <= i < |rows| ==> after[i].key == rows[i].key
    requires forall k :: k in keys ==> HasKey(rows, k)
    ensures forall k :: k in keys + {key} ==> HasKey(after, k)
  {
    forall k | k in keys + {key} ensures HasKey(after, k) {
      if k != key {
        assert HasKey(rows, k);
        var i :| 0 <= i < |rows| && rows[i].key == k;
        assert after[i].key == k;
      }
    }
  }

  lemma SeenAgainState(a: Alert, c: Candidate, now: int)
    ensures
      var b := SeenAgain(a, c, now);
      && b.key == a.key && b.state == (if a.state.Resolved? then Open else a.state)
      && b.recurrence == a.recurrence + (if a.state.Resolved? then 1 else 0)
  {
  }

  lemma UpsertTouches(before: seq<Alert>, rows: seq<Alert>, known: map<string, nat>, c: Candidate, now: int,
      keys: set<string>)
    requires Valid(rows) && Indexes(known, rows) && Touched(before, rows, keys)
    requires forall k :: k in known ==> known[k] < |before|
    ensures var r := Upsert(rows, known, c, now); r.Some? ==> Touched(before, r.value, keys + {c.key})
  {
    hide SeenAgain, HasKey;
    var r := Upsert(rows, known, c, now);
    if c.key in known {
      var at, after := known[c.key], r.value;
      SeenAgainState(rows[at], c, now);
      KeysKept(rows, after, keys, c.key, at);
      assert forall i :: 0 <= i < |rows| && i != at ==> after[i] == rows[i] && rows[i].key != c.key;
    } else if r.Some? {
      KeysKept(rows, r.value, keys, c.key, |rows|);
      NotThere(rows, c.key);
    }
  }

  lemma NotThere(rows: seq<Alert>, key: string)
    ensures !HasKey(rows, key) ==> forall i :: 0 <= i < |rows| ==> rows[i].key != key
  {
  }

  lemma KeysSnoc(cs: seq<Candidate>, n: nat)
    requires n < |cs|
    ensures Keys(cs[..n + 1]) == Keys(cs[..n]) + {cs[n].key}
  {
    assert cs[..n + 1] == cs[..n] + [cs[n]];
  }

  lemma {:induction false} UpsertAllTouches(rows: seq<Alert>, known: map<string, nat>, cs: seq<Candidate>,
      clock: nat -> int)
    requires Valid(rows) && Indexes(known, rows)
    ensures var r := UpsertAll(rows, known, cs, clock); Touched(rows, r.rows, Keys(cs[..r.handled]))
  {
    hide Touched, Upsert, Keys, Valid, Extends;
    if cs == [] {
      assert cs[..0] == [];
      TouchedNone(rows);
    } else {
      var n := |cs| - 1;
      var earlier := UpsertAll(rows, known, cs[..n], clock);
      UpsertAllTouches(rows, known, cs[..n], clock);
      KeysContain(cs[..n]);
      UpsertAllKeeps(rows, known, cs[..n], clock, Keys(cs[..n]));
      assert cs[..n][..earlier.handled] == cs[..earlier.handled];
      if earlier.handled == n {
        KeysSnoc(cs, n);
        assert cs[..n + 1] == cs;
        UpsertTouches(rows, earlier.rows, known, cs[n], clock(n), Keys(cs[..n]));
      }
    }
  }

  lemma TouchedNone(rows: seq<Alert>)
    ensures Touched(rows, rows, Keys([]))
  {
    assert Keys([]) == {};
  }

  lemma KeysContain(cs: seq<Candidate>)
    ensures forall c :: c in cs ==> c.key in Keys(cs)
  {
  }

  /** Listed rows under none of the keys are resolved, the others are left alone. */
  lemma {:induction false} LapseAllRows(rows: seq<Alert>, listed: seq<Alert>, keys: set<string>,
      clock: nat -> int, t: nat, i: nat)
    requires Valid(rows) && (forall a :: a in listed ==> a in rows) && i < |rows|
    ensures
      var a := LapseAll(rows, listed, keys, clock, t)[i];
      if rows[i] in listed && rows[i].key !in keys
      then a.resolvedAt.Some? && a == Lapsed(rows[i], a.resolvedAt.value, a.updatedAt)
      else a == rows[i]
  {
    if listed != [] {
      var n := |listed| - 1;
      assert listed == listed[..n] + [listed[n]];
      LapseAllRows(rows, listed[..n], keys, clock, t, i);
      assert listed[n] in listed;
    }
  }

  /* ----- When a refresh completes ----- */

  ghost predicate DistinctKeys(cs: seq<Candidate>) { forall i, j :: 0 <= i < j < |cs| ==> cs[i].key != cs[j].key }

  /** A stored alert under this key that the first listing left out. */
  predicate Missed(rows: seq<Alert>, known: map<string, nat>, key: string) { key !in known && HasKey(rows, key) }

  lemma ExtendsKeys(before: seq<Alert>, after: seq<Alert>, keys: set<string>, key: string)
    requires Extends(before, after, keys)
    ensures HasKey(before, key) ==> HasKey(after, key)
    ensures HasKey(after, key) ==> HasKey(before, key) || key in keys
  {
    if HasKey(before, key) {
      var i :| 0 <= i < |before| && before[i].key == key;
      assert after[i].key == key;
    }
    if HasKey(after, key) && key !in keys {
      var i :| 0 <= i < |after| && after[i].key == key;
      assert before[i].key == key;
    }
  }

  lemma {:induction false} UpsertAllCompletesIff(rows: seq<Alert>, known: map<string, nat>, cs: seq<Candidate>,
      clock: nat -> int)
    requires Valid(rows) && Indexes(known, rows) && DistinctKeys(cs)
    ensures UpsertAll(rows, known, cs, clock).handled == |cs|
       <==> forall i :: 0 <= i < |cs| ==> !Missed(rows, known, cs[i].key)
  {
    if cs != [] {
      var n := |cs| - 1;
      var earlier := UpsertAll(rows, known, cs[..n], clock);
      UpsertAllCompletesIff(rows, known, cs[..n], clock);
      UpsertAllKeeps(rows, known, cs[..n], clock, Keys(cs[..n]));
      assert cs[n].key !in Keys(cs[..n]);
      ExtendsKeys(rows, earlier.rows, Keys(cs[..n]), cs[n].key);
    }
  }

  /** With distinct keys a refresh completes exactly when no candidate's stored alert fell outside
      the first listing. */
  lemma RefreshCompletesIff(rows: seq<Alert>, cs: seq<Candidate>, clock: nat -> int)
    requires Valid(rows) && DistinctKeys(cs)
    ensures
      Refreshed(rows, cs, clock).handled == |cs| <==>
      forall i :: 0 <= i < |cs| ==> HasKey(rows, cs[i].key) ==> HasKey(Listing(rows), cs[i].key)
  {
    ListingMembers(rows);
    IndexLeadsBack(Listing(rows), rows);
    UpsertAllCompletesIff(rows, Index(Listing(rows)), cs, clock);
    forall i | 0 <= i < |cs| ensures cs[i].key in Index(Listing(rows)) <==> HasKey(Listing(rows), cs[i].key) {
      IndexKeys(Listing(rows), cs[i].key);
    }
  }

  lemma SmallListing(rows: seq<Alert>, key: string)
    requires |rows| <= LIST_LIMIT && HasKey(rows, key)
    ensures HasKey(Listing(rows), key)
  {
    SortContents(NewerLe, rows);
    var i :| 0 <= i < |rows| && rows[i].key == key;
    assert rows[i] in Listing(rows);
  }

  /* ----- Which alerts are active afterwards ----- */

  predicate Stale(a: Alert, keys: set<string>) { Active(a) && a.key !in keys }

  /** Stored active alerts whose condition is not among the candidates. */
  function StaleCount(rows: seq<Alert>, keys: set<string>): nat {
    if rows == [] then 0
    else StaleCount(rows[..|rows| - 1], keys) + (if Stale(rows[|rows| - 1], keys) then 1 else 0)
  }

  function KeyedCount(rows: seq<Alert>, keys: set<string>): nat {
    if rows == [] then 0
    else KeyedCount(rows[..|rows| - 1], keys) + (if rows[|rows| - 1].key in keys then 1 else 0)
  }

  lemma {:induction false} ExtendsStale(before: seq<Alert>, after: seq<Alert>, keys: set<string>)
    requires Extends(before, after, keys)
    ensures StaleCount(after, keys) == StaleCount(before, keys)
    decreases |after|
  {
    if |before| < |after| {
      ExtendsStale(before, after[..|after| - 1], keys);
    } else if after != [] {
      ExtendsStale(before[..|before| - 1], after[..|after| - 1], keys);
    }
  }

  lemma {:induction false} KeyedAll(rows: seq<Alert>, keys: set<string>)
    requires Valid(rows) && forall k :: k in keys ==> HasKey(rows, k)
    ensures KeyedCount(rows, keys) == |keys|
  {
    if rows == [] {
      assert forall k :: k in keys ==> HasKey(rows, k);
      assert keys == {};
    } else {
      var n := |rows| - 1;
      var rest := keys - {rows[n].key};
      forall k | k in rest ensures HasKey(rows[..n], k) {
        var i :| 0 <= i < |rows| && rows[i].key == k;
        assert rows[..n][i].key == k;
      }
      KeyedAll(rows[..n], rest);
      SameKeyed(rows[..n], keys, rest, rows[n].key);
    }
  }

  lemma SameKeyed(rows: seq<Alert>, keys: set<string>, rest: set<string>, key: string)
    requires rest == keys - {key} && forall i :: 0 <= i < |rows| ==> rows[i].key != key
    ensures KeyedCount(rows, keys) == KeyedCount(rows, rest)
  {
  }

  lemma {:induction false} ActiveSplit(rows: seq<Alert>, keys: set<string>)
    requires forall i :: 0 <= i < |rows| && rows[i].key in keys ==> Active(rows[i])
    ensures |ActiveRows(rows)| == StaleCount(rows, keys) + KeyedCount(rows, keys)
  {
    if rows != [] {
      ActiveSplit(rows[..|rows| - 1], keys);
    }
  }

  lemma DistinctCount(cs: seq<Candidate>)
    requires DistinctKeys(cs)
    ensures |Keys(cs)| == |cs|
  {
    if cs != [] {
      var n := |cs| - 1;
      DistinctCount(cs[..n]);
      KeysSnoc(cs, n);
      assert cs[..n + 1] == cs;
      assert cs[n].key !in Keys(cs[..n]);
    } else {
      assert Keys(cs) == {};
    }
  }

  /** How many alerts the second listing has to choose from. */
  lemma ActiveAfterUpsert(rows: seq<Alert>, cs: seq<Candidate>, clock: nat -> int)
    requires Valid(rows) && DistinctKeys(cs) && Refreshed(rows, cs, clock).handled == |cs|
    ensures
      var up := Upserts(rows, cs, clock).rows;
      && Valid(up) && Touched(rows, up, Keys(cs))
      && |ActiveRows(up)| == |cs| + StaleCount(rows, Keys(cs))
  {
    hide Upserts, LapseAll, Listing, ActiveRows, Keys, StaleCount, KeyedCount;
    UpsertsTouch(rows, cs, clock);
    var up := Upserts(rows, cs, clock);
    assert cs[..|cs|] == cs;
    KeyedAreActive(rows, up.rows, Keys(cs));
    ExtendsStale(rows, up.rows, Keys(cs));
    KeyedAll(up.rows, Keys(cs));
    ActiveSplit(up.rows, Keys(cs));
    DistinctCount(cs);
  }

  lemma UpsertsTouch(rows: seq<Alert>, cs: seq<Candidate>, clock: nat -> int)
    requires Valid(rows)
    ensures var up := Upserts(rows, cs, clock); Touched(rows, up.rows, Keys(cs[..up.handled]))
  {
    ListingMembers(rows);
    IndexLeadsBack(Listing(rows), rows);
    UpsertAllTouches(rows, Index(Listing(rows)), cs, clock);
  }

  ghost predicate HasActive(rows: seq<Alert>, key: string) {
    exists i :: 0 <= i < |rows| && rows[i].key == key && Active(rows[i])
  }

  /** The keys of the active alerts are exactly these. */
  ghost predicate ActiveKeysAre(rows: seq<Alert>, keys: set<string>) { forall k :: HasActive(rows, k) <==> k in keys }

  ghost predicate AllListed(rows: seq<Alert>, keys: set<string>) {
    forall i :: 0 <= i < |rows| && Stale(rows[i], keys) ==> rows[i] in Listing(ActiveRows(rows))
  }

  lemma LapseMatchesIff(rows: seq<Alert>, keys: set<string>, clock: nat -> int, t: nat)
    requires Valid(rows) && (forall k :: k in keys ==> HasKey(rows, k))
    requires forall i :: 0 <= i < |rows| && rows[i].key in keys ==> Active(rows[i])
    requires forall a :: a in Listing(ActiveRows(rows)) ==> a.id < |rows|
    ensures ActiveKeysAre(LapseAll(rows, Listing(ActiveRows(rows)), keys, clock, t), keys) <==> AllListed(rows, keys)
  {
    hide Listing, ActiveRows;
    var listed := Listing(ActiveRows(rows));
    var after := LapseAll(rows, listed, keys, clock, t);
    ListedIds(rows);
    forall i | 0 <= i < |rows|
      ensures after[i].key == rows[i].key
      ensures Active(after[i]) <==> Active(rows[i]) && !(rows[i] in listed && rows[i].key !in keys)
      ensures Active(after[i]) ==> HasActive(after, rows[i].key)
    {
      LapseAllRows(rows, listed, keys, clock, t, i);
    }
    forall k | k in keys ensures HasActive(after, k) {
      var i :| 0 <= i < |rows| && rows[i].key == k;
      assert after[i].key == k;
    }
    if AllListed(rows, keys) {
      forall k | HasActive(after, k) ensures k in keys {
        var i :| 0 <= i < |after| && after[i].key == k && Active(after[i]);
        assert rows[i].key == k;
      }
    }
    if ActiveKeysAre(after, keys) {
      forall i | 0 <= i < |rows| && Stale(rows[i], keys) ensures rows[i] in listed {
      }
    }
  }

  lemma OnceActive(rows: seq<Alert>, a: Alert)
    requires Valid(rows)
    ensures multiset(ActiveRows(rows))[a] <= 1
  {
    if rows != [] {
      var n := |rows| - 1;
      OnceActive(rows[..n], a);
      ActiveMembers(rows[..n], a);
    }
  }

  lemma LastOnce<T>(xs: seq<T>)
    requires xs != [] && multiset(xs)[xs[|xs| - 1]] <= 1
    ensures xs[|xs| - 1] !in xs[..|xs| - 1]
  {
    var n := |xs| - 1;
    assert xs == xs[..n] + [xs[n]];
    assert multiset(xs)[xs[n]] == multiset(xs[..n])[xs[n]] + 1;
  }

  lemma StaleExists(rows: seq<Alert>, keys: set<string>) returns (i: nat)
    requires StaleCount(rows, keys) > 0
    ensures i < |rows| && Stale(rows[i], keys)
  {
    i := |rows| - 1;
    if !Stale(rows[i], keys) {
      i := StaleExists(rows[..i], keys);
    }
  }

  lemma NewerOrder()
    ensures TotalPreorder(NewerLe)
  {
  }

  /** When more active alerts exist than a listing holds, and those under the keys changed last,
      the one cut off at the end is stale. */
  lemma CutOffIsStale(rows: seq<Alert>, keys: set<string>, t: int)
    requires Valid(rows) && |ActiveRows(rows)| > LIST_LIMIT
    requires StaleCount(rows, keys) > 0
    requires forall i :: 0 <= i < |rows| ==> (rows[i].key in keys <==> rows[i].updatedAt >= t)
    ensures !AllListed(rows, keys)
  {
    hide StableSort, ActiveRows, StaleCount;
    var active := ActiveRows(rows);
    var sorted := StableSort(NewerLe, active);
    SortContents(NewerLe, active);
    NewerOrder();
    SortSorted(NewerLe, active);
    var last := sorted[|sorted| - 1];
    ActiveMembers(rows, last);
    OnceActive(rows, last);
    LastOnce(sorted);
    assert forall x :: x in sorted[..LIST_LIMIT] ==> x in sorted[..|sorted| - 1];
    assert last in rows && Active(last);
    if last.key in keys {
      var s := StaleExists(rows, keys);
      ActiveMembers(rows, rows[s]);
      assert rows[s] in sorted;
    }
  }

  ghost predicate Stamped(rows: seq<Alert>, keys: set<string>, t: int) {
    forall i :: 0 <= i < |rows| && rows[i].key in keys ==> rows[i].updatedAt >= t
  }

  lemma UpsertStamps(rows: seq<Alert>, known: map<string, nat>, c: Candidate, now: int, keys: set<string>, t: int)
    requires Valid(rows) && Indexes(known, rows) && Stamped(rows, keys, t) && now >= t
    ensures var r := Upsert(rows, known, c, now); r.Some? ==> Stamped(r.value, keys + {c.key}, t)
  {
    NotThere(rows, c.key);
  }

  lemma {:induction false} UpsertAllStamps(rows: seq<Alert>, known: map<string, nat>, cs: seq<Candidate>,
      clock: nat -> int, t: int)
    requires Valid(rows) && Indexes(known, rows) && forall n :: clock(n) >= t
    ensures
      var r := UpsertAll(rows, known, cs, clock);
      Stamped(r.rows, Keys(cs[..r.handled]), t)
  {
    if cs != [] {
      var n := |cs| - 1;
      var earlier := UpsertAll(rows, known, cs[..n], clock);
      UpsertAllStamps(rows, known, cs[..n], clock, t);
      UpsertAllKeeps(rows, known, cs[..n], clock, Keys(cs[..n]));
      assert cs[..n][..earlier.handled] == cs[..earlier.handled];
      if earlier.handled == n {
        hide Stamped, Upsert, Keys, Valid, Indexes, Extends;
        KeysSnoc(cs, n);
        assert cs[..n + 1] == cs;
        UpsertStamps(earlier.rows, known, cs[n], clock(n), Keys(cs[..n]), t);
      }
    }
  }

  /** A refresh that completes matches whenever candidates and stale alerts fit, whatever the clock. */
  lemma MatchesWhenFits(rows: seq<Alert>, cs: seq<Candidate>, clock: nat -> int)
    requires Valid(rows) && DistinctKeys(cs) && Refreshed(rows, cs, clock).handled == |cs|
    requires |cs| + StaleCount(rows, Keys(cs)) <= LIST_LIMIT
    ensures ActiveKeysAre(Refreshed(rows, cs, clock).rows, Keys(cs))
  {
    hide Refreshed, Upserts, Listing, ActiveRows, Keys, StaleCount;
    RefreshMatchesAsListed(rows, cs, clock);
    ShortListing(Upserts(rows, cs, clock).rows, Keys(cs));
  }

  /** So it does when it leaves no more rows than a listing holds. */
  lemma FewRowsMatch(rows: seq<Alert>, cs: seq<Candidate>, clock: nat -> int)
    requires Valid(rows) && DistinctKeys(cs) && Refreshed(rows, cs, clock).handled == |cs|
    requires |Refreshed(rows, cs, clock).rows| <= LIST_LIMIT
    ensures ActiveKeysAre(Refreshed(rows, cs, clock).rows, Keys(cs))
  {
    var up := Upserts(rows, cs, clock).rows;
    hide Upserts, Listing, ActiveRows, Keys, LapseAll;
    RefreshMatchesAsListed(rows, cs, clock);
    FewActive(up);
    ShortListing(up, Keys(cs));
  }

  lemma {:induction false} FewActive(rows: seq<Alert>)
    ensures |ActiveRows(rows)| <= |rows|
  {
    if rows != [] {
      FewActive(rows[..|rows| - 1]);
    }
  }

  /** With distinct candidates, readings later than every stored change, and no integrity error, the
      active keys are exactly the candidates' keys if and only if candidates and stale alerts
      together fit in the second listing. */
  lemma RefreshMatchesIff(rows: seq<Alert>, cs: seq<Candidate>, clock: nat -> int, start: int)
    requires Valid(rows) && DistinctKeys(cs) && |cs| <= CANDIDATE_LIMIT
    requires (forall i :: 0 <= i < |rows| ==> rows[i].updatedAt < start) && (forall n :: clock(n) >= start)
    requires Refreshed(rows, cs, clock).handled == |cs|
    ensures
      ActiveKeysAre(Refreshed(rows, cs, clock).rows, Keys(cs)) <==>
      |cs| + StaleCount(rows, Keys(cs)) <= LIST_LIMIT
  {
    hide Upserts, Refreshed, Listing, ActiveRows, Keys, StaleCount;
    RefreshMatchesAsListed(rows, cs, clock);
    var keys, up := Keys(cs), Upserts(rows, cs, clock).rows;
    if |ActiveRows(up)| <= LIST_LIMIT {
      ShortListing(up, keys);
    } else {
      UpsertsStamp(rows, cs, clock, start);
      ActiveAfterUpsert(rows, cs, clock);
      ExtendsStale(rows, up, keys);
      CutOffIsStale(up, keys, start);
    }
  }

  lemma RefreshMatchesAsListed(rows: seq<Alert>, cs: seq<Candidate>, clock: nat -> int)
    requires Valid(rows) && DistinctKeys(cs) && Refreshed(rows, cs, clock).handled == |cs|
    ensures Upserts(rows, cs, clock).handled == |cs|
    ensures |ActiveRows(Upserts(rows, cs, clock).rows)| == |cs| + StaleCount(rows, Keys(cs))
    ensures ActiveKeysAre(Refreshed(rows, cs, clock).rows, Keys(cs))
       <==> AllListed(Upserts(rows, cs, clock).rows, Keys(cs))
  {
    hide Upserts, LapseAll, Listing, ActiveRows, Keys, StaleCount;
    ActiveAfterUpsert(rows, cs, clock);
    var keys, up := Keys(cs), Upserts(rows, cs, clock).rows;
    ListedIds(up);
    KeyedAreActive(rows, up, keys);
    LapseMatchesIff(up, keys, clock, |cs|);
  }

  /** In a table no longer than a listing, every refresh with distinct candidates completes, and it
      leaves exactly the candidates' keys active when candidates and stale alerts fit. */
  lemma SmallTableRefresh(rows: seq<Alert>, cs: seq<Candidate>, clock: nat -> int)
    requires Valid(rows) && DistinctKeys(cs) && |rows| <= LIST_LIMIT
    ensures Refreshed(rows, cs, clock).handled == |cs|
    ensures |cs| + StaleCount(rows, Keys(cs)) <= LIST_LIMIT ==> ActiveKeysAre(Refreshed(rows, cs, clock).rows, Keys(cs))
  {
    hide Refreshed, Listing, ActiveRows, Keys, StaleCount, HasKey;
    forall i | 0 <= i < |cs| && HasKey(rows, cs[i].key) ensures HasKey(Listing(rows), cs[i].key) {
      SmallListing(rows, cs[i].key);
    }
    RefreshCompletesIff(rows, cs, clock);
    RefreshMatchesAsListed(rows, cs, clock);
    if |cs| + StaleCount(rows, Keys(cs)) <= LIST_LIMIT {
      ShortListing(Upserts(rows, cs, clock).rows, Keys(cs));
    }
  }

  lemma KeyedAreActive(rows: seq<Alert>, up: seq<Alert>, keys: set<string>)
    requires Touched(rows, up, keys)
    ensures forall i :: 0 <= i < |up| && up[i].key in keys ==> Active(up[i])
  {
  }

  lemma UpsertsStamp(rows: seq<Alert>, cs: seq<Candidate>, clock: nat -> int, start: int)
    requires Valid(rows) && Upserts(rows, cs, clock).handled == |cs|
    requires (forall i :: 0 <= i < |rows| ==> rows[i].updatedAt < start) && (forall n :: clock(n) >= start)
    ensures
      var up := Upserts(rows, cs, clock).rows;
      forall i :: 0 <= i < |up| ==> (up[i].key in Keys(cs) <==> up[i].updatedAt >= start)
  {
    ListingMembers(rows);
    IndexLeadsBack(Listing(rows), rows);
    hide UpsertAll, Listing, Keys;
    UpsertAllStamps(rows, Index(Listing(rows)), cs, clock, start);
    UpsertsTouch(rows, cs, clock);
    assert cs[..|cs|] == cs;
    var up := Upserts(rows, cs, clock).rows;
    assert up == UpsertAll(rows, Index(Listing(rows)), cs, clock).rows;
    assert Extends(rows, up, Keys(cs));
    forall i | 0 <= i < |up| ensures up[i].key in Keys(cs) <==> up[i].updatedAt >= start {
    }
  }

  lemma ShortListing(rows: seq<Alert>, keys: set<string>)
    requires |ActiveRows(rows)| <= LIST_LIMIT
    ensures AllListed(rows, keys)
  {
    SortContents(NewerLe, ActiveRows(rows));
    forall i | 0 <= i < |rows| && Stale(rows[i], keys) ensures rows[i] in Listing(ActiveRows(rows)) {
      ActiveMembers(rows, rows[i]);
    }
  }

  /* ----- Recurrence over runs ----- */

  /** The whole effect of a refresh on keys and recurrence counts. */
  lemma RefreshRecurrence(rows: seq<Alert>, cs: seq<Candidate>, clock: nat -> int)
    requires Valid(rows)
    ensures
      var r := Refreshed(rows, cs, clock);
      var keys := Keys(cs[..r.handled]);
      && Valid(r.rows) && |rows| <= |r.rows|
      && (forall i :: 0 <= i < |rows| ==>
            && r.rows[i].key == rows[i].key
            && r.rows[i].recurrence
            == rows[i].recurrence + (if rows[i].state.Resolved? && rows[i].key in keys then 1 else 0))
      && (forall i :: |rows| <= i < |r.rows| ==> r.rows[i].recurrence == 1)
  {
    hide Upserts, LapseAll, Listing, ActiveRows, Keys;
    var up := Upserts(rows, cs, clock);
    UpsertsTouch(rows, cs, clock);
    if up.handled == |cs| {
      ListedIds(up.rows);
      forall i | 0 <= i < |up.rows|
        ensures
          var a := LapseAll(up.rows, Listing(ActiveRows(up.rows)), Keys(cs), clock, |cs|)[i];
          a.id == up.rows[i].id && a.key == up.rows[i].key && a.recurrence == up.rows[i].recurrence
      {
        LapseAllRows(up.rows, Listing(ActiveRows(up.rows)), Keys(cs), clock, |cs|, i);
      }
    }
  }

  function Acknowledge(a: Alert, actor: string, at: int, updatedAt: int): Alert {
    a.(state := Acknowledged, acknowledgedAt := Some(at), acknowledgedBy := Some(actor), updatedAt := updatedAt)
  }

  function Resolve(a: Alert, actor: string, at: int, updatedAt: int): Alert {
    a.(state := Resolved, resolvedAt := Some(at), resolvedBy := Some(actor), updatedAt := updatedAt)
  }

  datatype Event =
    | Refreshing(cs: seq<Candidate>, clock: nat -> int)
    | Acknowledging(id: nat, actor: string, at: int, updatedAt: int)
    | Resolving(id: nat, actor: string, at: int, updatedAt: int)

  ghost function After(rows: seq<Alert>, e: Event): (r: seq<Alert>)
    requires Valid(rows)
    ensures Valid(r)
  {
    match e
    case Refreshing(cs, clock) => RefreshRecurrence(rows, cs, clock); Refreshed(rows, cs, clock).rows
    case Acknowledging(id, actor, at, updatedAt) =>
      if id < |rows| then rows[id := Acknowledge(rows[id], actor, at, updatedAt)] else rows
    case Resolving(id, actor, at, updatedAt) =>
      if id < |rows| then rows[id := Resolve(rows[id], actor, at, updatedAt)] else rows
  }

  /** The table after a run that starts empty. */
  ghost function Run(events: seq<Event>): (r: seq<Alert>)
    ensures Valid(r)
  {
    if events == [] then [] else After(Run(events[..|events| - 1]), events[|events| - 1])
  }

  /** The event is a refresh that handled the key and found its alert resolved. */
  ghost predicate FindsResolved(rows: seq<Alert>, e: Event, key: string)
    requires Valid(rows)
  {
    && e.Refreshing? && key in Keys(e.cs[..Refreshed(rows, e.cs, e.clock).handled])
    && exists i :: 0 <= i < |rows| && rows[i].key == key && rows[i].state.Resolved?
  }

  ghost function TimesFoundResolved(events: seq<Event>, key: string): nat {
    if events == [] then 0
    else
      var earlier, e := events[..|events| - 1], events[|events| - 1];
      TimesFoundResolved(earlier, key) + (if FindsResolved(Run(earlier), e, key) then 1 else 0)
  }

  lemma AfterRecurrence(rows: seq<Alert>, e: Event)
    requires Valid(rows)
    ensures |rows| <= |After(rows, e)|
    ensures forall i :: 0 <= i < |rows| ==>
              && After(rows, e)[i].key == rows[i].key
              && After(rows, e)[i].recurrence
              == rows[i].recurrence + (if FindsResolved(rows, e, rows[i].key) then 1 else 0)
    ensures forall i :: |rows| <= i < |After(rows, e)| ==> After(rows, e)[i].recurrence == 1
  {
    hide Refreshed, Keys;
    if e.Refreshing? {
      RefreshRecurrence(rows, e.cs, e.clock);
    }
  }

  lemma NeverStored(events: seq<Event>, key: string)
    requires !HasKey(Run(events), key)
    ensures TimesFoundResolved(events, key) == 0
  {
    if events != [] {
      hide After;
      var rows, e := Run(events[..|events| - 1]), events[|events| - 1];
      AfterRecurrence(rows, e);
      assert !HasKey(rows, key);
      NeverStored(events[..|events| - 1], key);
    }
  }

  /** Over every run an alert's recurrence count is one more than the number of refreshes that found
      it resolved. */
  lemma {:induction false} RecurrenceCounts(events: seq<Event>, i: nat)
    requires i < |Run(events)|
    ensures Run(events)[i].recurrence == 1 + TimesFoundResolved(events, Run(events)[i].key)
  {
    hide After, FindsResolved;
    var rows, e := Run(events[..|events| - 1]), events[|events| - 1];
    AfterRecurrence(rows, e);
    if i < |rows| {
      RecurrenceCounts(events[..|events| - 1], i);
    } else {
      var key := After(rows, e)[i].key;
      Unknown(rows, e, i);
      NeverStored(events[..|events| - 1], key);
    }
  }

  lemma Unknown(rows: seq<Alert>, e: Event, i: nat)
    requires Valid(rows) && |rows| <= i < |After(rows, e)|
    ensures !HasKey(rows, After(rows, e)[i].key) && !FindsResolved(rows, e, After(rows, e)[i].key)
  {
    AfterRecurrence(rows, e);
    hide After;
    forall j | 0 <= j < |rows| ensures rows[j].key != After(rows, e)[i].key {
      assert After(rows, e)[j].key == rows[j].key;
    }
  }

  /* ----- Repeating a refresh ----- */

  lemma NothingLapses(rows: seq<Alert>, listed: seq<Alert>, keys: set<string>, clock: nat -> int, t: nat)
    requires forall a :: a in listed ==> a.id < |rows| && a.key in keys
    ensures LapseAll(rows, listed, keys, clock, t) == rows
  {
    if listed != [] {
      assert listed == listed[..|listed| - 1] + [listed[|listed| - 1]];
    }
  }

  ghost predicate SameStanding(before: seq<Alert>, after: seq<Alert>) {
    && |after| == |before|
    && forall i :: 0 <= i < |before| ==>
         && after[i].key == before[i].key && after[i].state == before[i].state
         && after[i].recurrence == before[i].recurrence
  }

  lemma TouchingActiveKeys(rows: seq<Alert>, up: seq<Alert>, handled: set<string>, keys: set<string>)
    requires Valid(rows) && Valid(up) && Touched(rows, up, handled) && handled <= keys
    requires ActiveKeysAre(rows, keys)
    ensures SameStanding(rows, up) && forall i :: 0 <= i < |up| && Active(up[i]) ==> up[i].key in keys
  {
    forall k | k in keys ensures HasKey(rows, k) {
      assert HasActive(rows, k);
    }
    NewKeyIsNew(rows, up);
    forall i | 0 <= i < |rows| && rows[i].key in handled ensures Active(rows[i]) {
      assert HasActive(rows, rows[i].key);
    }
    forall i | 0 <= i < |up| && Active(up[i]) ensures up[i].key in keys {
      assert HasActive(rows, rows[i].key);
    }
  }

  lemma NewKeyIsNew(rows: seq<Alert>, up: seq<Alert>)
    requires Valid(up) && |rows| <= |up| && forall i :: 0 <= i < |rows| ==> up[i].key == rows[i].key
    ensures |rows| < |up| ==> !HasKey(rows, up[|rows|].key)
  {
  }

  /** When the active keys are the candidates' keys, a further refresh leaves every state and
      recurrence count as it is, even one that stops with an integrity error. */
  lemma RepeatChangesNothing(rows: seq<Alert>, cs: seq<Candidate>, clock: nat -> int)
    requires Valid(rows) && ActiveKeysAre(rows, Keys(cs))
    ensures SameStanding(rows, Refreshed(rows, cs, clock).rows)
  {
    hide Upserts, LapseAll, Listing, ActiveRows, Touched, ActiveKeysAre, SameStanding, Valid;
    var up := Upserts(rows, cs, clock);
    UpsertsTouch(rows, cs, clock);
    assert Keys(cs[..up.handled]) <= Keys(cs);
    TouchingActiveKeys(rows, up.rows, Keys(cs[..up.handled]), Keys(cs));
    if up.handled == |cs| {
      ListedIds(up.rows);
      NothingLapses(up.rows, Listing(ActiveRows(up.rows)), Keys(cs), clock, |cs|);
    }
  }

  /** Two refreshes in a row with the same candidates. */
  lemma SecondRefreshIsNeutral(rows: seq<Alert>, cs: seq<Candidate>, clock: nat -> int, again: nat -> int)
    requires Valid(rows) && DistinctKeys(cs) && |rows| <= LIST_LIMIT
    requires |cs| + StaleCount(rows, Keys(cs)) <= LIST_LIMIT
    ensures
      var first := After(rows, Refreshing(cs, clock));
      SameStanding(first, After(first, Refreshing(cs, again)))
  {
    hide Refreshed, StaleCount, Keys, SameStanding;
    RefreshRecurrence(rows, cs, clock);
    SmallTableRefresh(rows, cs, clock);
    RepeatChangesNothing(Refreshed(rows, cs, clock).rows, cs, again);
  }

  /* ----- The alert state machine ----- */

  /** What the state says about the marks: an open alert carries none, an acknowledged or resolved
      one carries its own. */
  ghost predicate Marked(a: Alert) {
    && a.recurrence >= 1
    && match a.state
       case Open => a.acknowledgedAt.None? && a.acknowledgedBy.None? && a.resolvedAt.None? && a.resolvedBy.None?
       case Acknowledged => a.acknowledgedAt.Some? && a.acknowledgedBy.Some?
       case Resolved => a.resolvedAt.Some?
  }

  ghost predicate AllMarked(rows: seq<Alert>) { forall i :: 0 <= i < |rows| ==> Marked(rows[i]) }

  lemma {:induction false} UpsertAllMarks(rows: seq<Alert>, known: map<string, nat>, cs: seq<Candidate>,
      clock: nat -> int)
    requires AllMarked(rows) && forall k :: k in known ==> known[k] < |rows|
    ensures AllMarked(UpsertAll(rows, known, cs, clock).rows)
  {
    if cs != [] {
      UpsertAllMarks(rows, known, cs[..|cs| - 1], clock);
    }
  }

  lemma {:induction false} LapseAllMarks(rows: seq<Alert>, listed: seq<Alert>, keys: set<string>,
      clock: nat -> int, t: nat)
    requires AllMarked(rows) && forall a :: a in listed ==> a.id < |rows|
    ensures AllMarked(LapseAll(rows, listed, keys, clock, t))
  {
    if listed != [] {
      assert listed == listed[..|listed| - 1] + [listed[|listed| - 1]];
      LapseAllMarks(rows, listed[..|listed| - 1], keys, clock, t);
    }
  }

  lemma RefreshMarks(rows: seq<Alert>, cs: seq<Candidate>, clock: nat -> int)
    requires Valid(rows) && AllMarked(rows)
    ensures AllMarked(Refreshed(rows, cs, clock).rows)
  {
    hide UpsertAll, LapseAll, Listing, ActiveRows, Keys, AllMarked;
    ListingMembers(rows);
    IndexLeadsBack(Listing(rows), rows);
    UpsertAllMarks(rows, Index(Listing(rows)), cs, clock);
    var up := Upserts(rows, cs, clock);
    if up.handled == |cs| {
      ListedIds(up.rows);
      LapseAllMarks(up.rows, Listing(ActiveRows(up.rows)), Keys(cs), clock, |cs|);
    }
  }

  /** Every row of every run carries the marks of its state. */
  lemma {:induction false} RunMarks(events: seq<Event>)
    ensures AllMarked(Run(events))
  {
    if events != [] {
      hide Refreshed, Valid;
      var rows, e := Run(events[..|events| - 1]), events[|events| - 1];
      RunMarks(events[..|events| - 1]);
      if e.Refreshing? {
        RefreshMarks(rows, e.cs, e.clock);
      }
    }
  }

  /* ----- The service ----- */

  lemma LapseNext(rows: seq<Alert>, listed: seq<Alert>, keys: set<string>, clock: nat -> int, t: nat, n: nat)
    requires (forall a :: a in listed ==> a.id < |rows|) && n < |listed|
    ensures
      var earlier := LapseAll(rows, listed[..n], keys, clock, t);
      LapseAll(rows, listed[..n + 1], keys, clock, t) ==
      if listed[n].key in keys then earlier
      else earlier[listed[n].id := Lapsed(earlier[listed[n].id], clock(t + 2 * n), clock(t + 2 * n + 1))]
  {
    assert listed[..n + 1][..n] == listed[..n];
  }

  lemma UpsertNext(rows: seq<Alert>, known: map<string, nat>, cs: seq<Candidate>, clock: nat -> int, n: nat)
    requires (forall k :: k in known ==> known[k] < |rows|) && n < |cs|
    requires UpsertAll(rows, known, cs[..n], clock).handled == n
    ensures
      var earlier := UpsertAll(rows, known, cs[..n], clock).rows;
      var next := Upsert(earlier, known, cs[n], clock(n));
      next.Some? ==> UpsertAll(rows, known, cs[..n + 1], clock) == Upserted(next.value, n + 1)
  {
    assert cs[..n + 1][..n] == cs[..n];
  }

  lemma UpsertNone(rows: seq<Alert>, known: map<string, nat>, clock: nat -> int)
    requires forall k :: k in known ==> known[k] < |rows|
    ensures UpsertAll(rows, known, [], clock) == Upserted(rows, 0)
  {
  }

  lemma LapseNone(rows: seq<Alert>, keys: set<string>, clock: nat -> int, t: nat)
    ensures LapseAll(rows, [], keys, clock, t) == rows
  {
  }

  lemma RefreshedValid(rows: seq<Alert>, cs: seq<Candidate>, clock: nat -> int)
    requires Valid(rows)
    ensures Valid(Refreshed(rows, cs, clock).rows)
  {
    hide Refreshed;
    RefreshRecurrence(rows, cs, clock);
  }

  class AlertStore {
    var rows: seq<Alert>

    constructor ()
      ensures rows == []
    {
      rows := [];
    }

    /** False when the unique key stopped it with an integrity error. */
    method RefreshAlerts(cs: seq<Candidate>, clock: nat -> int) returns (completed: bool)
      requires Valid(rows)
      modifies this
      ensures Valid(rows)
      ensures
        var r := Refreshed(old(rows), cs, clock);
        rows == r.rows && (completed <==> r.handled == |cs|)
    {
      hide UpsertAll, LapseAll, Listing, ActiveRows, Index, Valid, Indexes, Keys;
      ghost var before := rows;
      RefreshedValid(before, cs, clock);
      ListingMembers(rows);
      IndexLeadsBack(Listing(rows), rows);
      IndexBounds(Index(Listing(rows)), rows);
      completed := StoreCandidates(cs, Index(Listing(rows)), clock);
      if completed {
        assert Valid(rows) && rows == Upserts(before, cs, clock).rows;
        ListedIds(rows);
        LapseListed(Listing(ActiveRows(rows)), Keys(cs), clock, |cs|);
      }
    }

    /** The loop over the candidates. */
    method StoreCandidates(cs: seq<Candidate>, known: map<string, nat>, clock: nat -> int) returns (completed: bool)
      requires forall k :: k in known ==> known[k] < |rows|
      modifies this
      ensures
        var r := UpsertAll(old(rows), known, cs, clock);
        rows == r.rows && (completed <==> r.handled == |cs|)
    {
      hide Upsert, UpsertAll;
      ghost var before := rows;
      UpsertNone(before, known, clock);
      for n := 0 to |cs|
        invariant UpsertAll(before, known, cs[..n], clock) == Upserted(rows, n)
        invariant |rows| >= |before|
      {
        UpsertNext(before, known, cs, clock, n);
        var next := Upsert(rows, known, cs[n], clock(n));
        if next.None? {
          StopsHere(before, known, cs, clock, n);
          return false;
        }
        rows := next.value;
      }
      assert cs[..|cs|] == cs;
      return true;
    }

    /** The loop over the active alerts. */
    method LapseListed(listed: seq<Alert>, keys: set<string>, clock: nat -> int, t: nat)
      requires forall a :: a in listed ==> a.id < |rows|
      modifies this
      ensures rows == LapseAll(old(rows), listed, keys, clock, t)
    {
      hide LapseAll, Lapsed;
      ghost var before := rows;
      LapseNone(rows, keys, clock, t);
      for n := 0 to |listed|
        invariant rows == LapseAll(before, listed[..n], keys, clock, t)
      {
        LapseNext(before, listed, keys, clock, t, n);
        if listed[n].key !in keys {
          var resolvedAt, updatedAt := clock(t + 2 * n), clock(t + 2 * n + 1);
          rows := rows[listed[n].id := Lapsed(rows[listed[n].id], resolvedAt, updatedAt)];
        }
      }
      assert listed[..|listed|] == listed;
    }

    method AcknowledgeAlert(id: nat, actor: string, at: int, updatedAt: int) returns (alert: Option<Alert>)
      requires Valid(rows)
      modifies this
      ensures Valid(rows)
      ensures rows == After(old(rows), Acknowledging(id, actor, at, updatedAt))
      ensures alert == if id < |rows| then Some(rows[id]) else None
    {
      if id >= |rows| {
        return None;
      }
      rows := rows[id := Acknowledge(rows[id], actor, at, updatedAt)];
      return Some(rows[id]);
    }

    method ResolveAlert(id: nat, actor: string, at: int, updatedAt: int) returns (alert: Option<Alert>)
      requires Valid(rows)
      modifies this
      ensures Valid(rows)
      ensures rows == After(old(rows), Resolving(id, actor, at, updatedAt))
      ensures alert == if id < |rows| then Some(rows[id]) else None
    {
      if id >= |rows| {
        return None;
      }
      rows := rows[id := Resolve(rows[id], actor, at, updatedAt)];
      return Some(rows[id]);
    }
  }

  lemma {:induction false} StopsHere(rows: seq<Alert>, known: map<string, nat>, cs: seq<Candidate>,
      clock: nat -> int, n: nat)
    requires (forall k :: k in known ==> known[k] < |rows|) && n < |cs|
    requires UpsertAll(rows, known, cs[..n], clock).handled == n
    requires Upsert(UpsertAll(rows, known, cs[..n], clock).rows, known, cs[n], clock(n)).None?
    ensures UpsertAll(rows, known, cs, clock) == UpsertAll(rows, known, cs[..n], clock)
    decreases |cs|
  {
    hide Upsert;
    var m := |cs| - 1;
    if n < m {
      assert cs[..m][..n] == cs[..n];
      StopsHere(rows, known, cs[..m], clock, n);
    }
  }
}
