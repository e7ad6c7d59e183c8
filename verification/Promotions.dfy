/** Promotion requests: each call decides every pending request under a rolling budget of
    promotions per minute, recomputed from the stored rows. Times are microseconds. */
module Promotions {
  import opened Basics
  import opened Ordering

  const MINUTE := 60_000_000

  datatype Status = Pending | Accepted | Rejected | Expired

  datatype Request = Request(
    id: nat, instrument: string, score: real, status: Status,
    requestedAt: int, expiresAt: Option<int>, updatedAt: int)

  /** What the watchlist holds for an instrument. */
  datatype WatchEntry = WatchEntry(
    tier1: bool, active: bool, pinned: bool, byPromotion: bool,
    promotionExpiresAt: Option<int>, cooldownUntil: Option<int>)

  datatype Settings = Settings(maxPerMinute: nat, threshold: real)

  /** Stored rows by id. */
  type Rows = map<nat, Request>

  /** Highest score first, then oldest, then lowest id. */
  predicate RequestLe(a: Request, b: Request) {
    if a.score != b.score then a.score > b.score
    else if a.requestedAt != b.requestedAt then a.requestedAt < b.requestedAt
    else a.id <= b.id
  }

  predicate AlreadyStreamed(w: Option<WatchEntry>, now: int) {
    && w.Some? && w.value.tier1 && w.value.active
    && (w.value.pinned
        || !(w.value.byPromotion && w.value.promotionExpiresAt.Some? && w.value.promotionExpiresAt.value < now))
  }

  predicate PassesCooldown(w: Option<WatchEntry>, now: int) {
    w.None? || w.value.cooldownUntil.None? || w.value.cooldownUntil.value <= now
  }

  datatype Verdict = Lapses | Skips | BelowThreshold | CoolingDown | BudgetExhausted | Promotes

  function Judge(s: Settings, r: Request, w: Option<WatchEntry>, now: int, budget: nat): Verdict {
    if r.expiresAt.Some? && r.expiresAt.value < now then Lapses
    else if AlreadyStreamed(w, now) then Skips
    else if r.score < s.threshold then BelowThreshold
    else if !PassesCooldown(w, now) then CoolingDown
    else if budget <= 0 then BudgetExhausted
    else Promotes
  }

  function StatusAfter(v: Verdict): Status {
    match v
    case Lapses => Expired
    case Skips => Accepted
    case Promotes => Accepted
    case _ => Rejected
  }

  /** Rows that count against the budget at a moment. */
  function AcceptedSince(rows: Rows, cutoff: int): set<nat> {
    set id | id in rows && rows[id].status.Accepted? && rows[id].updatedAt >= cutoff
  }

  function Budget(s: Settings, rows: Rows, now: int): nat {
    var recent := |AcceptedSince(rows, now - MINUTE)|;
    if s.maxPerMinute >= recent then s.maxPerMinute - recent else 0
  }

  datatype Tally = Tally(accepted: nat, rejected: nat, expired: nat, skipped: nat)

  /** The table, the counters, the budget left and the ids really promoted, part way through a call. */
  datatype Progress = Progress(rows: Rows, tally: Tally, budget: nat, promoted: seq<nat>)

  function CountVerdict(t: Tally, v: Verdict): Tally {
    match v
    case Lapses => t.(expired := t.expired + 1)
    case Skips => t.(skipped := t.skipped + 1)
    case Promotes => t.(accepted := t.accepted + 1)
    case _ => t.(rejected := t.rejected + 1)
  }

  function Apply(p: Progress, r: Request, v: Verdict, now: int): Progress {
    Progress(
      p.rows[r.id := r.(status := StatusAfter(v), updatedAt := now)],
      CountVerdict(p.tally, v),
      if v.Promotes? && p.budget > 0 then p.budget - 1 else p.budget,
      if v.Promotes? then p.promoted + [r.id] else p.promoted)
  }

  /** The call after n requests; `watch[n]` is what the watchlist answered for the n-th. */
  function Process(s: Settings, rows: Rows, order: seq<Request>, watch: seq<Option<WatchEntry>>, now: int,
      n: nat): Progress
    requires n <= |order| <= |watch|
  {
    if n == 0 then Progress(rows, Tally(0, 0, 0, 0), Budget(s, rows, now), [])
    else
      var p := Process(s, rows, order, watch, now, n - 1);
      Apply(p, order[n - 1], Judge(s, order[n - 1], watch[n - 1], now, p.budget), now)
  }

  /** The pending rows of a table keyed by id, each once, in any order a query may return them. */
  ghost predicate Lists(pending: seq<Request>, rows: Rows) {
    && (forall i :: 0 <= i < |pending| ==>
          pending[i].id in rows && rows[pending[i].id] == pending[i] && pending[i].status.Pending?)
    && (forall i, j :: 0 <= i < j < |pending| ==> pending[i].id != pending[j].id)
    && (forall id :: id in rows && rows[id].status.Pending? ==> rows[id] in pending && rows[id].id == id)
  }

  function Outcome(s: Settings, rows: Rows, pending: seq<Request>, watch: seq<Option<WatchEntry>>, now: int): Progress
    requires |watch| == |pending|
  {
    SortContentsLength(pending);
    Process(s, rows, StableSort(RequestLe, pending), watch, now, |pending|)
  }

  lemma SortContentsLength(pending: seq<Request>)
    ensures |StableSort(RequestLe, pending)| == |pending|
  {
    SortContents(RequestLe, pending);
  }

  class RequestTable {
    var rows: Rows

    constructor (rows: Rows)
      ensures this.rows == rows
    {
      this.rows := rows;
    }

    method AllocatePending(s: Settings, pending: seq<Request>, watch: seq<Option<WatchEntry>>, now: int)
      returns (tally: Tally, ghost promoted: seq<nat>)
      requires |watch| == |pending|
      modifies this
      ensures
        var p := Outcome(s, old(rows), pending, watch, now);
        rows == p.rows && tally == p.tally && promoted == p.promoted
    {
      SortContentsLength(pending);
      hide AlreadyStreamed, PassesCooldown, AcceptedSince, StableSort, Budget;
      var order := StableSort(RequestLe, pending);
      var remaining := Budget(s, rows, now);
      tally, promoted := Tally(0, 0, 0, 0), [];
      ghost var before := rows;
      for n := 0 to |order|
        invariant Progress(rows, tally, remaining, promoted) == Process(s, before, order, watch, now, n)
      {
        var r, w := order[n], watch[n];
        if r.expiresAt.Some? && r.expiresAt.value < now {
          rows := rows[r.id := r.(status := Expired, updatedAt := now)];
          tally := tally.(expired := tally.expired + 1);
        } else if AlreadyStreamed(w, now) {
          rows := rows[r.id := r.(status := Accepted, updatedAt := now)];
          tally := tally.(skipped := tally.skipped + 1);
        } else if r.score < s.threshold || !PassesCooldown(w, now) || remaining <= 0 {
          rows := rows[r.id := r.(status := Rejected, updatedAt := now)];
          tally := tally.(rejected := tally.rejected + 1);
        } else {
          rows := rows[r.id := r.(status := Accepted, updatedAt := now)];
          tally := tally.(accepted := tally.accepted + 1);
          remaining := remaining - 1;
          promoted := promoted + [r.id];
        }
      }
    }
  }

  /* ----- One call ----- */

  /** Every request is counted once and the promotions fit the budget. */
  lemma {:induction false} ProcessCounts(s: Settings, rows: Rows, order: seq<Request>, watch: seq<Option<WatchEntry>>,
                                         now: int, n: nat)
    requires n <= |order| <= |watch|
    ensures
      var p := Process(s, rows, order, watch, now, n);
      && p.tally.accepted + p.tally.rejected + p.tally.expired + p.tally.skipped == n
      && p.tally.accepted == |p.promoted|
      && p.budget + |p.promoted| == Budget(s, rows, now)
  {
    if n > 0 {
      ProcessCounts(s, rows, order, watch, now, n - 1);
    }
  }

  /** The requests processed are decided at `now`; every other row is as it was. */
  lemma {:induction false} ProcessRows(s: Settings, rows: Rows, order: seq<Request>, watch: seq<Option<WatchEntry>>,
                                       now: int, n: nat)
    requires n <= |order| <= |watch| && Lists(order, rows)
    ensures
      var p := Process(s, rows, order, watch, now, n);
      && p.rows.Keys == rows.Keys
      && (forall i :: 0 <= i < n ==> Decided(p.rows, order[i].id, now))
      && (forall i :: n <= i < |order| ==> p.rows[order[i].id] == order[i])
      && (forall id :: id in rows && !rows[id].status.Pending? ==> p.rows[id] == rows[id])
  {
    if n > 0 {
      ProcessRows(s, rows, order, watch, now, n - 1);
      var p, r := Process(s, rows, order, watch, now, n - 1), order[n - 1];
      hide Process, Judge, Budget;
      DecidesOne(p, r, Judge(s, r, watch[n - 1], now, p.budget), now);
      assert forall i :: 0 <= i < |order| && i != n - 1 ==> order[i].id != r.id;
    }
  }

  lemma DecidesOne(p: Progress, r: Request, v: Verdict, now: int)
    requires r.id in p.rows && p.rows[r.id].status.Pending?
    ensures
      var next := Apply(p, r, v, now).rows;
      && next.Keys == p.rows.Keys && Decided(next, r.id, now)
      && (forall id :: id in p.rows && id != r.id ==> next[id] == p.rows[id])
  {
  }

  ghost predicate Decided(rows: Rows, id: nat, now: int) {
    id in rows && !rows[id].status.Pending? && rows[id].updatedAt == now
  }

  /** A promotion is an accepted row, stamped with the time of the call, that was pending before. */
  ghost predicate PromotedBy(before: Rows, after: Rows, id: nat, now: int) {
    && id in before && before[id].status.Pending?
    && id in after && after[id].status.Accepted? && after[id].updatedAt == now
  }

  lemma {:induction false} ProcessPromotes(s: Settings, rows: Rows, order: seq<Request>, watch: seq<Option<WatchEntry>>,
                                           now: int, n: nat)
    requires n <= |order| <= |watch| && Lists(order, rows)
    ensures
      var p := Process(s, rows, order, watch, now, n);
      && (forall i :: 0 <= i < |p.promoted| ==> PromotedBy(rows, p.rows, p.promoted[i], now))
      && (forall i, j :: 0 <= i < j < |p.promoted| ==> p.promoted[i] != p.promoted[j])
  {
    if n > 0 {
      ProcessPromotes(s, rows, order, watch, now, n - 1);
      ProcessRows(s, rows, order, watch, now, n - 1);
      var earlier := Process(s, rows, order, watch, now, n - 1);
      var r := order[n - 1];
      assert earlier.rows[r.id] == r && r.status.Pending?;
      hide Process;
      KeepsPromoted(rows, earlier, r, Judge(s, r, watch[n - 1], now, earlier.budget), now);
    }
  }

  lemma KeepsPromoted(rows: Rows, p: Progress, r: Request, v: Verdict, now: int)
    requires forall i :: 0 <= i < |p.promoted| ==> PromotedBy(rows, p.rows, p.promoted[i], now)
    requires forall i, j :: 0 <= i < j < |p.promoted| ==> p.promoted[i] != p.promoted[j]
    requires r.id in p.rows && p.rows[r.id] == r && r.id in rows && rows[r.id] == r && r.status.Pending?
    ensures
      var next := Apply(p, r, v, now);
      && (forall i :: 0 <= i < |next.promoted| ==> PromotedBy(rows, next.rows, next.promoted[i], now))
      && (forall i, j :: 0 <= i < j < |next.promoted| ==> next.promoted[i] != next.promoted[j])
  {
  }

  lemma SortedStillLists(pending: seq<Request>, rows: Rows)
    requires Lists(pending, rows)
    ensures Lists(StableSort(RequestLe, pending), rows)
  {
    var order := StableSort(RequestLe, pending);
    SortContents(RequestLe, pending);
    forall i | 0 <= i < |order|
      ensures order[i].id in rows && rows[order[i].id] == order[i] && order[i].status.Pending?
    {
      assert order[i] in pending;
    }
    forall i, j | 0 <= i < j < |order| ensures order[i].id != order[j].id {
      if order[i].id == order[j].id {
        assert order[i] == order[j];
        TwiceInSorted(pending, order, i, j);
      }
    }
  }

  lemma TwiceInSorted(pending: seq<Request>, order: seq<Request>, i: nat, j: nat)
    requires multiset(pending) == multiset(order) && i < j < |order| && order[i] == order[j]
    ensures exists a, b :: 0 <= a < b < |pending| && pending[a].id == pending[b].id
  {
    var x := order[i];
    assert order == order[..i] + [x] + order[i + 1..j] + [x] + order[j + 1..];
    assert multiset(order)[x] >= 2;
    var a, b := TwoPlaces(pending, x);
    assert pending[a].id == pending[b].id;
  }

  lemma TwoPlaces(xs: seq<Request>, x: Request) returns (a: nat, b: nat)
    requires multiset(xs)[x] >= 2
    ensures a < b < |xs| && xs[a] == x && xs[b] == x
  {
    assert x in multiset(xs);
    a :| 0 <= a < |xs| && xs[a] == x;
    var rest := xs[..a] + xs[a + 1..];
    assert xs == xs[..a] + [x] + xs[a + 1..];
    assert multiset(xs) == multiset(rest) + multiset{x};
    assert x in multiset(rest);
    var k :| 0 <= k < |rest| && rest[k] == x;
    b := if k < a then k else k + 1;
    if b < a {
      a, b := b, a;
    }
  }

  /** One call, whatever the watchlist answers: every pending row is decided and counted once, no
      other row changes, and the promotions are distinct, stamped, and within the budget. */
  lemma CallDecidesAll(s: Settings, rows: Rows, pending: seq<Request>, watch: seq<Option<WatchEntry>>, now: int)
    requires Lists(pending, rows) && |watch| == |pending|
    ensures
      var p := Outcome(s, rows, pending, watch, now);
      && p.tally.accepted + p.tally.rejected + p.tally.expired + p.tally.skipped == |pending|
      && p.tally.accepted == |p.promoted| <= Budget(s, rows, now)
      && p.rows.Keys == rows.Keys
      && (forall id :: id in p.rows ==> !p.rows[id].status.Pending?)
      && (forall id :: id in rows && !rows[id].status.Pending? ==> p.rows[id] == rows[id])
      && (forall i :: 0 <= i < |p.promoted| ==> PromotedBy(rows, p.rows, p.promoted[i], now))
      && (forall i, j :: 0 <= i < j < |p.promoted| ==> p.promoted[i] != p.promoted[j])
  {
    var order := StableSort(RequestLe, pending);
    SortContents(RequestLe, pending);
    SortedStillLists(pending, rows);
    ProcessCounts(s, rows, order, watch, now, |order|);
    ProcessRows(s, rows, order, watch, now, |order|);
    ProcessPromotes(s, rows, order, watch, now, |order|);
    hide Process, Budget, PromotedBy, StableSort, Lists;
    var p := Outcome(s, rows, pending, watch, now);
    forall id | id in p.rows ensures !p.rows[id].status.Pending? {
      if rows[id].status.Pending? {
        var i := PlaceOf(pending, order, rows, id);
        assert Decided(p.rows, order[i].id, now);
      }
    }
  }

  lemma PlaceOf(pending: seq<Request>, order: seq<Request>, rows: Rows, id: nat) returns (i: nat)
    requires Lists(pending, rows) && id in rows && rows[id].status.Pending?
    requires forall r :: r in order <==> r in pending
    ensures i < |order| && order[i].id == id
  {
    assert rows[id] in order;
    i :| 0 <= i < |order| && order[i] == rows[id];
  }

  /* ----- Who is promoted ----- */

  /** The request's time is over. */
  predicate Overdue(r: Request, now: int) { r.expiresAt.Some? && now > r.expiresAt.value }

  /** The instrument is streamed: an active tier-1 entry that is pinned, or was not put there by a promotion
      whose time is over. */
  predicate Streamed(w: Option<WatchEntry>, now: int) {
    match w
    case None => false
    case Some(e) =>
      && e.tier1 && e.active
      && (e.pinned || !e.byPromotion || e.promotionExpiresAt.None? || now <= e.promotionExpiresAt.value)
  }

  predicate Cooling(w: Option<WatchEntry>, now: int) {
    w.Some? && w.value.cooldownUntil.Some? && now < w.value.cooldownUntil.value
  }

  /** In time, not streamed already, with a score of at least the threshold, and with its cooldown over. */
  predicate Eligible(s: Settings, r: Request, w: Option<WatchEntry>, now: int) {
    (r.expiresAt.Some? ==> now <= r.expiresAt.value) && !Streamed(w, now) && s.threshold <= r.score && !Cooling(w, now)
  }

  function EligibleIds(s: Settings, order: seq<Request>, watch: seq<Option<WatchEntry>>, now: int, n: nat): seq<nat>
    requires n <= |order| <= |watch|
  {
    if n == 0 then []
    else
      EligibleIds(s, order, watch, now, n - 1)
      + (if Eligible(s, order[n - 1], watch[n - 1], now) then [order[n - 1].id] else [])
  }

  /** Nobody is passed over: the promoted requests are the eligible ones in ranking order, as many
      as the budget allows. */
  lemma {:induction false} FirstEligiblePromoted(s: Settings, rows: Rows, order: seq<Request>,
                                                 watch: seq<Option<WatchEntry>>, now: int, n: nat)
    requires n <= |order| <= |watch|
    ensures Process(s, rows, order, watch, now, n).promoted
         == First(Budget(s, rows, now), EligibleIds(s, order, watch, now, n))
  {
    if n > 0 {
      FirstEligiblePromoted(s, rows, order, watch, now, n - 1);
      ProcessCounts(s, rows, order, watch, now, n - 1);
      EligibleWithBudget(s, order[n - 1], watch[n - 1], now, Process(s, rows, order, watch, now, n - 1).budget);
      hide Judge, Budget, Eligible;
      var ids := EligibleIds(s, order, watch, now, n - 1);
      assert (ids + [order[n - 1].id])[..|ids|] == ids;
    }
  }

  lemma EligibleWithBudget(s: Settings, r: Request, w: Option<WatchEntry>, now: int, budget: nat)
    ensures Judge(s, r, w, now, budget).Promotes? <==> Eligible(s, r, w, now) && budget > 0
  {
  }

  /* ----- Ranking ----- */

  /** A higher score, or as high a score and older, or both as old and of lower id. */
  predicate Outranks(a: Request, b: Request) {
    || a.score > b.score
    || (a.score == b.score && a.requestedAt < b.requestedAt)
    || (a.score == b.score && a.requestedAt == b.requestedAt && a.id < b.id)
  }

  lemma RequestOrder()
    ensures TotalPreorder(RequestLe)
  {
  }

  /** The requests are decided in that order, each pending one once. */
  lemma RankedOrder(rows: Rows, pending: seq<Request>, i: nat, j: nat)
    requires Lists(pending, rows) && i < j < |pending|
    ensures
      var order := StableSort(RequestLe, pending);
      |order| == |pending| && Outranks(order[i], order[j])
  {
    hide StableSort, Lists;
    SortContentsLength(pending);
    RequestOrder();
    SortSorted(RequestLe, pending);
    SortedStillLists(pending, rows);
    var order := StableSort(RequestLe, pending);
    DistinctIds(order, rows, i, j);
  }

  lemma DistinctIds(order: seq<Request>, rows: Rows, i: nat, j: nat)
    requires Lists(order, rows) && i < j < |order|
    ensures order[i].id != order[j].id
  {
  }

  /* ----- What a call makes of each request ----- */

  /** Ids of the rows accepted within the last minute. */
  function AcceptedLately(rows: Rows, now: int): set<nat> {
    set id | id in rows && rows[id].status == Accepted && now - rows[id].updatedAt <= MINUTE
  }

  lemma BudgetIs(s: Settings, rows: Rows, now: int)
    ensures Budget(s, rows, now) == IntMax(0, s.maxPerMinute - |AcceptedLately(rows, now)|)
  {
    assert AcceptedLately(rows, now) == AcceptedSince(rows, now - MINUTE);
  }

  /** The status a decided request ends up in. */
  function StatusFor(r: Request, w: Option<WatchEntry>, now: int, promoted: bool): Status {
    if Overdue(r, now) then Expired else if Streamed(w, now) || promoted then Accepted else Rejected
  }

  lemma {:induction false} PromotedOnce(s: Settings, rows: Rows, order: seq<Request>, watch: seq<Option<WatchEntry>>,
                                        now: int, n: nat, id: nat)
    requires n <= |order| <= |watch| && id in Process(s, rows, order, watch, now, n).promoted
    ensures exists j :: 0 <= j < n && order[j].id == id && Eligible(s, order[j], watch[j], now)
  {
    if n > 0 {
      var p := Process(s, rows, order, watch, now, n - 1);
      EligibleWithBudget(s, order[n - 1], watch[n - 1], now, p.budget);
      if id in p.promoted {
        PromotedOnce(s, rows, order, watch, now, n - 1, id);
      } else {
        assert order[n - 1].id == id;
      }
    }
  }

  lemma NotYetPromoted(s: Settings, rows: Rows, order: seq<Request>, watch: seq<Option<WatchEntry>>, now: int, n: nat)
    requires n < |order| <= |watch| && Lists(order, rows)
    ensures order[n].id !in Process(s, rows, order, watch, now, n).promoted
  {
    forall j | 0 <= j < n ensures order[j].id != order[n].id {
      DistinctIds(order, rows, j, n);
    }
    hide Process, Lists, Eligible;
    if order[n].id in Process(s, rows, order, watch, now, n).promoted {
      PromotedOnce(s, rows, order, watch, now, n, order[n].id);
      assert false;
    }
  }

  /** The n-th request is promoted by its own turn or not at all. */
  lemma {:induction false} TurnDecides(s: Settings, rows: Rows, order: seq<Request>, watch: seq<Option<WatchEntry>>,
                                       now: int, n: nat, i: nat)
    requires i < n <= |order| <= |watch| && Lists(order, rows)
    ensures
      var p := Process(s, rows, order, watch, now, n);
      var promoted := order[i].id in p.promoted;
      && order[i].id in p.rows
      && p.rows[order[i].id] == order[i].(status := StatusFor(order[i], watch[i], now, promoted), updatedAt := now)
      && (promoted <==> Eligible(s, order[i], watch[i], now) && Process(s, rows, order, watch, now, i).budget > 0)
  {
    var p := Process(s, rows, order, watch, now, n - 1);
    var r := order[n - 1];
    if i < n - 1 {
      TurnDecides(s, rows, order, watch, now, n - 1, i);
      DistinctIds(order, rows, i, n - 1);
      hide Judge, StatusFor, Eligible, Lists;
    } else {
      NotYetPromoted(s, rows, order, watch, now, n - 1);
      EligibleWithBudget(s, r, watch[n - 1], now, p.budget);
      hide Process, Lists;
      JudgedStatus(s, r, watch[n - 1], now, p.budget);
    }
  }

  lemma JudgedStatus(s: Settings, r: Request, w: Option<WatchEntry>, now: int, budget: nat)
    ensures
      var v := Judge(s, r, w, now, budget);
      StatusAfter(v) == StatusFor(r, w, now, v.Promotes?)
  {
  }

  /** One call, request by request: an overdue one expires, one whose instrument is streamed is accepted
      without a promotion, an eligible one is promoted as long as there is budget, and every other one is
      rejected; nothing of a request changes but its status and the time of its last update. */
  lemma RequestOutcome(s: Settings, rows: Rows, pending: seq<Request>, watch: seq<Option<WatchEntry>>, now: int, i: nat)
    requires Lists(pending, rows) && |watch| == |pending| && i < |pending|
    ensures
      var order, p := StableSort(RequestLe, pending), Outcome(s, rows, pending, watch, now);
      && |order| == |pending|
      && (order[i].id in p.promoted ==> Eligible(s, order[i], watch[i], now))
      && order[i].id in p.rows
      && p.rows[order[i].id]
         == order[i].(status := StatusFor(order[i], watch[i], now, order[i].id in p.promoted), updatedAt := now)
  {
    var order := StableSort(RequestLe, pending);
    SortContentsLength(pending);
    SortedStillLists(pending, rows);
    hide StableSort, Lists, Process, Eligible, StatusFor;
    TurnDecides(s, rows, order, watch, now, |order|, i);
  }

  /** An eligible request is passed over only when the promotions of the call and the rows accepted within the
      last minute have reached the limit, and then only for requests that outrank it. */
  lemma PassedOver(s: Settings, rows: Rows, pending: seq<Request>, watch: seq<Option<WatchEntry>>, now: int,
                   order: seq<Request>, i: nat)
    requires Lists(pending, rows) && |watch| == |pending| == |order|
    requires order == StableSort(RequestLe, pending) && i < |order| && Eligible(s, order[i], watch[i], now)
    ensures
      var p := Outcome(s, rows, pending, watch, now);
      order[i].id !in p.promoted ==>
        && |p.promoted| + |AcceptedLately(rows, now)| >= s.maxPerMinute
        && (forall id :: id in p.promoted ==> PromotedAbove(order, i, id))
  {
    SortedStillLists(pending, rows);
    hide StableSort, Lists, Eligible;
    TurnDecides(s, rows, order, watch, now, |order|, i);
    var p := Outcome(s, rows, pending, watch, now);
    if order[i].id !in p.promoted {
      NoBudgetLeft(s, rows, order, watch, now, i, |order|);
      BudgetIs(s, rows, now);
      forall id | id in p.promoted ensures PromotedAbove(order, i, id) {
        PromotedOnce(s, rows, order, watch, now, i, id);
        var j :| 0 <= j < i && order[j].id == id && Eligible(s, order[j], watch[j], now);
        RankedOrder(rows, pending, j, i);
      }
    }
  }

  /** A request of this id outranks the i-th. */
  ghost predicate PromotedAbove(order: seq<Request>, i: nat, id: nat)
    requires i < |order|
  {
    exists j :: 0 <= j < |order| && order[j].id == id && Outranks(order[j], order[i])
  }

  /** Once the budget is used up nothing more is promoted. */
  lemma {:induction false} NoBudgetLeft(s: Settings, rows: Rows, order: seq<Request>, watch: seq<Option<WatchEntry>>,
                                        now: int, i: nat, n: nat)
    requires i <= n <= |order| <= |watch| && Process(s, rows, order, watch, now, i).budget == 0
    ensures
      var p := Process(s, rows, order, watch, now, n);
      && p.budget == 0 && p.promoted == Process(s, rows, order, watch, now, i).promoted
      && |p.promoted| == Budget(s, rows, now)
    decreases n
  {
    ProcessCounts(s, rows, order, watch, now, n);
    if n > i {
      NoBudgetLeft(s, rows, order, watch, now, i, n - 1);
      EligibleWithBudget(s, order[n - 1], watch[n - 1], now, 0);
      hide Judge, Budget, Eligible;
    }
  }

  /* ----- The counters ----- */

  function CountStatus(order: seq<Request>, watch: seq<Option<WatchEntry>>, now: int, n: nat, expired: bool): nat
    requires n <= |order| <= |watch|
  {
    if n == 0 then 0
    else
      CountStatus(order, watch, now, n - 1, expired)
      + (if expired then (if Overdue(order[n - 1], now) then 1 else 0)
         else if !Overdue(order[n - 1], now) && Streamed(watch[n - 1], now) then 1 else 0)
  }

  /** The counters tell the overdue requests, the ones in time whose instrument is streamed, the promotions,
      and all others. */
  lemma CountersTell(s: Settings, rows: Rows, pending: seq<Request>, watch: seq<Option<WatchEntry>>, now: int)
    requires |watch| == |pending|
    ensures
      var order, p := StableSort(RequestLe, pending), Outcome(s, rows, pending, watch, now);
      && |order| == |pending|
      && p.tally.expired == CountStatus(order, watch, now, |order|, true)
      && p.tally.skipped == CountStatus(order, watch, now, |order|, false)
      && p.tally.accepted == |p.promoted|
      && p.tally.rejected == |pending| - p.tally.expired - p.tally.skipped - p.tally.accepted
  {
    SortContentsLength(pending);
    hide StableSort;
    var order := StableSort(RequestLe, pending);
    ProcessCounts(s, rows, order, watch, now, |order|);
    ProcessTells(s, rows, order, watch, now, |order|);
  }

  lemma {:induction false} ProcessTells(s: Settings, rows: Rows, order: seq<Request>, watch: seq<Option<WatchEntry>>,
                                        now: int, n: nat)
    requires n <= |order| <= |watch|
    ensures
      var tally := Process(s, rows, order, watch, now, n).tally;
      && tally.expired == CountStatus(order, watch, now, n, true)
      && tally.skipped == CountStatus(order, watch, now, n, false)
  {
    if n > 0 {
      ProcessTells(s, rows, order, watch, now, n - 1);
      JudgedKinds(s, order[n - 1], watch[n - 1], now, Process(s, rows, order, watch, now, n - 1).budget);
      hide Judge, Overdue, Streamed;
    }
  }

  lemma JudgedKinds(s: Settings, r: Request, w: Option<WatchEntry>, now: int, budget: nat)
    ensures Judge(s, r, w, now, budget).Lapses? <==> Overdue(r, now)
    ensures Judge(s, r, w, now, budget).Skips? <==> !Overdue(r, now) && Streamed(w, now)
  {
  }

  /* ----- Runs ----- */

  /** A promotion that took place. */
  datatype Promotion = Promotion(id: nat, at: int)

  datatype World = World(rows: Rows, history: seq<Promotion>, clock: int)

  datatype Step =
    | Call(pending: seq<Request>, watch: seq<Option<WatchEntry>>, now: int)
    | Others(rows: Rows)

  function Stamp(ids: seq<nat>, now: int): seq<Promotion> {
    if ids == [] then [] else Stamp(ids[..|ids| - 1], now) + [Promotion(ids[|ids| - 1], now)]
  }

  /** Calls do not overlap and their decision times do not decrease. Other code may do anything
      with the rows except rewrite accepted ones. */
  ghost predicate Enabled(x: World, step: Step) {
    match step
    case Call(pending, watch, now) => Lists(pending, x.rows) && |watch| == |pending| && now >= x.clock
    case Others(rows) =>
      forall id :: id in x.rows && x.rows[id].status.Accepted? ==> id in rows && rows[id] == x.rows[id]
  }

  ghost function Next(s: Settings, x: World, step: Step): World
    requires Enabled(x, step)
  {
    match step
    case Call(pending, watch, now) =>
      var p := Outcome(s, x.rows, pending, watch, now);
      World(p.rows, x.history + Stamp(p.promoted, now), now)
    case Others(rows) => x.(rows := rows)
  }

  /** Promotions in the closed window that starts at `from`. */
  function InWindow(history: seq<Promotion>, from: int): nat {
    if history == [] then 0
    else InWindow(history[..|history| - 1], from)
         + (if from <= history[|history| - 1].at <= from + MINUTE then 1 else 0)
  }

  ghost predicate Recorded(x: World) {
    && (forall i :: 0 <= i < |x.history| ==> RecordedAt(x.rows, x.history[i]) && x.history[i].at <= x.clock)
    && (forall i, j :: 0 <= i < j < |x.history| ==> x.history[i].id != x.history[j].id)
  }

  ghost predicate RecordedAt(rows: Rows, h: Promotion) {
    h.id in rows && rows[h.id].status.Accepted? && rows[h.id].updatedAt == h.at
  }

  ghost predicate WithinRate(s: Settings, history: seq<Promotion>) {
    forall from: int :: InWindow(history, from) <= s.maxPerMinute
  }

  function IdsSince(history: seq<Promotion>, cutoff: int): set<nat> {
    if history == [] then {}
    else IdsSince(history[..|history| - 1], cutoff)
         + (if history[|history| - 1].at >= cutoff then {history[|history| - 1].id} else {})
  }

  lemma {:induction false} IdsSinceMember(history: seq<Promotion>, cutoff: int, id: nat)
    ensures id in IdsSince(history, cutoff)
       <==> exists i :: 0 <= i < |history| && history[i].id == id && history[i].at >= cutoff
  {
    if history != [] {
      IdsSinceMember(history[..|history| - 1], cutoff, id);
    }
  }

  /** Distinct promotions since a moment are as many as their ids. */
  lemma {:induction false} WindowCountsIds(history: seq<Promotion>, cutoff: int)
    requires forall i, j :: 0 <= i < j < |history| ==> history[i].id != history[j].id
    ensures InWindow(history, cutoff) <= |IdsSince(history, cutoff)|
  {
    if history != [] {
      var last := history[|history| - 1];
      WindowCountsIds(history[..|history| - 1], cutoff);
      IdsSinceMember(history[..|history| - 1], cutoff, last.id);
    }
  }

  /** Every recent promotion is one of the rows the budget counts. */
  lemma BudgetSeesHistory(x: World, now: int)
    requires Recorded(x)
    ensures InWindow(x.history, now - MINUTE) <= |AcceptedSince(x.rows, now - MINUTE)|
  {
    var cutoff := now - MINUTE;
    WindowCountsIds(x.history, cutoff);
    forall id | id in IdsSince(x.history, cutoff) ensures id in AcceptedSince(x.rows, cutoff) {
      IdsSinceMember(x.history, cutoff, id);
      var i :| 0 <= i < |x.history| && x.history[i].id == id && x.history[i].at >= cutoff;
      assert RecordedAt(x.rows, x.history[i]);
    }
    SubsetSize(IdsSince(x.history, cutoff), AcceptedSince(x.rows, cutoff));
  }

  lemma SubsetSize(a: set<nat>, b: set<nat>)
    requires a <= b
    ensures |a| <= |b|
  {
    assert b == a + (b - a);
  }

  lemma {:induction false} StampFacts(ids: seq<nat>, now: int)
    ensures |Stamp(ids, now)| == |ids|
    ensures forall i :: 0 <= i < |ids| ==> Stamp(ids, now)[i] == Promotion(ids[i], now)
  {
    if ids != [] {
      StampFacts(ids[..|ids| - 1], now);
    }
  }

  lemma {:induction false} WindowAppend(history: seq<Promotion>, ids: seq<nat>, now: int, from: int)
    ensures InWindow(history + Stamp(ids, now), from)
         == InWindow(history, from) + (if from <= now <= from + MINUTE then |ids| else 0)
  {
    if ids == [] {
      assert history + Stamp(ids, now) == history;
    } else {
      var n := |ids| - 1;
      WindowAppend(history, ids[..n], now, from);
      var shorter := history + Stamp(ids[..n], now);
      assert history + Stamp(ids, now) == shorter + [Promotion(ids[n], now)];
      assert (shorter + [Promotion(ids[n], now)])[..|shorter|] == shorter;
    }
  }

  /** A window that holds the present holds no more of the past than the minute before it. */
  lemma {:induction false} WindowShift(history: seq<Promotion>, from: int, now: int)
    requires forall i :: 0 <= i < |history| ==> history[i].at <= now
    requires from <= now <= from + MINUTE
    ensures InWindow(history, from) <= InWindow(history, now - MINUTE)
  {
    if history != [] {
      WindowShift(history[..|history| - 1], from, now);
    }
  }

  lemma StepKeepsRate(s: Settings, x: World, step: Step)
    requires Recorded(x) && WithinRate(s, x.history) && Enabled(x, step)
    ensures Recorded(Next(s, x, step)) && WithinRate(s, Next(s, x, step).history)
  {
    match step {
      case Others(rows) =>
        forall i | 0 <= i < |x.history| ensures RecordedAt(rows, x.history[i]) {
          assert RecordedAt(x.rows, x.history[i]);
        }
      case Call(pending, watch, now) =>
        CallDecidesAll(s, x.rows, pending, watch, now);
        var p := Outcome(s, x.rows, pending, watch, now);
        CallKeepsRecord(s, x, p, now);
        forall from: int ensures InWindow(x.history + Stamp(p.promoted, now), from) <= s.maxPerMinute {
          CallKeepsWindow(s, x, p, now, from);
        }
    }
  }

  lemma CallKeepsWindow(s: Settings, x: World, p: Progress, now: int, from: int)
    requires Recorded(x) && WithinRate(s, x.history) && now >= x.clock
    requires |p.promoted| <= Budget(s, x.rows, now)
    ensures InWindow(x.history + Stamp(p.promoted, now), from) <= s.maxPerMinute
  {
    WindowAppend(x.history, p.promoted, now, from);
    assert InWindow(x.history, from) <= s.maxPerMinute;
    if from <= now <= from + MINUTE && p.promoted != [] {
      WindowShift(x.history, from, now);
      BudgetSeesHistory(x, now);
    }
  }

  lemma CallKeepsRecord(s: Settings, x: World, p: Progress, now: int)
    requires Recorded(x) && now >= x.clock
    requires forall id :: id in x.rows && !x.rows[id].status.Pending? ==> id in p.rows && p.rows[id] == x.rows[id]
    requires forall i :: 0 <= i < |p.promoted| ==> PromotedBy(x.rows, p.rows, p.promoted[i], now)
    requires forall i, j :: 0 <= i < j < |p.promoted| ==> p.promoted[i] != p.promoted[j]
    ensures Recorded(World(p.rows, x.history + Stamp(p.promoted, now), now))
  {
    StampFacts(p.promoted, now);
    var history := x.history + Stamp(p.promoted, now);
    hide Stamp;
    forall i | 0 <= i < |history| ensures RecordedAt(p.rows, history[i]) && history[i].at <= now {
      if i < |x.history| {
        assert RecordedAt(x.rows, x.history[i]);
      } else {
        assert PromotedBy(x.rows, p.rows, p.promoted[i - |x.history|], now);
      }
    }
    forall i, j | 0 <= i < j < |history| ensures history[i].id != history[j].id {
      if i < |x.history| <= j {
        assert RecordedAt(x.rows, x.history[i]);
        assert PromotedBy(x.rows, p.rows, p.promoted[j - |x.history|], now);
      }
    }
  }

  ghost predicate Run(s: Settings, worlds: seq<World>, steps: seq<Step>) {
    && |worlds| == |steps| + 1
    && (forall i :: 0 <= i < |steps| ==> Enabled(worlds[i], steps[i]) && worlds[i + 1] == Next(s, worlds[i], steps[i]))
  }

  /** Over every run from any stored rows, at most the configured number of real promotions falls
      in any closed minute, even though skipped requests are accepted rows that consume the budget. */
  lemma {:induction false} PromotionRate(s: Settings, worlds: seq<World>, steps: seq<Step>, n: nat, from: int)
    requires Run(s, worlds, steps) && worlds[0].history == [] && n < |worlds|
    ensures InWindow(worlds[n].history, from) <= s.maxPerMinute
  {
    RunKeepsRate(s, worlds, steps, n);
  }

  lemma {:induction false} RunKeepsRate(s: Settings, worlds: seq<World>, steps: seq<Step>, n: nat)
    requires Run(s, worlds, steps) && worlds[0].history == [] && n < |worlds|
    ensures Recorded(worlds[n]) && WithinRate(s, worlds[n].history)
  {
    if n > 0 {
      RunKeepsRate(s, worlds, steps, n - 1);
      hide Recorded, WithinRate, Next, Enabled;
      StepKeepsRate(s, worlds[n - 1], steps[n - 1]);
    }
  }
}
