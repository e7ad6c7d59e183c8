/** Market details: a cache in front of the broker, read one instrument at a time or in batches of
    fifty, with stale entries served while the broker cannot answer. The broker's answers and the
    monotonic clock are oracles indexed by how often they have been asked. */
module MarketCache {
  import opened Basics
  import opened IgSizing

  const BATCH := 50

  datatype Error = BrokerError(message: string) | Malformed | Missing(instruments: seq<string>)

  datatype Result<T> = Ok(value: T) | Err(error: Error)

  datatype Cached = Cached(details: Details, fetchedAt: real)

  type Cache = map<string, Cached>

  /** One element of a batch answer: not an object, or market details under an epic that parse or not. */
  datatype Entry = NotAnObject | Entry(epic: Option<string>, parsed: Option<Details>)

  datatype BatchAnswer = Refused(message: string) | NoList | Markets(entries: seq<Entry>)

  datatype SingleAnswer = LoginFailed(message: string) | Failed(message: string) | Payload(parsed: Option<Details>)

  predicate OccursAt(text: string, part: string, i: nat) { i + |part| <= |text| && text[i..i + |part|] == part }

  predicate Contains(text: string, part: string) { exists i: nat :: i <= |text| && OccursAt(text, part, i) }

  /** Errors during which a stale entry may be served. */
  predicate AllowsStale(message: string) {
    || Contains(message, "error.public-api.exceeded-account-allowance")
    || Contains(message, "error.public-api.exceeded-api-key-allowance")
    || Contains(message, "IG local non-trading account allowance budget")
    || Contains(message, "Unable to reach IG API")
    || Contains(message, "status 5")
  }

  /* ----- Requested instruments and chunks ----- */

  /** Each instrument once, where it first occurs. */
  function Requested(xs: seq<string>): seq<string> {
    if xs == [] then []
    else
      var earlier, last := Requested(xs[..|xs| - 1]), xs[|xs| - 1];
      if last in earlier then earlier else earlier + [last]
  }

  /** The position at which an instrument first occurs. */
  function FirstAt(xs: seq<string>, x: string): (i: nat)
    requires x in xs
    ensures i < |xs| && xs[i] == x && x !in xs[..i]
  {
    if x in xs[..|xs| - 1] then
      var i := FirstAt(xs[..|xs| - 1], x);
      assert xs[..|xs| - 1][..i] == xs[..i];
      i
    else
      assert xs == xs[..|xs| - 1] + [xs[|xs| - 1]];
      |xs| - 1
  }

  /** The requested instruments are those of the call, each once, in the order of first occurrence. */
  lemma {:induction false} RequestedOrder(xs: seq<string>)
    ensures Distinct(Requested(xs)) && (forall x :: x in Requested(xs) <==> x in xs)
    ensures forall i, j :: 0 <= i < j < |Requested(xs)| ==>
        FirstAt(xs, Requested(xs)[i]) < FirstAt(xs, Requested(xs)[j])
  {
    if xs != [] {
      var n := |xs| - 1;
      RequestedOrder(xs[..n]);
      assert xs == xs[..n] + [xs[n]];
      forall x | x in xs[..n] ensures FirstAt(xs, x) == FirstAt(xs[..n], x) < n {
      }
    }
  }

  function Chunk(xs: seq<string>, j: nat): seq<string>
    requires j * BATCH <= |xs|
  {
    if j * BATCH + BATCH <= |xs| then xs[j * BATCH..j * BATCH + BATCH] else xs[j * BATCH..]
  }

  /** What the chunks before the j-th leave over. */
  function Rest(xs: seq<string>, j: nat): seq<string> { if j * BATCH <= |xs| then xs[j * BATCH..] else [] }

  /** How many chunks are needed. */
  function ChunkCount(xs: seq<string>): nat { (|xs| + BATCH - 1) / BATCH }

  function MarketDetailChunks(xs: seq<string>): seq<seq<string>> {
    seq(ChunkCount(xs), j requires 0 <= j < ChunkCount(xs) => Chunk(xs, j))
  }

  lemma RestSplits(xs: seq<string>, j: nat)
    requires j < ChunkCount(xs)
    ensures j * BATCH < |xs| && MarketDetailChunks(xs)[j] == Chunk(xs, j) != []
    ensures Rest(xs, j) == Chunk(xs, j) + Rest(xs, j + 1)
    ensures Distinct(xs) ==> forall k :: k in Chunk(xs, j) ==> k !in Rest(xs, j + 1)
    ensures forall k :: k in Chunk(xs, j) ==> k in xs
  {
  }

  function Flatten(xss: seq<seq<string>>): seq<string> {
    if xss == [] then [] else Flatten(xss[..|xss| - 1]) + xss[|xss| - 1]
  }

  lemma {:induction false} ChunksPrefix(xs: seq<string>, n: nat)
    requires n <= ChunkCount(xs)
    ensures Flatten(MarketDetailChunks(xs)[..n]) == if n * BATCH <= |xs| then xs[..n * BATCH] else xs
  {
    if n > 0 {
      ChunksPrefix(xs, n - 1);
      var chunks := MarketDetailChunks(xs);
      assert chunks[..n][..n - 1] == chunks[..n - 1];
      assert chunks[..n][n - 1] == Chunk(xs, n - 1);
    }
  }

  lemma ChunkOf(xs: seq<string>, x: string) returns (j: nat)
    requires x in xs
    ensures j < ChunkCount(xs) && x in Chunk(xs, j)
  {
    var i :| 0 <= i < |xs| && xs[i] == x;
    j := i / BATCH;
    assert Chunk(xs, j)[i - j * BATCH] == x;
  }

  /** The chunks are the input cut in order into pieces of one to fifty. */
  lemma ChunksPartition(xs: seq<string>)
    ensures Flatten(MarketDetailChunks(xs)) == xs
    ensures forall c :: c in MarketDetailChunks(xs) ==> 1 <= |c| <= BATCH
  {
    var chunks := MarketDetailChunks(xs);
    ChunksPrefix(xs, |chunks|);
    assert chunks[..|chunks|] == chunks;
  }

  /* ----- What a batch answer delivers ----- */

  predicate Relevant(e: Entry, instruments: seq<string>) { e.Entry? && e.epic.Some? && e.epic.value in instruments }

  /** The details delivered for the instruments asked for: the last entry of each. */
  function Delivered(entries: seq<Entry>, instruments: seq<string>): map<string, Details> {
    if entries == [] then map[]
    else
      var earlier, e := Delivered(entries[..|entries| - 1], instruments), entries[|entries| - 1];
      if Relevant(e, instruments) && e.parsed.Some? then earlier[e.epic.value := e.parsed.value] else earlier
  }

  /** Stored under one reading of the clock. */
  function Stamp(m: map<string, Details>, at: real): Cache { map k | k in m :: Cached(m[k], at) }

  predicate AllParse(entries: seq<Entry>, instruments: seq<string>) {
    forall i :: 0 <= i < |entries| && Relevant(entries[i], instruments) ==> entries[i].parsed.Some?
  }

  lemma StampNone(cache: Cache, at: real)
    ensures cache + Stamp(map[], at) == cache
  {
  }

  lemma StampOne(cache: Cache, m: map<string, Details>, k: string, v: Details, at: real)
    ensures cache + Stamp(m[k := v], at) == (cache + Stamp(m, at))[k := Cached(v, at)]
  {
  }

  lemma OneMoreEntry(entries: seq<Entry>, instruments: seq<string>, n: nat)
    requires n < |entries|
    ensures
      var earlier, e := Delivered(entries[..n], instruments), entries[n];
      Delivered(entries[..n + 1], instruments)
      == if Relevant(e, instruments) && e.parsed.Some? then earlier[e.epic.value := e.parsed.value] else earlier
    ensures AllParse(entries[..n + 1], instruments)
       <==> AllParse(entries[..n], instruments) && (Relevant(entries[n], instruments) ==> entries[n].parsed.Some?)
  {
    assert entries[..n + 1][..n] == entries[..n];
    assert entries[..n + 1][n] == entries[n];
    if AllParse(entries[..n + 1], instruments) {
      forall i | 0 <= i < n && Relevant(entries[..n][i], instruments) ensures entries[..n][i].parsed.Some? {
        assert entries[..n + 1][i] == entries[..n][i];
      }
    }
  }

  /** The n-th entry is the first relevant one that does not parse. */
  predicate StopsAt(answer: BatchAnswer, instruments: seq<string>, n: nat) {
    && answer.Markets? && n < |answer.entries| && AllParse(answer.entries[..n], instruments)
    && Relevant(answer.entries[n], instruments) && answer.entries[n].parsed.None?
  }

  const NO_LIST := "IG market batch response did not include marketDetails."

  /** The error of a batch answer, and what it brings when it is none. */
  function Outcome(answer: BatchAnswer, instruments: seq<string>): Result<map<string, Details>> {
    match answer
    case Refused(message) => Err(BrokerError(message))
    case NoList => Err(BrokerError(NO_LIST))
    case Markets(entries) =>
      if AllParse(entries, instruments) then Ok(Delivered(entries, instruments)) else Err(Malformed)
  }

  predicate CoveredByStale(error: Error) { error.BrokerError? && AllowsStale(error.message) }

  /** The answer as an ordered table. */
  function Table(keys: seq<string>, m: map<string, Details>): seq<(string, Details)>
    requires forall k :: k in keys ==> k in m
  {
    seq(|keys|, i requires 0 <= i < |keys| => (keys[i], m[keys[i]]))
  }

  function MissingFrom(requested: seq<string>, results: map<string, Details>): (r: seq<string>)
    ensures forall k :: k in r <==> k in requested && k !in results
  {
    if requested == [] then []
    else
      var last := requested[|requested| - 1];
      assert requested == requested[..|requested| - 1] + [last];
      MissingFrom(requested[..|requested| - 1], results) + (if last in results then [] else [last])
  }

  lemma TableInWorld(keys: seq<string>, m: map<string, Details>, world: string -> Details)
    requires forall k :: k in keys ==> k in m
    ensures InWorld(m, world) ==> Table(keys, m) == WorldTable(keys, world)
    ensures |Table(keys, m)| == |keys| && forall i :: 0 <= i < |keys| ==> Table(keys, m)[i].0 == keys[i]
  {
  }

  lemma DistinctAt(keys: seq<string>, n: nat)
    requires Distinct(keys) && n < |keys|
    ensures keys[n] !in keys[..n]
  {
  }

  lemma DistinctSnoc(keys: seq<string>, k: string)
    ensures Distinct(keys) && k !in keys ==> Distinct(keys + [k])
  {
  }

  lemma NothingMissing(requested: seq<string>, results: map<string, Details>)
    ensures MissingFrom(requested, results) == [] <==> forall k :: k in requested ==> k in results
  {
    if k :| k in requested && k !in results {
      assert k in MissingFrom(requested, results);
    }
    if MissingFrom(requested, results) != [] {
      assert MissingFrom(requested, results)[0] in requested;
    }
  }

  /** How many of the instruments have an entry. */
  function CachedAmong(keys: seq<string>, cache: Cache): nat {
    if keys == [] then 0
    else CachedAmong(keys[..|keys| - 1], cache) + (if keys[|keys| - 1] in cache then 1 else 0)
  }

  ghost predicate InWorld(m: map<string, Details>, world: string -> Details) { forall k :: k in m ==> m[k] == world(k) }

  ghost predicate SameAt(a: Cache, b: Cache, k: string) { (k in a <==> k in b) && (k in a ==> a[k] == b[k]) }

  lemma NothingMoved(a: Cache)
    ensures forall k :: SameAt(a, a, k)
  {
  }

  lemma UnmovedBefore(keys: seq<string>, held: Cache, before: Cache)
    requires forall k :: k in keys ==> SameAt(held, before, k)
    ensures forall k :: k in keys && k in held ==> k in before && before[k] == held[k]
  {
  }

  lemma UnmovedAfter(keys: seq<string>, after: Cache, held: Cache, before: Cache)
    requires forall k :: k in keys ==> SameAt(after, held, k) && SameAt(held, before, k)
    ensures forall k :: k in keys ==> SameAt(after, before, k)
  {
  }

  lemma InWorldBoth(a: map<string, Details>, b: map<string, Details>, world: string -> Details)
    ensures InWorld(a, world) && InWorld(b, world) ==> InWorld(a + b, world)
  {
  }

  lemma ChunksCounted(xs: seq<string>)
    ensures |MarketDetailChunks(xs)| == ChunkCount(xs)
  {
  }

  lemma NoChunks()
    ensures ChunkCount([]) == 0
  {
  }

  lemma FreshInWorld(results: map<string, Details>, cache: Cache, world: string -> Details)
    requires forall k :: k in results ==> k in cache && results[k] == cache[k].details
    ensures Truthful(cache, world) ==> InWorld(results, world)
  {
  }

  lemma DeliveredKeys(entries: seq<Entry>, instruments: seq<string>, k: string)
    requires k in Delivered(entries, instruments)
    ensures k in instruments
  {
  }

  ghost predicate Truthful(cache: Cache, world: string -> Details) {
    forall k :: k in cache ==> cache[k].details == world(k)
  }

  lemma StampedElsewhere(before: Cache, m: map<string, Details>, at: real, chunk: seq<string>)
    requires forall k :: k in m ==> k in chunk
    ensures forall k :: k !in chunk ==> SameAt(before + Stamp(m, at), before, k)
  {
  }

  lemma StampInWorld(before: Cache, m: map<string, Details>, at: real, world: string -> Details)
    ensures Truthful(before, world) && InWorld(m, world) ==> Truthful(before + Stamp(m, at), world)
  {
  }

  ghost predicate HonestEntry(answer: BatchAnswer, i: nat, world: string -> Details) {
    answer.Markets? && i < |answer.entries| && answer.entries[i].Entry?
    && answer.entries[i].epic.Some? && answer.entries[i].parsed.Some? ==>
      answer.entries[i].parsed.value == world(answer.entries[i].epic.value)
  }

  /** The table of a world. */
  ghost function WorldTable(keys: seq<string>, world: string -> Details): seq<(string, Details)> {
    seq(|keys|, i requires 0 <= i < |keys| => (keys[i], world(keys[i])))
  }

  class IgMarkets {
    const singles: (nat, string) -> SingleAnswer
    const batches: (nat, seq<string>) -> BatchAnswer
    const clock: nat -> real
    const ttl: real
    const staleTtl: real
    var asked: nat
    var tick: nat
    var cache: Cache

    method Monotonic() returns (t: real)
      modifies this`tick
      ensures t == clock(old(tick)) && tick == old(tick) + 1
    {
      t := clock(tick);
      tick := tick + 1;
    }

    method IsCacheFresh(c: Cached) returns (young: bool)
      modifies this`tick
      ensures tick == old(tick) + 1 && (young <==> clock(old(tick)) - c.fetchedAt <= ttl)
    {
      var t := Monotonic();
      young := t - c.fetchedAt <= ttl;
    }

    method IsCacheStillUsable(c: Cached) returns (usable: bool)
      modifies this`tick
      ensures tick == old(tick) + 1 && (usable <==> clock(old(tick)) - c.fetchedAt <= staleTtl)
    {
      var t := Monotonic();
      usable := t - c.fetchedAt <= staleTtl;
    }

    /** Some reading taken from one moment on, and before another, finds the entry young enough. */
    ghost predicate YoungAt(c: Cached, limit: real, from: nat, to: nat) {
      exists t :: from <= t < to && clock(t) - c.fetchedAt <= limit
    }

    /** Some such reading finds the entry too old. */
    ghost predicate OldAt(c: Cached, limit: real, from: nat, to: nat) {
      exists t :: from <= t < to && clock(t) - c.fetchedAt > limit
    }

    /** Why a value may be returned when the instruments are read one at a time. */
    ghost predicate ReadAlone(k: string, v: Details, before: Cache, from: nat, to: nat, n: nat) {
      || (k in before && v == before[k].details && YoungAt(before[k], ttl, from, to))
      || singles(n, k) == Payload(Some(v))
      || (k in before && v == before[k].details && YoungAt(before[k], staleTtl, from, to)
          && singles(n, k).Failed? && AllowsStale(singles(n, k).message))
    }

    /** One instrument is answered for: by a fresh entry, by the broker, or by an entry that is still usable
        while the broker fails for a temporary reason. */
    ghost predicate AnsweredAlone(k: string, before: Cache, t: nat, n: nat) {
      || FreshNow(k, before, t)
      || (singles(n, k).Payload? && singles(n, k).parsed.Some?)
      || (singles(n, k).Failed? && AllowsStale(singles(n, k).message) && UsableNow(k, before, t + 1))
    }

    ghost predicate FreshNow(k: string, before: Cache, t: nat) {
      k in before && clock(t) - before[k].fetchedAt <= ttl
    }

    ghost predicate UsableNow(k: string, before: Cache, t: nat) {
      k in before && clock(t) - before[k].fetchedAt <= staleTtl
    }

    /** The broker's error about one instrument. */
    function AloneError(k: string, n: nat): Error {
      match singles(n, k)
      case LoginFailed(message) => BrokerError(message)
      case Failed(message) => BrokerError(message)
      case Payload(_) => Malformed
    }

    /** How often the clock is read for one instrument. */
    ghost function AloneReadings(k: string, before: Cache, t: nat, n: nat): nat {
      if FreshNow(k, before, t) then 1
      else
        (if k in before then 1 else 0)
        + (match singles(n, k)
           case LoginFailed(_) => 0
           case Failed(_) => if k in before then 1 else 0
           case Payload(parsed) => if parsed.Some? then 1 else 0)
    }

    method GetMarketDetails(k: string) returns (r: Result<Details>)
      modifies this`asked, this`tick, this`cache
      ensures r.Ok? <==> AnsweredAlone(k, old(cache), old(tick), old(asked))
      ensures r.Err? ==> r.error == AloneError(k, old(asked))
      ensures tick == old(tick) + AloneReadings(k, old(cache), old(tick), old(asked))
      ensures forall x :: x != k ==> SameAt(cache, old(cache), x)
      ensures old(tick) <= tick && old(asked) <= asked <= old(asked) + 1
      ensures asked == old(asked) <==> k in old(cache) && clock(old(tick)) - old(cache)[k].fetchedAt <= ttl
      ensures r.Ok? ==> ReadAlone(k, r.value, old(cache), old(tick), tick, old(asked))
      ensures
        || cache == old(cache)
        || (r.Ok? && tick > 0 && singles(old(asked), k) == Payload(Some(r.value))
            && cache == old(cache)[k := Cached(r.value, clock(tick - 1))])
    {
      if k in cache {
        var young := IsCacheFresh(cache[k]);
        if young {
          return Ok(cache[k].details);
        }
      }
      var answer := singles(asked, k);
      asked := asked + 1;
      match answer
      case LoginFailed(message) => return Err(BrokerError(message));
      case Failed(message) =>
        if k in cache {
          var usable := IsCacheStillUsable(cache[k]);
          if usable && AllowsStale(message) {
            return Ok(cache[k].details);
          }
        }
        return Err(BrokerError(message));
      case Payload(parsed) =>
        if parsed.None? {
          return Err(Malformed);
        }
        var t := Monotonic();
        cache := cache[k := Cached(parsed.value, t)];
        return Ok(parsed.value);
    }

    /** How often the clock is read while a batch answer is taken in. */
    function FetchReadings(instruments: seq<string>, n: nat): nat { if batches(n, instruments).Refused? then 0 else 1 }

    method LoadMarketDetailsBatch(instruments: seq<string>) returns (r: Result<map<string, Details>>)
      modifies this`asked, this`tick, this`cache
      ensures old(tick) <= tick
      ensures instruments == [] ==> r == Ok(map[]) && asked == old(asked) && cache == old(cache)
      ensures instruments != [] ==>
          asked == old(asked) + 1 && r == Outcome(batches(old(asked), instruments), instruments)
      ensures instruments != [] ==> tick == old(tick) + FetchReadings(instruments, old(asked))
      ensures r.Ok? ==> cache == old(cache) + Stamp(r.value, clock(old(tick)))
      ensures r.Err? && r.error.BrokerError? ==> cache == old(cache)
      ensures
        r == Err(Malformed) ==>
        exists n: nat ::
          && StopsAt(batches(old(asked), instruments), instruments, n)
          && cache
          == old(cache) + Stamp(Delivered(batches(old(asked), instruments).entries[..n], instruments), clock(old(tick)))
    {
      hide AllowsStale;
      if instruments == [] {
        return Ok(map[]);
      }
      var answer := batches(asked, instruments);
      asked := asked + 1;
      if answer.Refused? {
        return Err(BrokerError(answer.message));
      }
      var fetchedAt := Monotonic();
      if answer.NoList? {
        return Err(BrokerError(NO_LIST));
      }
      var entries := answer.entries;
      var details: map<string, Details> := map[];
      assert details == Delivered(entries[..0], instruments) && AllParse(entries[..0], instruments);
      hide Delivered, AllParse, Stamp;
      ghost var before := cache;
      StampNone(before, fetchedAt);
      for n := 0 to |entries|
        invariant details == Delivered(entries[..n], instruments)
        invariant cache == before + Stamp(details, fetchedAt)
        invariant asked == old(asked) + 1 && tick == old(tick) + 1
        invariant AllParse(entries[..n], instruments)
      {
        var e := entries[n];
        OneMoreEntry(entries, instruments, n);
        if e.NotAnObject? {
          continue;
        }
        if e.epic.None? || e.epic.value !in instruments {
          continue;
        }
        if e.parsed.None? {
          assert StopsAt(answer, instruments, n);
          return Err(Malformed);
        }
        StampOne(before, details, e.epic.value, e.parsed.value, fetchedAt);
        cache := cache[e.epic.value := Cached(e.parsed.value, fetchedAt)];
        details := details[e.epic.value := e.parsed.value];
      }
      assert entries[..|entries|] == entries;
      return Ok(details);
    }

    /** The clock and the number of requests when the i-th instrument's turn comes, all earlier ones answered. */
    ghost function TurnOf(keys: seq<string>, before: Cache, t: nat, n: nat, i: nat): (turn: (nat, nat))
      requires i <= |keys|
    {
      if i == 0 then (t, n)
      else
        var earlier := TurnOf(keys, before, t, n, i - 1);
        (earlier.0 + AloneReadings(keys[i - 1], before, earlier.0, earlier.1),
         earlier.1 + (if FreshNow(keys[i - 1], before, earlier.0) then 0 else 1))
    }

    ghost predicate AnsweredInTurn(keys: seq<string>, before: Cache, t: nat, n: nat, i: nat)
      requires i < |keys|
    {
      var turn := TurnOf(keys, before, t, n, i);
      AnsweredAlone(keys[i], before, turn.0, turn.1)
    }

    /** The i-th instrument is the first that is not answered for, and this is its error. */
    ghost predicate FailsFirst(keys: seq<string>, before: Cache, t: nat, n: nat, i: nat, error: Error) {
      && i < |keys| && !AnsweredInTurn(keys, before, t, n, i)
      && (forall j :: 0 <= j < i ==> AnsweredInTurn(keys, before, t, n, j))
      && error == AloneError(keys[i], TurnOf(keys, before, t, n, i).1)
    }

    /** The inherited loop: one read per requested instrument, stopping at the first error. It returns exactly
        when every instrument is answered for. */
    method GetOneByOne(instruments: seq<string>, world: string -> Details)
      returns (r: Result<seq<(string, Details)>>)
      modifies this`asked, this`tick, this`cache
      ensures r.Ok? <==>
          forall i :: 0 <= i < |Requested(instruments)| ==>
            AnsweredInTurn(Requested(instruments), old(cache), old(tick), old(asked), i)
      ensures r.Err? ==>
          exists i: nat :: FailsFirst(Requested(instruments), old(cache), old(tick), old(asked), i, r.error)
      ensures Honest(world) && Truthful(old(cache), world) ==>
          Truthful(cache, world) && (r.Ok? ==> r.value == WorldTable(Requested(instruments), world))
    {
      hide AnsweredAlone, AloneReadings, AloneError, ReadAlone, Truthful, SameAt, FreshNow;
      var requested := Requested(instruments);
      RequestedOrder(instruments);
      hide Requested, Honest;
      ghost var before, t, n0 := cache, tick, asked;
      FirstTurn(requested, before, t, n0);
      hide TurnOf, AnsweredInTurn, FailsFirst;
      var pairs: seq<(string, Details)> := [];
      for n := 0 to |requested|
        invariant (tick, asked) == TurnOf(requested, before, t, n0, n)
        invariant forall i :: n <= i < |requested| ==> SameAt(cache, before, requested[i])
        invariant forall i :: 0 <= i < n ==> AnsweredInTurn(requested, before, t, n0, i)
        invariant Honest(world) && Truthful(before, world) ==>
                    Truthful(cache, world) && pairs == WorldTable(requested[..n], world)
      {
        ghost var held, turn, m := cache, tick, asked;
        SameAnswer(requested[n], held, before, turn, m);
        FreshIs(requested[n], held, turn);
        TurnDecides(requested, before, t, n0, n);
        var one := GetMarketDetails(requested[n]);
        StillSame(requested, n, cache, held, before);
        if one.Err? {
          FirstToFail(requested, before, t, n0, n, one.error);
          assert !AnsweredInTurn(Requested(instruments), old(cache), old(tick), old(asked), n);
          return Err(one.error);
        }
        StillTruthful(cache, held, requested[n], one.value, world);
        ReadInWorld(requested[n], one.value, held, turn, tick, m, world);
        NextTurn(requested, before, t, n0, n);
        assert requested[..n + 1] == requested[..n] + [requested[n]];
        pairs := pairs + [(requested[n], one.value)];
      }
      assert requested[..|requested|] == requested;
      return Ok(pairs);
    }

    lemma FirstTurn(keys: seq<string>, before: Cache, t: nat, n: nat)
      ensures TurnOf(keys, before, t, n, 0) == (t, n)
      ensures forall i :: 0 <= i < |keys| ==> SameAt(before, before, keys[i])
    {
    }

    lemma TurnDecides(keys: seq<string>, before: Cache, t: nat, n: nat, i: nat)
      requires i < |keys|
      ensures
        var turn := TurnOf(keys, before, t, n, i);
        AnsweredInTurn(keys, before, t, n, i) <==> AnsweredAlone(keys[i], before, turn.0, turn.1)
    {
      hide AnsweredAlone;
    }

    lemma NextTurn(keys: seq<string>, before: Cache, t: nat, n: nat, i: nat)
      requires i < |keys|
      ensures
        var turn := TurnOf(keys, before, t, n, i);
        TurnOf(keys, before, t, n, i + 1)
          == (turn.0 + AloneReadings(keys[i], before, turn.0, turn.1),
              turn.1 + (if FreshNow(keys[i], before, turn.0) then 0 else 1))
    {
      hide AloneReadings, FreshNow;
    }

    lemma FirstToFail(keys: seq<string>, before: Cache, t: nat, n: nat, i: nat, error: Error)
      requires i < |keys| && !AnsweredInTurn(keys, before, t, n, i)
      requires forall j :: 0 <= j < i ==> AnsweredInTurn(keys, before, t, n, j)
      requires error == AloneError(keys[i], TurnOf(keys, before, t, n, i).1)
      ensures FailsFirst(keys, before, t, n, i, error)
    {
      hide AnsweredInTurn, AloneError, TurnOf;
    }

    lemma FreshIs(k: string, before: Cache, t: nat)
      ensures FreshNow(k, before, t) <==> k in before && clock(t) - before[k].fetchedAt <= ttl
    {
    }

    lemma StillTruthful(after: Cache, held: Cache, k: string, v: Details, world: string -> Details)
      requires after == held || (k in after && after[k].details == v && after == held[k := after[k]])
      ensures Truthful(held, world) && v == world(k) ==> Truthful(after, world)
    {
    }

    lemma StillSame(keys: seq<string>, n: nat, after: Cache, held: Cache, before: Cache)
      requires Distinct(keys) && n < |keys| && (forall x :: x != keys[n] ==> SameAt(after, held, x))
      requires forall i :: n <= i < |keys| ==> SameAt(held, before, keys[i])
      ensures forall i :: n + 1 <= i < |keys| ==> SameAt(after, before, keys[i])
    {
      forall i | n + 1 <= i < |keys| ensures SameAt(after, before, keys[i]) {
        assert keys[i] != keys[n] && SameAt(after, held, keys[i]) && SameAt(held, before, keys[i]);
      }
    }

    lemma SameAnswer(k: string, held: Cache, before: Cache, t: nat, n: nat)
      requires SameAt(held, before, k)
      ensures AnsweredAlone(k, held, t, n) <==> AnsweredAlone(k, before, t, n)
      ensures AloneReadings(k, held, t, n) == AloneReadings(k, before, t, n)
      ensures FreshNow(k, held, t) <==> FreshNow(k, before, t)
    {
    }

    lemma ReadInWorld(k: string, v: Details, before: Cache, from: nat, to: nat, n: nat, world: string -> Details)
      requires ReadAlone(k, v, before, from, to, n)
      ensures Honest(world) && Truthful(before, world) ==> v == world(k)
    {
    }

    /** Whatever the broker answers about an instrument is what it is in this world. */
    ghost predicate Honest(world: string -> Details) {
      && (forall n, k :: singles(n, k).Payload? && singles(n, k).parsed.Some? ==>
            singles(n, k).parsed.value == world(k))
      && (forall n, ks, i :: HonestEntry(batches(n, ks), i, world))
    }

    /** Every member has an entry that its reading of the clock finds usable, the first one read at t. */
    ghost predicate UsableFrom(chunk: seq<string>, before: Cache, t: nat) {
      forall i :: 0 <= i < |chunk| ==> UsableNow(chunk[i], before, t + i)
    }

    /** Whether every member of a failed chunk has a usable entry. */
    method CanFallBack(chunk: seq<string>) returns (all: bool)
      modifies this`tick
      ensures old(tick) <= tick
      ensures all <==> UsableFrom(chunk, cache, old(tick))
      ensures all ==> tick == old(tick) + |chunk|
      ensures all ==> forall k :: k in chunk ==> k in cache && YoungAt(cache[k], staleTtl, old(tick), tick)
      ensures !all ==> exists k :: k in chunk && (k !in cache || OldAt(cache[k], staleTtl, old(tick), tick))
    {
      for n := 0 to |chunk|
        invariant tick == old(tick) + n
        invariant forall i :: 0 <= i < n ==> UsableNow(chunk[i], cache, old(tick) + i)
        invariant forall k :: k in chunk[..n] ==> k in cache && YoungAt(cache[k], staleTtl, old(tick), tick)
      {
        if chunk[n] !in cache {
          assert !UsableNow(chunk[n], cache, old(tick) + n);
          return false;
        }
        var t := tick;
        var usable := IsCacheStillUsable(cache[chunk[n]]);
        if !usable {
          assert clock(t) - cache[chunk[n]].fetchedAt > staleTtl;
          assert !UsableNow(chunk[n], cache, old(tick) + n);
          return false;
        }
        assert YoungAt(cache[chunk[n]], staleTtl, old(tick), tick) by {
          assert clock(t) - cache[chunk[n]].fetchedAt <= staleTtl;
        }
        forall k | k in chunk[..n] ensures YoungAt(cache[k], staleTtl, old(tick), tick) {
          YoungLater(cache[k], staleTtl, old(tick), t, tick);
        }
        assert chunk[..n + 1] == chunk[..n] + [chunk[n]];
      }
      assert chunk[..|chunk|] == chunk;
      return true;
    }

    lemma YoungLater(c: Cached, limit: real, from: nat, to: nat, later: nat)
      requires YoungAt(c, limit, from, to) && to <= later
      ensures YoungAt(c, limit, from, later)
    {
    }

    /** Why a value may be returned by the batch read: delivered by the answer to its chunk, or
        cached and usable when that answer was an error of the temporary kind. */
    ghost predicate ServedBy(k: string, v: Details, before: Cache, from: nat, to: nat, chunk: seq<string>, n: nat) {
      var outcome := Outcome(batches(n, chunk), chunk);
      && k in chunk
      && if outcome.Ok? then k in outcome.value && v == outcome.value[k]
         else
           && CoveredByStale(outcome.error) && k in before && v == before[k].details
           && YoungAt(before[k], staleTtl, from, to)
    }

    /** Why the batch read may return a value: it was fresh, or its chunk serves it. */
    ghost predicate Justified(k: string, v: Details, before: Cache, from: nat, to: nat, todo: seq<string>, start: nat) {
      if k !in todo then k in before && v == before[k].details && YoungAt(before[k], ttl, from, to)
      else exists j: nat :: j < ChunkCount(todo) && ServedBy(k, v, before, from, to, Chunk(todo, j), start + j)
    }

    lemma JustifiedLater(k: string, v: Details, before: Cache, from: nat, to: nat, later: nat,
        todo: seq<string>, start: nat)
      requires Justified(k, v, before, from, to, todo, start) && to <= later
      ensures Justified(k, v, before, from, later, todo, start)
    {
      if k in todo {
        var j: nat :| j < ChunkCount(todo) && ServedBy(k, v, before, from, to, Chunk(todo, j), start + j);
        assert ServedBy(k, v, before, from, later, Chunk(todo, j), start + j);
      }
    }

    lemma ServedInRun(k: string, v: Details, held: Cache, before: Cache, t: nat, from: nat, to: nat,
        todo: seq<string>, j: nat, start: nat)
      requires j < ChunkCount(todo) && from <= t && k in todo
      requires ServedBy(k, v, held, t, to, Chunk(todo, j), start + j)
      requires k in held ==> k in before && before[k] == held[k]
      ensures Justified(k, v, before, from, to, todo, start)
    {
      if k in held && YoungAt(held[k], staleTtl, t, to) {
        YoungEarlier(held[k], staleTtl, t, from, to);
      }
      assert ServedBy(k, v, before, from, to, Chunk(todo, j), start + j);
    }

    ghost predicate AllJustified(results: map<string, Details>, before: Cache, from: nat, to: nat,
        todo: seq<string>, start: nat) {
      forall k :: k in results ==> Justified(k, results[k], before, from, to, todo, start)
    }

    lemma MergeServed(
      results: map<string, Details>, loaded: map<string, Details>, held: Cache, before: Cache,
      t: nat, from: nat, to: nat,
      todo: seq<string>, j: nat, start: nat)
      requires j < ChunkCount(todo) && from <= t <= to
      requires AllJustified(results, before, from, t, todo, start)
      requires forall k :: k in loaded ==> ServedBy(k, loaded[k], held, t, to, Chunk(todo, j), start + j)
      requires forall k :: k in Chunk(todo, j) ==> k in todo && (k in held ==> k in before && before[k] == held[k])
      ensures AllJustified(results + loaded, before, from, to, todo, start)
    {
      hide ServedBy, Justified, Chunk;
      var merged := results + loaded;
      forall k | k in merged ensures Justified(k, merged[k], before, from, to, todo, start) {
        if k in loaded {
          ServedInChunk(k, loaded[k], held, t, to, Chunk(todo, j), start + j);
          ServedInRun(k, loaded[k], held, before, t, from, to, todo, j, start);
        } else {
          JustifiedLater(k, results[k], before, from, t, to, todo, start);
        }
      }
    }

    lemma ServedInChunk(k: string, v: Details, before: Cache, from: nat, to: nat, chunk: seq<string>, n: nat)
      requires ServedBy(k, v, before, from, to, chunk, n)
      ensures k in chunk
    {
    }

    /** The i-th instrument has an entry that its reading of the clock finds fresh. */
    ghost predicate FreshInTurn(keys: seq<string>, before: Cache, t: nat, i: nat)
      requires i < |keys|
    {
      FreshNow(keys[i], before, t + CachedAmong(keys[..i], before))
    }

    /** The instruments that are left to fetch, in order. */
    ghost function ToFetch(keys: seq<string>, before: Cache, t: nat, n: nat): seq<string>
      requires n <= |keys|
    {
      if n == 0 then []
      else ToFetch(keys, before, t, n - 1) + (if FreshInTurn(keys, before, t, n - 1) then [] else [keys[n - 1]])
    }

    /** Serves what is fresh and says what is left to fetch. */
    method ReadFresh(requested: seq<string>) returns (results: map<string, Details>, todo: seq<string>)
      requires Distinct(requested)
      modifies this`tick
      ensures tick == old(tick) + CachedAmong(requested, cache)
      ensures todo == ToFetch(requested, cache, old(tick), |requested|)
      ensures Distinct(todo) && forall k :: k in todo ==> k in requested
      ensures forall k :: k in results <==> k in requested && k !in todo
      ensures forall k :: k in results ==>
                k in cache && results[k] == cache[k].details && YoungAt(cache[k], ttl, old(tick), tick)
    {
      results, todo := map[], [];
      ghost var start := tick;
      NothingFetched(requested, cache, start);
      hide ToFetch, FreshServed, CachedAmong, YoungAt;
      for n := 0 to |requested|
        invariant tick == start + CachedAmong(requested[..n], cache)
        invariant todo == ToFetch(requested, cache, start, n)
        invariant results == FreshServed(requested, cache, start, n)
      {
        var k := requested[n];
        FreshStep(requested, cache, start, n);
        if k in cache {
          var young := IsCacheFresh(cache[k]);
          if young {
            results := results[k := cache[k].details];
            continue;
          }
        }
        todo := todo + [k];
      }
      assert requested[..|requested|] == requested;
      FreshFacts(requested, cache, start, |requested|);
      FreshYoung(requested, cache, start, |requested|);
    }

    /** What is served from fresh entries. */
    ghost function FreshServed(keys: seq<string>, before: Cache, t: nat, n: nat): map<string, Details>
      requires n <= |keys|
    {
      if n == 0 then map[]
      else
        var earlier, k := FreshServed(keys, before, t, n - 1), keys[n - 1];
        if FreshInTurn(keys, before, t, n - 1) then earlier[k := before[k].details] else earlier
    }

    lemma NothingFetched(requested: seq<string>, before: Cache, t: nat)
      ensures CachedAmong(requested[..0], before) == 0 && ToFetch(requested, before, t, 0) == []
      ensures FreshServed(requested, before, t, 0) == map[]
    {
    }

    lemma FreshStep(requested: seq<string>, before: Cache, t: nat, n: nat)
      requires n < |requested|
      ensures
        var k, turn := requested[n], t + CachedAmong(requested[..n], before);
        var young := k in before && clock(turn) - before[k].fetchedAt <= ttl;
        && CachedAmong(requested[..n + 1], before)
           == CachedAmong(requested[..n], before) + (if k in before then 1 else 0)
        && ToFetch(requested, before, t, n + 1) == ToFetch(requested, before, t, n) + (if young then [] else [k])
        && FreshServed(requested, before, t, n + 1)
           == if young then FreshServed(requested, before, t, n)[k := before[k].details]
              else FreshServed(requested, before, t, n)
    {
      assert requested[..n + 1][..n] == requested[..n];
    }

    /** Each instrument is served fresh or left to fetch. */
    lemma FreshFacts(requested: seq<string>, before: Cache, t: nat, n: nat)
      requires Distinct(requested) && n <= |requested|
      ensures
        var results, todo := FreshServed(requested, before, t, n), ToFetch(requested, before, t, n);
        && Distinct(todo) && (forall k :: k in todo ==> k in requested[..n])
        && (forall k :: k in results <==> k in requested[..n] && k !in todo)
    {
      if n > 0 {
        DistinctAt(requested, n - 1);
        FreshStep(requested, before, t, n - 1);
        hide *;
        FreshFacts(requested, before, t, n - 1);
        var k, results := requested[n - 1], FreshServed(requested, before, t, n - 1);
        var todo := ToFetch(requested, before, t, n - 1);
        assert requested[..n] == requested[..n - 1] + [k];
        if k in before {
          ServedFresh(requested[..n - 1], k, todo, results, before[k].details);
        }
        LeftToFetch(requested[..n - 1], k, todo, results);
      }
    }

    lemma ServedFresh(keys: seq<string>, k: string, todo: seq<string>, results: map<string, Details>, v: Details)
      requires k !in keys && (forall x :: x in todo ==> x in keys)
      requires forall x :: x in results <==> x in keys && x !in todo
      ensures forall x :: x in todo ==> x in keys + [k]
      ensures forall x :: x in results[k := v] <==> x in keys + [k] && x !in todo
    {
    }

    lemma LeftToFetch(keys: seq<string>, k: string, todo: seq<string>, results: map<string, Details>)
      requires k !in keys && Distinct(todo) && (forall x :: x in todo ==> x in keys)
      requires forall x :: x in results <==> x in keys && x !in todo
      ensures Distinct(todo + [k]) && forall x :: x in todo + [k] ==> x in keys + [k]
      ensures forall x :: x in results <==> x in keys + [k] && x !in todo + [k]
    {
      DistinctSnoc(todo, k);
      hide Distinct;
    }

    lemma FreshYoung(requested: seq<string>, before: Cache, t: nat, n: nat)
      requires n <= |requested|
      ensures
        var results, end := FreshServed(requested, before, t, n), t + CachedAmong(requested[..n], before);
        forall k :: k in results ==>
          k in before && results[k] == before[k].details && YoungAt(before[k], ttl, t, end)
    {
      if n > 0 {
        FreshYoung(requested, before, t, n - 1);
        FreshStep(requested, before, t, n - 1);
        var k, turn := requested[n - 1], t + CachedAmong(requested[..n - 1], before);
        hide ToFetch, FreshServed, CachedAmong, YoungAt;
        AllYoungLater(FreshServed(requested, before, t, n - 1), before, ttl, t, turn,
                      t + CachedAmong(requested[..n], before));
        if k in before && clock(turn) - before[k].fetchedAt <= ttl {
          YoungNow(before[k], ttl, t, turn);
        }
      }
    }

    lemma YoungNow(c: Cached, limit: real, from: nat, t: nat)
      requires from <= t && clock(t) - c.fetchedAt <= limit
      ensures YoungAt(c, limit, from, t + 1)
    {
    }

    lemma AllYoungLater(results: map<string, Details>, before: Cache, limit: real, from: nat, to: nat, later: nat)
      requires forall k :: k in results ==> k in before && YoungAt(before[k], limit, from, to)
      requires to <= later
      ensures forall k :: k in results ==> YoungAt(before[k], limit, from, later)
    {
      forall k | k in results ensures YoungAt(before[k], limit, from, later) {
        YoungLater(before[k], limit, from, to, later);
      }
    }

    /** A chunk is answered for: without an error, or by entries that are all still usable while the broker
        fails for a temporary reason. */
    ghost predicate ChunkAnswered(chunk: seq<string>, before: Cache, t: nat, n: nat) {
      var outcome := Outcome(batches(n, chunk), chunk);
      || outcome.Ok?
      || (CoveredByStale(outcome.error) && UsableFrom(chunk, before, t + FetchReadings(chunk, n)))
    }

    /** How often the clock is read for a chunk that is answered for. */
    function ChunkReadings(chunk: seq<string>, n: nat): nat {
      FetchReadings(chunk, n) + (if Outcome(batches(n, chunk), chunk).Ok? then 0 else |chunk|)
    }

    /** A chunk that is answered for serves this instrument. */
    ghost predicate Serves(chunk: seq<string>, n: nat, k: string) {
      var outcome := Outcome(batches(n, chunk), chunk);
      k in chunk && (outcome.Ok? ==> k in outcome.value)
    }

    /** One chunk, with the stale entries behind it. */
    method LoadChunk(chunk: seq<string>, world: string -> Details) returns (r: Result<map<string, Details>>)
      requires chunk != []
      modifies this`asked, this`tick, this`cache
      ensures old(tick) <= tick && asked == old(asked) + 1
      ensures r.Ok? <==> ChunkAnswered(chunk, old(cache), old(tick), old(asked))
      ensures r.Ok? ==> tick == old(tick) + ChunkReadings(chunk, old(asked))
      ensures r.Ok? ==> forall k :: k in r.value <==> Serves(chunk, old(asked), k)
      ensures Outcome(batches(old(asked), chunk), chunk).Ok? || r.Err? ==>
          r == Outcome(batches(old(asked), chunk), chunk)
      ensures r.Err? && CoveredByStale(r.error) ==>
                exists k :: k in chunk && (k !in cache || OldAt(cache[k], staleTtl, old(tick), tick))
      ensures r.Ok? ==> forall k :: k in r.value ==> k in chunk
      ensures r.Ok? ==> forall k :: k in r.value ==>
          ServedBy(k, r.value[k], old(cache), old(tick), tick, chunk, old(asked))
      ensures forall k :: k !in chunk ==> SameAt(cache, old(cache), k)
      ensures Honest(world) && Truthful(old(cache), world) ==>
                Truthful(cache, world) && (r.Ok? ==> InWorld(r.value, world))
    {
      ghost var n, t, before := asked, tick, cache;
      OutcomeDecides(chunk, before, t, n);
      hide AllowsStale, Delivered, ChunkAnswered, ChunkReadings, Serves, UsableFrom, FetchReadings, Stamp;
      r := LoadMarketDetailsBatch(chunk);
      ghost var answer := batches(n, chunk);
      if r.Ok? {
        if answer.Markets? {
          DeliveredInWorld(answer, chunk, |answer.entries|, world);
          assert answer.entries[..|answer.entries|] == answer.entries;
        }
        DeliveredAre(chunk, n);
        StampedElsewhere(before, r.value, clock(t), chunk);
        StampInWorld(before, r.value, clock(t), world);
        return;
      }
      if r.error == Malformed {
        ghost var i: nat :|
          && StopsAt(answer, chunk, i)
          && cache == old(cache) + Stamp(Delivered(answer.entries[..i], chunk), clock(t));
        DeliveredInWorld(answer, chunk, i, world);
        forall k | k in Delivered(answer.entries[..i], chunk) ensures k in chunk {
          DeliveredKeys(answer.entries[..i], chunk, k);
        }
        StampedElsewhere(before, Delivered(answer.entries[..i], chunk), clock(t), chunk);
        StampInWorld(before, Delivered(answer.entries[..i], chunk), clock(t), world);
        return;
      }
      if !AllowsStale(r.error.message) {
        return;
      }
      var later := tick;
      var all := CanFallBack(chunk);
      if !all {
        ghost var k :| k in chunk && (k !in cache || OldAt(cache[k], staleTtl, later, tick));
        OldEarlier(chunk, k, later, old(tick), tick);
        return;
      }
      var results: map<string, Details> := map[];
      for i := 0 to |chunk|
        invariant forall k :: k in results <==> k in chunk[..i]
        invariant forall k :: k in results ==> results[k] == cache[k].details
      {
        results := results[chunk[i] := cache[chunk[i]].details];
        assert chunk[..i + 1] == chunk[..i] + [chunk[i]];
      }
      assert chunk[..|chunk|] == chunk;
      forall k | k in results ensures YoungAt(cache[k], staleTtl, old(tick), tick) {
        YoungEarlier(cache[k], staleTtl, later, old(tick), tick);
      }
      return Ok(results);
    }

    /** What the outcome of the chunk's request decides. */
    lemma OutcomeDecides(chunk: seq<string>, before: Cache, t: nat, n: nat)
      ensures
        var outcome := Outcome(batches(n, chunk), chunk);
        && (outcome.Ok? ==> ChunkAnswered(chunk, before, t, n) && ChunkReadings(chunk, n) == FetchReadings(chunk, n))
        && (outcome.Err? && !CoveredByStale(outcome.error) ==> !ChunkAnswered(chunk, before, t, n))
        && (outcome.Err? && CoveredByStale(outcome.error) ==>
            && (ChunkAnswered(chunk, before, t, n) <==> UsableFrom(chunk, before, t + FetchReadings(chunk, n)))
            && ChunkReadings(chunk, n) == FetchReadings(chunk, n) + |chunk|
            && forall k :: Serves(chunk, n, k) <==> k in chunk)
    {
      hide UsableFrom, FetchReadings, AllowsStale;
    }

    lemma DeliveredAre(chunk: seq<string>, n: nat)
      requires Outcome(batches(n, chunk), chunk).Ok?
      ensures
        var delivered := Outcome(batches(n, chunk), chunk).value;
        (forall k :: k in delivered <==> Serves(chunk, n, k)) && forall k :: k in delivered ==> k in chunk
    {
      var delivered := Outcome(batches(n, chunk), chunk).value;
      forall k | k in delivered ensures k in chunk {
        DeliveredKeys(batches(n, chunk).entries, chunk, k);
      }
    }

    /** Every chunk that the read fetches is answered for. */
    ghost predicate ReadAnswered(requested: seq<string>, before: Cache, t: nat, n: nat) {
      AllAnswered(ToFetch(requested, before, t, |requested|), before, t + CachedAmong(requested, before), n)
    }

    /** The error is that of the first chunk that is not answered for. */
    ghost predicate ReadFails(requested: seq<string>, before: Cache, t: nat, n: nat, error: Error) {
      SomeChunkFails(ToFetch(requested, before, t, |requested|), before, t + CachedAmong(requested, before), n, error)
    }

    ghost predicate SomeChunkFails(todo: seq<string>, before: Cache, t: nat, n: nat, error: Error) {
      exists j: nat :: ChunkFailsFirst(todo, before, t, n, j, error)
    }

    /** The instrument is fresh, or some chunk serves it. */
    ghost predicate FreshOrServed(requested: seq<string>, before: Cache, t: nat, n: nat, k: string) {
      var todo := ToFetch(requested, before, t, |requested|);
      k !in todo || ServedBySome(todo, n, k)
    }

    /** The batch read. It returns exactly when every chunk is answered for and every requested instrument is
        fresh or served by a chunk. If only the latter fails, it names exactly the instruments that are
        neither; otherwise its error is that of the first chunk that is not answered for. */
    method GetMarketDetailsMany(instruments: seq<string>, world: string -> Details)
      returns (r: Result<seq<(string, Details)>>, ghost todo: seq<string>)
      modifies this`asked, this`tick, this`cache
      ensures
        var requested := Requested(instruments);
        && todo == ToFetch(requested, old(cache), old(tick), |requested|)
        && (r.Ok? <==>
            && ReadAnswered(requested, old(cache), old(tick), old(asked))
            && forall k :: k in requested ==> FreshOrServed(requested, old(cache), old(tick), old(asked), k))
        && (r.Err? && ReadAnswered(requested, old(cache), old(tick), old(asked)) ==>
            && r.error.Missing? && r.error.instruments != []
            && forall k :: k in r.error.instruments <==>
                 k in requested && !FreshOrServed(requested, old(cache), old(tick), old(asked), k))
        && (!ReadAnswered(requested, old(cache), old(tick), old(asked)) ==>
            r.Err? && ReadFails(requested, old(cache), old(tick), old(asked), r.error))
      ensures r.Ok? ==> |r.value| == |Requested(instruments)| && asked == old(asked) + ChunkCount(todo)
      ensures
        r.Ok? ==>
        forall i :: 0 <= i < |r.value| ==>
          && r.value[i].0 == Requested(instruments)[i]
          && Justified(r.value[i].0, r.value[i].1, old(cache), old(tick), tick, todo, old(asked))
      ensures Honest(world) && Truthful(old(cache), world) ==>
                Truthful(cache, world) && (r.Ok? ==> r.value == WorldTable(Requested(instruments), world))
    {
      hide Justified, Distinct, Truthful, Honest, Requested, ChunkCount, YoungAt;
      hide Table, WorldTable, InWorld, AllJustified, Distinct, MissingFrom;
      hide ToFetch, AllAnswered, SomeChunkFails, ServedBySome, CachedAmong, FreshOrServed, ReadAnswered, ReadFails;
      var requested, start := Requested(instruments), tick;
      RequestedOrder(instruments);
      if requested == [] {
        NothingToRead(cache, tick, asked);
        EmptyTable(world);
        NoChunks();
        return Ok([]), [];
      }
      var results, left := ReadFresh(requested);
      todo := left;
      FreshJustified(results, cache, old(tick), tick, left, asked);
      FreshInWorld(results, cache, world);
      ReadIs(requested, cache, start, asked);
      var all := LoadAll(results, left, start, world);
      if all.Err? {
        return Err(all.error), left;
      }
      KeysServed(requested, old(cache), start, old(asked), results, all.value);
      NothingMissing(requested, all.value);
      var missing := MissingFrom(requested, all.value);
      if missing != [] {
        return Err(Missing(missing)), left;
      }
      TableJustified(requested, all.value, old(cache), old(tick), tick, left, old(asked));
      TableInWorld(requested, all.value, world);
      return Ok(Table(requested, all.value)), left;
    }

    lemma EmptyTable(world: string -> Details)
      ensures WorldTable([], world) == []
    {
    }

    lemma NothingToRead(before: Cache, t: nat, n: nat)
      ensures ToFetch([], before, t, 0) == [] && ReadAnswered([], before, t, n)
    {
    }

    /** The read is decided by the chunks of what is left to fetch. */
    lemma ReadIs(requested: seq<string>, before: Cache, t: nat, n: nat)
      ensures
        var todo, turn := ToFetch(requested, before, t, |requested|), t + CachedAmong(requested, before);
        && (ReadAnswered(requested, before, t, n) <==> AllAnswered(todo, before, turn, n))
        && (forall error :: ReadFails(requested, before, t, n, error) <==> SomeChunkFails(todo, before, turn, n, error))
    {
      hide AllAnswered, SomeChunkFails, ToFetch, CachedAmong;
    }

    lemma KeysServed(requested: seq<string>, before: Cache, t: nat, n: nat, served: map<string, Details>,
                     all: map<string, Details>)
      requires
        var todo := ToFetch(requested, before, t, |requested|);
        && (forall k :: k in served <==> k in requested && k !in todo)
        && (forall k :: k in all <==> k in served || ServedBySome(todo, n, k))
      ensures forall k :: k in requested ==> (k in all <==> FreshOrServed(requested, before, t, n, k))
    {
    }

    lemma FreshJustified(results: map<string, Details>, before: Cache, from: nat, to: nat, todo: seq<string>,
                         start: nat)
      requires forall k :: k in results ==>
                 k !in todo && k in before && results[k] == before[k].details && YoungAt(before[k], ttl, from, to)
      ensures AllJustified(results, before, from, to, todo, start)
    {
    }

    lemma TableJustified(keys: seq<string>, m: map<string, Details>, before: Cache, from: nat, to: nat,
        todo: seq<string>, start: nat)
      requires (forall k :: k in keys ==> k in m) && AllJustified(m, before, from, to, todo, start)
      ensures forall i :: 0 <= i < |keys| ==>
                Table(keys, m)[i].0 == keys[i] && Justified(keys[i], Table(keys, m)[i].1, before, from, to, todo, start)
    {
    }

    /** The clock when the j-th chunk's turn comes, all earlier ones answered for. */
    function ChunkTurn(todo: seq<string>, t: nat, n: nat, j: nat): nat
      requires j <= ChunkCount(todo)
    {
      if j == 0 then t else ChunkTurn(todo, t, n, j - 1) + ChunkReadings(Chunk(todo, j - 1), n + j - 1)
    }

    ghost predicate AnsweredInTurnOf(todo: seq<string>, before: Cache, t: nat, n: nat, j: nat)
      requires j < ChunkCount(todo)
    {
      ChunkAnswered(Chunk(todo, j), before, ChunkTurn(todo, t, n, j), n + j)
    }

    ghost predicate AllAnswered(todo: seq<string>, before: Cache, t: nat, n: nat) {
      forall j :: 0 <= j < ChunkCount(todo) ==> AnsweredInTurnOf(todo, before, t, n, j)
    }

    /** The j-th chunk is the first that is not answered for, and this is its error. */
    ghost predicate ChunkFailsFirst(todo: seq<string>, before: Cache, t: nat, n: nat, j: nat, error: Error) {
      && j < ChunkCount(todo) && !AnsweredInTurnOf(todo, before, t, n, j)
      && (forall i :: 0 <= i < j ==> AnsweredInTurnOf(todo, before, t, n, i))
      && Outcome(batches(n + j, Chunk(todo, j)), Chunk(todo, j)) == Err(error)
    }

    /** Some chunk serves this instrument. */
    ghost predicate ServedBySome(todo: seq<string>, n: nat, k: string) { ServedByFirst(todo, n, ChunkCount(todo), k) }

    ghost predicate ServedByFirst(todo: seq<string>, n: nat, count: nat, k: string)
      requires count <= ChunkCount(todo)
    {
      exists j :: 0 <= j < count && Serves(Chunk(todo, j), n + j, k)
    }

    lemma SameChunkAnswer(chunk: seq<string>, held: Cache, before: Cache, t: nat, n: nat)
      requires forall k :: k in chunk ==> SameAt(held, before, k)
      ensures ChunkAnswered(chunk, held, t, n) <==> ChunkAnswered(chunk, before, t, n)
    {
      forall i | 0 <= i < |chunk| ensures forall u :: UsableNow(chunk[i], held, u) <==> UsableNow(chunk[i], before, u) {
        assert chunk[i] in chunk;
      }
    }

    lemma ServedOneMore(todo: seq<string>, n: nat, j: nat, k: string)
      requires j < ChunkCount(todo)
      ensures ServedByFirst(todo, n, j + 1, k) <==> ServedByFirst(todo, n, j, k) || Serves(Chunk(todo, j), n + j, k)
    {
    }

    /** The loop over the chunks, adding to the results so far. */
    method LoadAll(served: map<string, Details>, todo: seq<string>, from: nat, world: string -> Details)
      returns (r: Result<map<string, Details>>)
      requires from <= tick && Distinct(todo) && AllJustified(served, cache, from, tick, todo, asked)
      requires Honest(world) && Truthful(cache, world) ==> InWorld(served, world)
      modifies this`asked, this`tick, this`cache
      ensures from <= tick
      ensures r.Ok? <==> AllAnswered(todo, old(cache), old(tick), old(asked))
      ensures r.Err? ==> SomeChunkFails(todo, old(cache), old(tick), old(asked), r.error)
      ensures r.Ok? ==> forall k :: k in r.value <==> k in served || ServedBySome(todo, old(asked), k)
      ensures r.Ok? ==>
          && asked == old(asked) + ChunkCount(todo)
          && AllJustified(r.value, old(cache), from, tick, todo, old(asked))
      ensures Honest(world) && Truthful(old(cache), world) ==>
          Truthful(cache, world) && (r.Ok? ==> InWorld(r.value, world))
    {
      hide ServedBy, AllJustified, Rest, MarketDetailChunks, Distinct, Truthful, Honest, Chunk, InWorld, SameAt,
          Outcome;
      var results := served;
      var chunks := MarketDetailChunks(todo);
      ChunksCounted(todo);
      ghost var before, start, t0 := cache, asked, tick;
      NothingMoved(cache);
      hide ChunkAnswered, Serves, ChunkReadings;
      for j := 0 to |chunks|
        invariant from <= tick && asked == start + j
        invariant tick == ChunkTurn(todo, t0, start, j)
        invariant forall i :: 0 <= i < j ==> AnsweredInTurnOf(todo, before, t0, start, i)
        invariant forall k :: k in results <==> k in served || ServedByFirst(todo, start, j, k)
        invariant AllJustified(results, before, from, tick, todo, start)
        invariant forall k :: k in Rest(todo, j) ==> SameAt(cache, before, k)
        invariant Honest(world) && Truthful(before, world) ==> Truthful(cache, world) && InWorld(results, world)
      {
        ghost var t, held := tick, cache;
        RestSplits(todo, j);
        hide ChunkCount;
        SameChunkAnswer(chunks[j], held, before, t, start + j);
        var loaded := LoadChunk(chunks[j], world);
        if loaded.Err? {
          assert ChunkFailsFirst(todo, before, t0, start, j, loaded.error);
          return Err(loaded.error);
        }
        forall k ensures ServedByFirst(todo, start, j + 1, k)
                    <==> ServedByFirst(todo, start, j, k) || Serves(Chunk(todo, j), start + j, k) {
          ServedOneMore(todo, start, j, k);
        }
        UnmovedBefore(Chunk(todo, j), held, before);
        MergeServed(results, loaded.value, held, before, t, from, tick, todo, j, start);
        UnmovedAfter(Rest(todo, j + 1), cache, held, before);
        InWorldBoth(results, loaded.value, world);
        results := results + loaded.value;
      }
      return Ok(results);
    }

    /** The broker answers with details for every instrument it is asked about, alone or in a batch. */
    ghost predicate AnswersAll() {
      && (forall n, k :: singles(n, k).Payload? && singles(n, k).parsed.Some?)
      && (forall n, ks :: Delivers(n, ks))
    }

    ghost predicate Delivers(n: nat, ks: seq<string>) {
      var outcome := Outcome(batches(n, ks), ks);
      outcome.Ok? && forall k :: k in ks ==> k in outcome.value
    }

    lemma AloneAnswers(requested: seq<string>, before: Cache, t: nat, n: nat)
      requires AnswersAll()
      ensures forall i :: 0 <= i < |requested| ==> AnsweredInTurn(requested, before, t, n, i)
    {
    }

    lemma BatchAnswers(requested: seq<string>, before: Cache, t: nat, n: nat)
      requires AnswersAll()
      ensures ReadAnswered(requested, before, t, n)
      ensures forall k :: k in requested ==> FreshOrServed(requested, before, t, n, k)
    {
      var todo := ToFetch(requested, before, t, |requested|);
      hide ToFetch, Outcome;
      var turn := t + CachedAmong(requested, before);
      forall j | 0 <= j < ChunkCount(todo) ensures AnsweredInTurnOf(todo, before, turn, n, j) {
        assert Delivers(n + j, Chunk(todo, j));
      }
      forall k | k in todo ensures ServedBySome(todo, n, k) {
        var j := ChunkOf(todo, k);
        assert Delivers(n + j, Chunk(todo, j));
        assert Serves(Chunk(todo, j), n + j, k);
      }
    }

    lemma OldEarlier(chunk: seq<string>, k: string, from: nat, earlier: nat, to: nat)
      requires k in chunk && (k !in cache || OldAt(cache[k], staleTtl, from, to)) && earlier <= from
      ensures exists x :: x in chunk && (x !in cache || OldAt(cache[x], staleTtl, earlier, to))
    {
      if k in cache {
        assert OldAt(cache[k], staleTtl, earlier, to);
      }
    }

    lemma YoungEarlier(c: Cached, limit: real, from: nat, earlier: nat, to: nat)
      requires YoungAt(c, limit, from, to) && earlier <= from
      ensures YoungAt(c, limit, earlier, to)
    {
    }
  }

  lemma DeliveredInWorld(answer: BatchAnswer, instruments: seq<string>, n: nat, world: string -> Details)
    requires answer.Markets? && n <= |answer.entries|
    ensures
      (forall i :: HonestEntry(answer, i, world)) ==>
      var m := Delivered(answer.entries[..n], instruments);
      forall k :: k in m ==> m[k] == world(k)
  {
    if n > 0 {
      assert answer.entries[..n][..n - 1] == answer.entries[..n - 1];
      DeliveredInWorld(answer, instruments, n - 1, world);
      if forall i :: HonestEntry(answer, i, world) {
        assert HonestEntry(answer, n - 1, world);
      }
    }
  }

  /** Both reads of the same instruments, against a broker whose answers describe one world and caches
      that do: whenever both return normally they return the same table, and both do when the brokers answer
      for every instrument they are asked about. */
  method ReadBothWays(batched: IgMarkets, single: IgMarkets, instruments: seq<string>, world: string -> Details)
    returns (many: Result<seq<(string, Details)>>, one: Result<seq<(string, Details)>>)
    requires batched != single
    requires batched.Honest(world) && single.Honest(world)
    requires Truthful(batched.cache, world) && Truthful(single.cache, world)
    modifies batched, single
    ensures many.Ok? && one.Ok? ==> many == one
    ensures batched.AnswersAll() ==> many == Ok(WorldTable(Requested(instruments), world))
    ensures single.AnswersAll() ==> one == Ok(WorldTable(Requested(instruments), world))
  {
    ghost var requested := Requested(instruments);
    if batched.AnswersAll() {
      batched.BatchAnswers(requested, batched.cache, batched.tick, batched.asked);
    }
    if single.AnswersAll() {
      single.AloneAnswers(requested, single.cache, single.tick, single.asked);
    }
    ghost var todo;
    many, todo := batched.GetMarketDetailsMany(instruments, world);
    one := single.GetOneByOne(instruments, world);
  }
}
