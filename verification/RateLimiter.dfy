/** The adapter's limiter for non-trading requests: a sliding window of sixty seconds and a
    pause that an exhausted window or a broker allowance error sets. */
module RateLimiter {
  import opened Basics

  const WINDOW := 60.0

  datatype Config = Config(perMinute: nat, breaker: real) {
    /** What the settings validators demand. */
    ghost predicate Valid() { perMinute > 0 && breaker > 0.0 }
  }

  datatype State = State(times: seq<real>, blockedUntil: Option<real>)

  datatype Verdict = Admitted | Paused(retryAfter: real) | Exhausted(retryAfter: real)

  /** The readings still inside the window; the older ones are dropped from the front. */
  function Recent(times: seq<real>, now: real): seq<real> {
    if times != [] && now - times[0] >= WINDOW then Recent(times[1..], now) else times
  }

  /** The effect of one request whose clock reading is `now`. */
  function Request(c: Config, st: State, now: real): (State, Verdict)
    requires c.perMinute > 0
  {
    if st.blockedUntil.Some? && now < st.blockedUntil.value then
      (st, Paused(st.blockedUntil.value - now))
    else
      var recent := Recent(st.times, now);
      if |recent| >= c.perMinute then
        var until := Max(recent[0] + WINDOW, now + Min(c.breaker, WINDOW));
        (State(recent, Some(until)), Exhausted(until - now))
      else (State(recent + [now], st.blockedUntil), Admitted)
  }

  /** The effect of an allowance error reported by the broker. */
  function AllowanceError(c: Config, st: State, now: real): State {
    st.(blockedUntil := Some(now + c.breaker))
  }

  class Limiter {
    const config: Config
    var requestTimes: seq<real>
    var blockedUntil: Option<real>

    function AsState(): State reads this { State(requestTimes, blockedUntil) }

    constructor (config: Config)
      ensures this.config == config && AsState() == State([], None)
    {
      this.config := config;
      requestTimes, blockedUntil := [], None;
    }

    method ApplyBudget(now: real) returns (verdict: Verdict)
      requires config.perMinute > 0
      modifies this
      ensures (AsState(), verdict) == Request(config, old(AsState()), now)
    {
      if blockedUntil.Some? && now < blockedUntil.value {
        return Paused(blockedUntil.value - now);
      }
      while requestTimes != [] && now - requestTimes[0] >= WINDOW
        invariant Recent(requestTimes, now) == Recent(old(requestTimes), now)
        invariant blockedUntil == old(blockedUntil)
        decreases |requestTimes|
      {
        requestTimes := requestTimes[1..];
      }
      if |requestTimes| >= config.perMinute {
        var until := Max(requestTimes[0] + WINDOW, now + Min(config.breaker, WINDOW));
        blockedUntil := Some(until);
        return Exhausted(until - now);
      }
      requestTimes := requestTimes + [now];
      verdict := Admitted;
    }

    method RecordAllowanceError(now: real)
      modifies this`blockedUntil
      ensures AsState() == AllowanceError(config, old(AsState()), now)
    {
      blockedUntil := Some(now + config.breaker);
    }
  }

  /* ----- Runs ----- */

  datatype Event = Call(now: real) | Error(now: real)

  /** One event, on the state and the readings of the calls admitted so far. */
  function After(c: Config, before: (State, seq<real>), e: Event): (State, seq<real>)
    requires c.perMinute > 0
  {
    match e
    case Call(now) =>
      var (next, verdict) := Request(c, before.0, now);
      (next, if verdict.Admitted? then before.1 + [now] else before.1)
    case Error(now) => (AllowanceError(c, before.0, now), before.1)
  }

  /** State after a run, and the readings of the admitted calls in order. */
  function Run(c: Config, events: seq<Event>): (State, seq<real>)
    requires c.perMinute > 0
  {
    if events == [] then (State([], None), [])
    else After(c, Run(c, events[..|events| - 1]), events[|events| - 1])
  }

  lemma RunSnoc(c: Config, events: seq<Event>, e: Event)
    requires c.perMinute > 0
    ensures Run(c, events + [e]) == After(c, Run(c, events), e)
  {
    assert (events + [e])[..|events|] == events;
  }

  /** Calls reach the lock in the order of their clock readings. */
  ghost predicate CallsInOrder(events: seq<Event>) {
    forall i, j :: 0 <= i < j < |events| && events[i].Call? && events[j].Call? ==> events[i].now <= events[j].now
  }

  ghost predicate CallsBefore(events: seq<Event>, now: real) {
    forall i :: 0 <= i < |events| && events[i].Call? ==> events[i].now <= now
  }

  ghost predicate Ascending(log: seq<real>) { forall i, j :: 0 <= i < j < |log| ==> log[i] <= log[j] }

  /** Any `n + 1` consecutive admissions span a full window. */
  ghost predicate Spaced(log: seq<real>, n: nat) {
    forall j :: n <= j < |log| ==> Apart(log, j, n)
  }

  ghost predicate Apart(log: seq<real>, j: nat, n: nat)
    requires n <= j < |log|
  {
    log[j] - log[j - n] >= WINDOW
  }

  /** The window kept is the tail of the log, and everything before it is at least a window old. */
  ghost predicate Tracks(c: Config, times: seq<real>, log: seq<real>, now: real) {
    var dropped := |log| - |times|;
    && |times| <= c.perMinute && dropped >= 0 && log[dropped..] == times
    && (forall i :: 0 <= i < dropped ==> now - log[i] >= WINDOW)
    && (forall i :: 0 <= i < |log| ==> log[i] <= now)
    && Ascending(log) && Spaced(log, c.perMinute)
  }

  lemma {:induction false} RecentDrops(times: seq<real>, now: real) returns (k: nat)
    ensures k <= |times| && Recent(times, now) == times[k..]
    ensures forall i :: 0 <= i < k ==> now - times[i] >= WINDOW
    ensures k < |times| ==> now - times[k] < WINDOW
  {
    if times != [] && now - times[0] >= WINDOW {
      var rest := RecentDrops(times[1..], now);
      k := rest + 1;
    } else {
      k := 0;
    }
  }

  lemma LaterKeepsTrack(c: Config, times: seq<real>, log: seq<real>, before: real, now: real)
    requires before <= now && Tracks(c, times, log, before)
    ensures Tracks(c, times, log, now)
  {
  }

  /** Dropping what has left the window keeps the rest of the track. */
  lemma RecentKeepsTrack(c: Config, times: seq<real>, log: seq<real>, before: real, now: real)
    requires before <= now && Tracks(c, times, log, before)
    ensures Tracks(c, Recent(times, now), log, now)
  {
    var k := RecentDrops(times, now);
    var dropped := |log| - |times|;
    forall i | 0 <= i < dropped + k ensures now - log[i] >= WINDOW {
      if i >= dropped {
        assert log[i] == log[dropped..][i - dropped];
      }
    }
    assert log[dropped + k..] == log[dropped..][k..];
  }

  /** Admitting a call below the allowance keeps the spacing. */
  lemma AdmitKeepsTrack(c: Config, times: seq<real>, log: seq<real>, now: real)
    requires Tracks(c, times, log, now) && |times| < c.perMinute
    ensures Tracks(c, times + [now], log + [now], now)
  {
    var dropped, all := |log| - |times|, log + [now];
    assert all[dropped..] == log[dropped..] + [now];
    forall j | c.perMinute <= j < |all| ensures Apart(all, j, c.perMinute) {
      if j == |log| {
        assert j - c.perMinute < dropped;
      } else {
        assert Apart(log, j, c.perMinute);
      }
    }
  }

  lemma CallKeepsTrack(c: Config, st: State, log: seq<real>, before: real, now: real)
    requires c.perMinute > 0 && before <= now && Tracks(c, st.times, log, before)
    ensures Tracks(c, After(c, (st, log), Call(now)).0.times, After(c, (st, log), Call(now)).1, now)
  {
    hide Tracks, Recent;
    LaterKeepsTrack(c, st.times, log, before, now);
    RecentKeepsTrack(c, st.times, log, before, now);
    if |Recent(st.times, now)| < c.perMinute {
      AdmitKeepsTrack(c, Recent(st.times, now), log, now);
    }
  }

  lemma {:induction false} RunTracks(c: Config, events: seq<Event>, now: real)
    requires c.perMinute > 0 && CallsInOrder(events) && CallsBefore(events, now)
    ensures Tracks(c, Run(c, events).0.times, Run(c, events).1, now)
  {
    if events != [] {
      var earlier, last := events[..|events| - 1], events[|events| - 1];
      if last.Call? {
        RunTracks(c, earlier, last.now);
        CallKeepsTrack(c, Run(c, earlier).0, Run(c, earlier).1, last.now, last.now);
        assert Tracks(c, Run(c, events).0.times, Run(c, events).1, last.now);
      } else {
        RunTracks(c, earlier, now);
      }
    }
  }

  /** Admissions in the half-open window of this length. */
  function InWindow(log: seq<real>, from: real, length: real): nat {
    if log == [] then 0
    else InWindow(log[..|log| - 1], from, length) + (if from <= log[|log| - 1] < from + length then 1 else 0)
  }

  lemma {:induction false} SpacedWindow(log: seq<real>, n: nat, from: real)
    requires n > 0 && Ascending(log) && Spaced(log, n)
    ensures InWindow(log, from, WINDOW) <= n
  {
    if |log| <= n {
      InWindowAtMost(log, from);
    } else {
      var m := |log| - 1;
      if from <= log[m] < from + WINDOW {
        assert Apart(log, m, n);
        NoneBefore(log, m + 1 - n, from, m + 1);
        assert log[..m + 1] == log;
      } else {
        forall j | n <= j < m ensures Apart(log[..m], j, n) {
          assert Apart(log, j, n);
        }
        SpacedWindow(log[..m], n, from);
      }
    }
  }

  lemma InWindowAtMost(log: seq<real>, from: real)
    ensures InWindow(log, from, WINDOW) <= |log|
  {
  }

  /** If everything before position k lies before the window, only the rest can be inside. */
  lemma {:induction false} NoneBefore(log: seq<real>, k: nat, from: real, m: nat)
    requires k <= m <= |log|
    requires Ascending(log) && (k > 0 ==> log[k - 1] < from)
    ensures InWindow(log[..m], from, WINDOW) <= m - k
    decreases m
  {
    if m > 0 {
      assert log[..m][..m - 1] == log[..m - 1];
      if m > k {
        NoneBefore(log, k, from, m - 1);
      } else {
        assert log[m - 1] < from;
        NoneBefore(log, k - 1, from, m - 1);
      }
    }
  }

  /** Over every run whose calls reach the lock in clock order, with allowance errors anywhere in
      between, no half-open window of sixty seconds contains more admissions than allowed. */
  lemma WindowBound(c: Config, events: seq<Event>, from: real)
    requires c.perMinute > 0 && CallsInOrder(events)
    ensures InWindow(Run(c, events).1, from, WINDOW) <= c.perMinute
  {
    var now := LatestCall(events);
    RunTracks(c, events, now);
    SpacedWindow(Run(c, events).1, c.perMinute, from);
  }

  lemma {:induction false} LatestCall(events: seq<Event>) returns (now: real)
    ensures CallsBefore(events, now)
  {
    if events == [] {
      now := 0.0;
    } else {
      var earlier := LatestCall(events[..|events| - 1]);
      now := Max(earlier, events[|events| - 1].now);
    }
  }

  /* ----- Calls out of order ----- */

  /** With an allowance of one, the window is the last admission, whatever the order of the readings. */
  ghost predicate LastOnly(times: seq<real>, log: seq<real>) {
    && Ascending(log) && Spaced(log, 1)
    && (if log == [] then times == [] else times == [log[|log| - 1]])
  }

  lemma CallKeepsLast(c: Config, st: State, log: seq<real>, now: real)
    requires c.perMinute == 1 && LastOnly(st.times, log)
    ensures LastOnly(After(c, (st, log), Call(now)).0.times, After(c, (st, log), Call(now)).1)
  {
    var (next, verdict) := Request(c, st, now);
    if verdict.Admitted? {
      var all := log + [now];
      if log != [] {
        assert now - st.times[0] >= WINDOW;
      }
      assert next.times == [now] && all[|all| - 1] == now;
      forall j | 1 <= j < |all| ensures Apart(all, j, 1) {
        if j < |log| {
          assert Apart(log, j, 1);
        }
      }
    } else {
      var k := RecentDrops(st.times, now);
    }
  }

  lemma {:induction false} RunKeepsLast(c: Config, events: seq<Event>)
    requires c.perMinute == 1
    ensures LastOnly(Run(c, events).0.times, Run(c, events).1)
  {
    if events != [] {
      hide LastOnly, Request;
      var earlier, last := events[..|events| - 1], events[|events| - 1];
      RunKeepsLast(c, earlier);
      if last.Call? {
        CallKeepsLast(c, Run(c, earlier).0, Run(c, earlier).1, last.now);
      }
    } else {
      assert LastOnly([], []);
    }
  }

  function Repeat(x: real, n: nat): seq<real> { if n == 0 then [] else Repeat(x, n - 1) + [x] }

  function Calls(readings: seq<real>): seq<Event> {
    seq(|readings|, i requires 0 <= i < |readings| => Call(readings[i]))
  }

  /** A full allowance at one instant, a call a window later, and one that read the clock before that
      call but takes the lock after it. */
  function Overtaken(n: nat, lag: real): seq<real> { Repeat(0.0, n) + [WINDOW] + [WINDOW - lag] }

  lemma RunCall(c: Config, readings: seq<real>, now: real)
    requires c.perMinute > 0
    ensures Run(c, Calls(readings + [now])) == After(c, Run(c, Calls(readings)), Call(now))
  {
    assert Calls(readings + [now]) == Calls(readings) + [Call(now)];
    RunSnoc(c, Calls(readings), Call(now));
  }

  lemma {:induction false} BurstAdmitted(c: Config, n: nat)
    requires n <= c.perMinute && c.perMinute > 0
    ensures Leaves(c, Repeat(0.0, n), Repeat(0.0, n)) && |Repeat(0.0, n)| == n
    ensures forall i :: 0 <= i < n ==> Repeat(0.0, n)[i] == 0.0
  {
    if n > 0 {
      BurstAdmitted(c, n - 1);
      hide Leaves;
      AdmittedAfter(c, Repeat(0.0, n - 1), Repeat(0.0, n - 1), 0, 0.0);
    } else {
      assert Calls([]) == [];
    }
  }

  /** A call that finds room once the first k readings of the window have left it. */
  lemma AdmitsAt(c: Config, times: seq<real>, log: seq<real>, k: nat, now: real)
    requires k <= |times| && |times| - k < c.perMinute
    requires forall i :: 0 <= i < k ==> now - times[i] >= WINDOW
    requires k < |times| ==> now - times[k] < WINDOW
    ensures After(c, (State(times, None), log), Call(now)) == (State(times[k..] + [now], None), log + [now])
  {
    RecentIs(times, now, k);
    hide Recent;
  }

  lemma {:induction false} RecentIs(times: seq<real>, now: real, k: nat)
    requires k <= |times|
    requires forall i :: 0 <= i < k ==> now - times[i] >= WINDOW
    requires k < |times| ==> now - times[k] < WINDOW
    ensures Recent(times, now) == times[k..]
  {
    if k > 0 {
      RecentIs(times[1..], now, k - 1);
    }
  }

  /** However small the lag, such a run puts one admission too many into a window. */
  lemma OvertakenExceeds(c: Config, lag: real)
    requires c.perMinute >= 2 && 0.0 < lag <= WINDOW
    ensures
      var log := Run(c, Calls(Overtaken(c.perMinute, lag))).1;
      log == Overtaken(c.perMinute, lag) && InWindow(log, 0.0, WINDOW) == c.perMinute + 1
  {
    var n, burst := c.perMinute, Repeat(0.0, c.perMinute);
    OvertakenLog(c, burst, lag);
    BurstInside(n, WINDOW);
    LastTwo(burst, WINDOW, WINDOW - lag, WINDOW);
    hide Run, Calls, InWindow, Repeat;
  }

  lemma OvertakenLog(c: Config, burst: seq<real>, lag: real)
    requires c.perMinute >= 2 && 0.0 <= lag && burst == Repeat(0.0, c.perMinute)
    ensures Leaves(c, burst + [WINDOW] + [WINDOW - lag], [WINDOW] + [WINDOW - lag])
  {
    BurstAdmitted(c, c.perMinute);
    hide *;
    AdmittedAfter(c, burst, burst, c.perMinute, WINDOW);
    var kept := [WINDOW];
    assert burst[c.perMinute..] + kept == kept && kept[0..] == kept;
    AdmittedAfter(c, burst + kept, kept, 0, WINDOW - lag);
  }

  /** A run of calls at these readings, all admitted, that leaves this window and no pause. */
  ghost predicate Leaves(c: Config, readings: seq<real>, times: seq<real>)
    requires c.perMinute > 0
  {
    Run(c, Calls(readings)) == (State(times, None), readings)
  }

  lemma AdmittedAfter(c: Config, readings: seq<real>, times: seq<real>, k: nat, now: real)
    requires c.perMinute > 0 && Leaves(c, readings, times)
    requires k <= |times| && |times| - k < c.perMinute
    requires forall i :: 0 <= i < k ==> now - times[i] >= WINDOW
    requires k < |times| ==> now - times[k] < WINDOW
    ensures Leaves(c, readings + [now], times[k..] + [now])
  {
    RunCall(c, readings, now);
    hide Run, Calls, After;
    AdmitsAt(c, times, readings, k, now);
  }

  function Inside(x: real, length: real): nat { if 0.0 <= x < length then 1 else 0 }

  lemma LastTwo(log: seq<real>, a: real, b: real, length: real)
    ensures InWindow(log + [a], 0.0, length) == InWindow(log, 0.0, length) + Inside(a, length)
    ensures InWindow(log + [a] + [b], 0.0, length)
         == InWindow(log, 0.0, length) + Inside(a, length) + Inside(b, length)
  {
    assert (log + [a])[..|log|] == log;
    assert (log + [a] + [b])[..|log| + 1] == log + [a];
  }

  lemma {:induction false} BurstInside(n: nat, length: real)
    requires length > 0.0
    ensures InWindow(Repeat(0.0, n), 0.0, length) == n
  {
    if n > 0 {
      assert Repeat(0.0, n)[..|Repeat(0.0, n)| - 1] == Repeat(0.0, n - 1);
      BurstInside(n - 1, length);
    }
  }

  /** The clock is read before the lock is taken. The window is kept by every run, whatever the order in
      which the readings reach the lock, exactly when one call a minute is allowed. */
  lemma OrderMattersIff(c: Config)
    requires c.perMinute > 0
    ensures (forall events: seq<Event>, from: real :: InWindow(Run(c, events).1, from, WINDOW) <= c.perMinute)
       <==> c.perMinute == 1
  {
    if c.perMinute == 1 {
      forall events: seq<Event>, from: real ensures InWindow(Run(c, events).1, from, WINDOW) <= c.perMinute {
        RunKeepsLast(c, events);
        SpacedWindow(Run(c, events).1, 1, from);
      }
    } else {
      OvertakenExceeds(c, 1.0);
    }
  }

  /* ----- Admission ----- */

  /** Admissions less than a window ago. */
  function LastMinute(log: seq<real>, now: real): nat {
    if log == [] then 0
    else LastMinute(log[..|log| - 1], now) + (if now - log[|log| - 1] < WINDOW then 1 else 0)
  }

  lemma {:induction false} LastMinuteIs(log: seq<real>, now: real, k: nat, n: nat)
    requires k <= n <= |log|
    requires forall i :: 0 <= i < k ==> now - log[i] >= WINDOW
    requires forall i :: k <= i < n ==> now - log[i] < WINDOW
    ensures LastMinute(log[..n], now) == n - k
    decreases n
  {
    if n > 0 {
      assert log[..n][..n - 1] == log[..n - 1];
      LastMinuteIs(log, now, if k < n then k else n - 1, n - 1);
    }
  }

  lemma RecentAreLastMinute(c: Config, times: seq<real>, log: seq<real>, now: real)
    requires Tracks(c, times, log, now)
    ensures |Recent(times, now)| == LastMinute(log, now)
  {
    hide Spaced;
    var k := RecentDrops(times, now);
    var dropped := |log| - |times|;
    forall i | 0 <= i < dropped + k ensures now - log[i] >= WINDOW {
      if i >= dropped {
        assert log[i] == times[i - dropped];
      }
    }
    forall i | dropped + k <= i < |log| ensures now - log[i] < WINDOW {
      assert log[dropped + k] == times[k];
    }
    LastMinuteIs(log, now, dropped + k, |log|);
    assert log[..|log|] == log;
  }

  /** Outside a pause a call is admitted exactly when fewer than the allowed number were admitted in
      the last minute. */
  lemma AdmittedIff(c: Config, events: seq<Event>, now: real)
    requires c.perMinute > 0 && CallsInOrder(events) && CallsBefore(events, now)
    requires Run(c, events).0.blockedUntil.None? || now >= Run(c, events).0.blockedUntil.value
    ensures Request(c, Run(c, events).0, now).1.Admitted? <==> LastMinute(Run(c, events).1, now) < c.perMinute
  {
    RunTracks(c, events, now);
    hide Run, Tracks, Recent, LastMinute, CallsInOrder, CallsBefore;
    RecentAreLastMinute(c, Run(c, events).0.times, Run(c, events).1, now);
  }

  /* ----- Exhaustion ----- */

  /** After any run, an exhausted window asks for a wait of more than nothing and at most a window. */
  lemma RetryAfterBounds(c: Config, events: seq<Event>, now: real)
    requires c.Valid() && CallsInOrder(events) && CallsBefore(events, now)
    requires Request(c, Run(c, events).0, now).1.Exhausted?
    ensures 0.0 < Request(c, Run(c, events).0, now).1.retryAfter <= WINDOW
  {
    RunTracks(c, events, now);
    var (st, log) := Run(c, events);
    var k := RecentDrops(st.times, now);
    assert st.times[k] == log[|log| - |st.times| + k];
  }

  /** Waiting as told is enough: after any run and an exhausted call, every call that reads less than
      the end of the pause leaves the limiter as it is, and the first one that does not is admitted. */
  lemma WaitingIsEnough(c: Config, events: seq<Event>, now: real, waiting: seq<real>, later: real)
    requires c.Valid() && CallsInOrder(events) && CallsBefore(events, now)
    requires Request(c, Run(c, events).0, now).1.Exhausted?
    requires
      var end := Request(c, Run(c, events).0, now).0.blockedUntil.value;
      later >= end && forall i :: 0 <= i < |waiting| ==> waiting[i] < end
    ensures
      var exhausted := Run(c, events + [Call(now)]);
      var waited := Run(c, events + [Call(now)] + Calls(waiting));
      waited == exhausted && Request(c, waited.0, later).1.Admitted?
  {
    RunTracks(c, events, now);
    RunSnoc(c, events, Call(now));
    var st := Run(c, events).0;
    var k := RecentDrops(st.times, now);
    var after := Request(c, st, now).0;
    assert after.times == st.times[k..] && later - after.times[0] >= WINDOW;
    var j := RecentDrops(after.times, later);
    hide Run, Tracks;
    PausedCalls(c, events + [Call(now)], waiting);
    assert j > 0;
  }

  lemma {:induction false} PausedCalls(c: Config, events: seq<Event>, waiting: seq<real>)
    requires c.perMinute > 0 && Run(c, events).0.blockedUntil.Some?
    requires forall i :: 0 <= i < |waiting| ==> waiting[i] < Run(c, events).0.blockedUntil.value
    ensures Run(c, events + Calls(waiting)) == Run(c, events)
  {
    if waiting == [] {
      assert events + Calls(waiting) == events;
    } else {
      var n := |waiting| - 1;
      PausedCalls(c, events, waiting[..n]);
      assert events + Calls(waiting) == events + Calls(waiting[..n]) + [Call(waiting[n])];
      RunSnoc(c, events + Calls(waiting[..n]), Call(waiting[n]));
    }
  }
}
