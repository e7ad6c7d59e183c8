/** The limiter when calls overtake each other between reading the clock and taking the lock, but none by
    more than a given lag: which windows are kept. */
module LaggedCalls {
  import opened RateLimiter

  /** No call takes the lock after one whose reading is later by more than the lag. */
  ghost predicate LaggedBy(events: seq<Event>, lag: real) {
    forall i, j :: 0 <= i < j < |events| && events[i].Call? && events[j].Call? ==>
      events[j].now >= events[i].now - lag
  }

  /** Admissions n or more apart in the log are at least so far apart in time. */
  ghost predicate Gap(log: seq<real>, n: nat, length: real) {
    forall i, j :: 0 <= i && i + n <= j < |log| ==> log[j] - log[i] >= length
  }

  /** Some call so far was a whole window after this reading. */
  ghost predicate Passed(events: seq<Event>, reading: real) {
    exists j :: 0 <= j < |events| && events[j].Call? && events[j].now - reading >= WINDOW
  }

  /** The window kept is the tail of the log, and every reading before it has passed. */
  ghost predicate LagTracks(c: Config, events: seq<Event>, times: seq<real>, log: seq<real>, lag: real) {
    var dropped := |log| - |times|;
    && dropped >= 0 && log[dropped..] == times
    && (forall i :: 0 <= i < dropped ==> Passed(events, log[i]))
    && Gap(log, c.perMinute, WINDOW - lag)
  }

  lemma StillPassed(events: seq<Event>, e: Event, reading: real)
    requires Passed(events, reading)
    ensures Passed(events + [e], reading)
  {
    var j :| 0 <= j < |events| && events[j].Call? && events[j].now - reading >= WINDOW;
    assert (events + [e])[j] == events[j];
  }

  lemma LaterTracks(c: Config, events: seq<Event>, e: Event, times: seq<real>, log: seq<real>, lag: real)
    requires LagTracks(c, events, times, log, lag)
    ensures LagTracks(c, events + [e], times, log, lag)
  {
    forall i | 0 <= i < |log| - |times| ensures Passed(events + [e], log[i]) {
      StillPassed(events, e, log[i]);
    }
  }

  /** What the call drops from the front of the window has passed. */
  lemma DropTracks(c: Config, events: seq<Event>, now: real, times: seq<real>, log: seq<real>, lag: real)
    requires LagTracks(c, events + [Call(now)], times, log, lag)
    ensures LagTracks(c, events + [Call(now)], Recent(times, now), log, lag)
  {
    var k := RecentDrops(times, now);
    var dropped := |log| - |times|;
    forall i | 0 <= i < dropped + k ensures Passed(events + [Call(now)], log[i]) {
      if i >= dropped {
        assert log[i] == log[dropped..][i - dropped];
        assert (events + [Call(now)])[|events|] == Call(now);
      }
    }
    assert log[dropped + k..] == log[dropped..][k..];
  }

  /** An admitted call is at least a window less the lag after every reading that has passed. */
  lemma AdmitTracks(c: Config, events: seq<Event>, now: real, times: seq<real>, log: seq<real>, lag: real)
    requires LagTracks(c, events + [Call(now)], times, log, lag) && |times| < c.perMinute
    requires lag >= 0.0 && LaggedBy(events + [Call(now)], lag)
    ensures LagTracks(c, events + [Call(now)], times + [now], log + [now], lag)
  {
    var all, dropped := log + [now], |log| - |times|;
    assert all[dropped..] == log[dropped..] + [now];
    forall i, j | 0 <= i && i + c.perMinute <= j < |all| ensures all[j] - all[i] >= WINDOW - lag {
      if j == |log| {
        assert Passed(events + [Call(now)], log[i]);
        LateEnough(events, now, log[i], lag);
      }
    }
  }

  lemma LateEnough(events: seq<Event>, now: real, reading: real, lag: real)
    requires Passed(events + [Call(now)], reading) && LaggedBy(events + [Call(now)], lag) && lag >= 0.0
    ensures now - reading >= WINDOW - lag
  {
    var all := events + [Call(now)];
    var j :| 0 <= j < |all| && all[j].Call? && all[j].now - reading >= WINDOW;
    assert all[|events|] == Call(now);
  }

  lemma CallLagTracks(c: Config, events: seq<Event>, now: real, st: State, log: seq<real>, lag: real)
    requires c.perMinute > 0 && LagTracks(c, events, st.times, log, lag)
    requires lag >= 0.0 && LaggedBy(events + [Call(now)], lag)
    ensures
      var after := After(c, (st, log), Call(now));
      LagTracks(c, events + [Call(now)], after.0.times, after.1, lag)
  {
    hide LagTracks, LaggedBy, Recent;
    LaterTracks(c, events, Call(now), st.times, log, lag);
    DropTracks(c, events, now, st.times, log, lag);
    if |Recent(st.times, now)| < c.perMinute {
      AdmitTracks(c, events, now, Recent(st.times, now), log, lag);
    }
  }

  lemma EarlierLag(events: seq<Event>, e: Event, lag: real)
    requires LaggedBy(events + [e], lag)
    ensures LaggedBy(events, lag)
  {
    var all := events + [e];
    forall i, j | 0 <= i < j < |events| && events[i].Call? && events[j].Call?
      ensures events[j].now >= events[i].now - lag
    {
      assert all[i] == events[i] && all[j] == events[j];
    }
  }

  lemma {:induction false} RunLagTracks(c: Config, events: seq<Event>, lag: real)
    requires c.perMinute > 0 && lag >= 0.0 && LaggedBy(events, lag)
    ensures LagTracks(c, events, Run(c, events).0.times, Run(c, events).1, lag)
  {
    if events != [] {
      var earlier, last := events[..|events| - 1], events[|events| - 1];
      assert earlier + [last] == events;
      hide LagTracks, LaggedBy, Request, AllowanceError;
      EarlierLag(earlier, last, lag);
      RunLagTracks(c, earlier, lag);
      if last.Call? {
        CallLagTracks(c, earlier, last.now, Run(c, earlier).0, Run(c, earlier).1, lag);
      } else {
        ErrorKeepsTimes(c, earlier, last);
        LaterTracks(c, earlier, last, Run(c, earlier).0.times, Run(c, earlier).1, lag);
      }
    }
  }

  lemma ErrorKeepsTimes(c: Config, events: seq<Event>, e: Event)
    requires c.perMinute > 0 && e.Error?
    ensures Run(c, events + [e]).0.times == Run(c, events).0.times && Run(c, events + [e]).1 == Run(c, events).1
  {
    RunSnoc(c, events, e);
  }

  /* ----- Counting ----- */

  lemma {:induction false} NoneInside(log: seq<real>, from: real, length: real, k: nat)
    requires k <= |log| && forall i :: 0 <= i < k ==> !(from <= log[i] < from + length)
    ensures InWindow(log[..k], from, length) == 0
  {
    if k > 0 {
      assert log[..k][..k - 1] == log[..k - 1];
      NoneInside(log, from, length, k - 1);
    }
  }

  lemma {:induction false} CountGrows(log: seq<real>, from: real, length: real, k: nat, m: nat)
    requires k <= m <= |log|
    ensures InWindow(log[..m], from, length) <= InWindow(log[..k], from, length) + (m - k)
    decreases m
  {
    if k < m {
      assert log[..m][..m - 1] == log[..m - 1];
      CountGrows(log, from, length, k, m - 1);
    }
  }

  lemma {:induction false} GapWindow(log: seq<real>, n: nat, from: real, length: real)
    requires n > 0 && Gap(log, n, length)
    ensures InWindow(log, from, length) <= n
  {
    var size := |log|;
    assert log[..size] == log;
    if size <= n {
      CountGrows(log, from, length, 0, size);
    } else if from <= log[size - 1] < from + length {
      NoneInside(log, from, length, size - n);
      CountGrows(log, from, length, size - n, size);
    } else {
      GapWindow(log[..size - 1], n, from, length);
    }
  }

  /** Over every run in which no call lags by more than that, allowance errors anywhere in between, no
      half-open window of a minute less the lag contains more admissions than allowed. */
  lemma LagBound(c: Config, events: seq<Event>, lag: real, from: real)
    requires c.perMinute > 0 && lag >= 0.0 && LaggedBy(events, lag)
    ensures InWindow(Run(c, events).1, from, WINDOW - lag) <= c.perMinute
  {
    RunLagTracks(c, events, lag);
    hide Run;
    GapWindow(Run(c, events).1, c.perMinute, from, WINDOW - lag);
  }

  /* ----- No longer window is kept ----- */

  /** A full allowance at one instant and a call a window later, and perhaps one overtaken by it. */
  function Readings(n: nat, lag: real): seq<real> {
    if n == 1 then [0.0] + [WINDOW] else Overtaken(n, lag)
  }

  lemma ReadingsLag(n: nat, lag: real)
    requires 0.0 <= lag <= WINDOW
    ensures LaggedBy(Calls(Readings(n, lag)), lag)
  {
    RepeatedReadings(n);
  }

  lemma {:induction false} RepeatedReadings(n: nat)
    ensures |Repeat(0.0, n)| == n && forall i :: 0 <= i < n ==> Repeat(0.0, n)[i] == 0.0
  {
    if n > 0 {
      RepeatedReadings(n - 1);
    }
  }

  lemma ReadingsExceed(c: Config, lag: real, length: real)
    requires c.perMinute > 0 && 0.0 <= lag <= WINDOW
    requires length > if c.perMinute == 1 then WINDOW else WINDOW - lag
    ensures InWindow(Run(c, Calls(Readings(c.perMinute, lag))).1, 0.0, length) > c.perMinute
  {
    if c.perMinute == 1 {
      OneExceeds(c, length);
    } else {
      ManyExceed(c, Repeat(0.0, c.perMinute), lag, length);
    }
  }

  lemma OneExceeds(c: Config, length: real)
    requires c.perMinute == 1 && length > WINDOW
    ensures InWindow(Run(c, Calls([0.0] + [WINDOW])).1, 0.0, length) == 2
  {
    var burst := Repeat(0.0, 1);
    assert Repeat(0.0, 0) == [] && burst == [0.0];
    BurstInside(1, length);
    LastTwo(burst, WINDOW, WINDOW, length);
    BurstAdmitted(c, 1);
    hide InWindow, Repeat, Calls, Run;
    AdmittedAfter(c, burst, burst, 1, WINDOW);
  }

  lemma ManyExceed(c: Config, burst: seq<real>, lag: real, length: real)
    requires c.perMinute >= 2 && 0.0 <= lag <= WINDOW && length > WINDOW - lag && burst == Repeat(0.0, c.perMinute)
    ensures InWindow(Run(c, Calls(burst + [WINDOW] + [WINDOW - lag])).1, 0.0, length) > c.perMinute
  {
    OvertakenLog(c, burst, lag);
    BurstInside(c.perMinute, length);
    LastTwo(burst, WINDOW, WINDOW - lag, length);
    hide InWindow, Repeat, Calls, Run;
  }

  /** With calls that lag by no more than that, exactly the windows of up to a minute less the lag are kept
      by every run; with one call a minute allowed, the lag costs nothing. */
  lemma LagBoundIff(c: Config, lag: real, length: real)
    requires c.perMinute > 0 && 0.0 <= lag <= WINDOW
    ensures
      (forall events: seq<Event>, from: real ::
         LaggedBy(events, lag) ==> InWindow(Run(c, events).1, from, length) <= c.perMinute)
      <==> length <= if c.perMinute == 1 then WINDOW else WINDOW - lag
  {
    var longest := if c.perMinute == 1 then WINDOW else WINDOW - lag;
    if length <= longest {
      forall events: seq<Event>, from: real | LaggedBy(events, lag)
        ensures InWindow(Run(c, events).1, from, length) <= c.perMinute
      {
        LongestKept(c, events, lag, from);
        ShorterWindow(Run(c, events).1, from, length, longest);
      }
    } else {
      ReadingsLag(c.perMinute, lag);
      ReadingsExceed(c, lag, length);
    }
  }

  lemma LongestKept(c: Config, events: seq<Event>, lag: real, from: real)
    requires c.perMinute > 0 && 0.0 <= lag && LaggedBy(events, lag)
    ensures InWindow(Run(c, events).1, from, if c.perMinute == 1 then WINDOW else WINDOW - lag) <= c.perMinute
  {
    if c.perMinute == 1 {
      OrderMattersIff(c);
    } else {
      LagBound(c, events, lag, from);
    }
  }

  lemma {:induction false} ShorterWindow(log: seq<real>, from: real, length: real, longer: real)
    requires length <= longer
    ensures InWindow(log, from, length) <= InWindow(log, from, longer)
  {
    if log != [] {
      ShorterWindow(log[..|log| - 1], from, length, longer);
    }
  }
}
