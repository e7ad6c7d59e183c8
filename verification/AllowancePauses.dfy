/** The two pauses of the limiter over whole runs: how long they last, what calls during them are told, and
    how calls are decided once they are over. */
module AllowancePauses {
  import opened Basics
  import opened RateLimiter

  /* ----- After an allowance error ----- */

  /** After any run and an allowance error read at t, every call that reads less than the breaker's length
      later is refused with exactly the time left as its wait, however many such calls there are; the
      limiter keeps its window and the log of admissions. */
  lemma ErrorPauses(c: Config, events: seq<Event>, t: real, waiting: seq<real>, now: real)
    requires c.Valid() && now < t + c.breaker
    requires forall i :: 0 <= i < |waiting| ==> waiting[i] < t + c.breaker
    ensures
      var before, paused := Run(c, events), Run(c, events + [Error(t)] + Calls(waiting));
      && paused == (State(before.0.times, Some(t + c.breaker)), before.1)
      && Request(c, paused.0, now) == (paused.0, Paused(t + c.breaker - now))
  {
    RunSnoc(c, events, Error(t));
    hide Run;
    PausedCalls(c, events + [Error(t)], waiting);
  }

  /** From the end of that pause on, a call is admitted exactly when fewer than the allowed number were
      admitted in the last minute. */
  lemma DecidedAfterError(c: Config, events: seq<Event>, t: real, waiting: seq<real>, now: real)
    requires c.Valid() && CallsInOrder(events) && CallsBefore(events, now) && now >= t + c.breaker
    requires forall i :: 0 <= i < |waiting| ==> waiting[i] < t + c.breaker
    ensures
      var before, paused := Run(c, events), Run(c, events + [Error(t)] + Calls(waiting));
      Request(c, paused.0, now).1.Admitted? <==> LastMinute(before.1, now) < c.perMinute
  {
    ErrorPauses(c, events, t, waiting, t);
    RunTracks(c, events, now);
    hide Run, Tracks, Recent, LastMinute, CallsInOrder, CallsBefore;
    RecentAreLastMinute(c, Run(c, events).0.times, Run(c, events).1, now);
  }

  /* ----- After an exhausted window ----- */

  /** An exhausted window asks for a wait until the oldest of the last allowed admissions is a minute old, and
      for the breaker's length or a minute, whichever is shorter, at least. */
  lemma ExhaustedWait(c: Config, events: seq<Event>, now: real)
    requires c.Valid() && CallsInOrder(events) && CallsBefore(events, now)
    requires Request(c, Run(c, events).0, now).1.Exhausted?
    ensures
      var log, wait := Run(c, events).1, Request(c, Run(c, events).0, now).1.retryAfter;
      && |log| >= c.perMinute && now - log[|log| - c.perMinute] < WINDOW
      && wait == Max(log[|log| - c.perMinute] + WINDOW - now, Min(c.breaker, WINDOW))
      && Request(c, Run(c, events).0, now).0.blockedUntil == Some(now + wait)
  {
    RunTracks(c, events, now);
    var (st, log) := Run(c, events);
    var k := RecentDrops(st.times, now);
    assert |st.times[k..]| == c.perMinute && k == 0;
    assert st.times[0] == log[|log| - |st.times|];
  }
}
