/** When the breaker opens, closes and admits, read off the calls of a run alone. */
module BreakerHistory {
  import opened CircuitBreaker

  /** How many of the calls are of this kind. */
  function Count(events: seq<TimedCall>, call: Call): nat
    decreases |events|
  {
    if events == [] then 0
    else Count(events[..|events| - 1], call) + if events[|events| - 1].call == call then 1 else 0
  }

  lemma CountMore(events: seq<TimedCall>, from: nat, k: nat, call: Call)
    requires from <= k < |events|
    ensures Count(events[from..k + 1], call) == Count(events[from..k], call) + if events[k].call == call then 1 else 0
  {
    var more := events[from..k + 1];
    assert more[..|more| - 1] == events[from..k] && more[|more| - 1] == events[k];
  }

  // ---- opening --------------------------------------------------------------------------------------------

  /** Closed from event `z` to event `k`, with counters that were zero at `z`: the start of the run, or right after the
      event that closed the breaker. */
  ghost predicate ClosedSince(states: seq<Breaker>, z: nat, k: nat) {
    && z <= k < |states| && (z == 0 || states[z - 1].state != Closed)
    && forall n :: z <= n <= k ==> states[n].state == Closed
  }

  lemma {:induction false} LastZero(config: Config, events: seq<TimedCall>, states: seq<Breaker>, k: nat) returns (z: nat)
    requires CallRun(config, events, states) && k <= |events| && states[k].state == Closed
    ensures ClosedSince(states, z, k)
    decreases k
  {
    z := k;
    if k > 0 && states[k - 1].state == Closed {
      z := LastZero(config, events, states, k - 1);
    }
  }

  /** The counters were zero at event `z`, and the breaker has not closed again up to event `k`. */
  ghost predicate ZeroSince(states: seq<Breaker>, z: nat, k: nat) {
    && z <= k < |states| && states[z].state == Closed && (z == 0 || states[z - 1].state != Closed)
    && forall n :: z < n <= k && states[n].state == Closed ==> states[n - 1].state == Closed
  }

  /** How many requests were admitted at the events from `from` up to `k`. */
  function Admitted(events: seq<TimedCall>, states: seq<Breaker>, from: nat, k: nat): nat
    requires from <= k <= |events| < |states|
    decreases k
  {
    if k == from then 0
    else
      var e := events[k - 1];
      Admitted(events, states, from, k - 1) + if e.call == Asked && AllowRequest(states[k - 1], e.now).1 then 1 else 0
  }

  lemma CountersStartAtZero(config: Config, events: seq<TimedCall>, states: seq<Breaker>, z: nat)
    requires CallRun(config, events, states) && z <= |events| && ZeroSince(states, z, z)
    ensures states[z].totalRequests == 0 && states[z].failedRequests == 0
  {
    if z > 0 {
      ClosedFromHalfOpen(config, events, states, z - 1);
    }
  }

  lemma CountersMove(b: Breaker, e: TimedCall)
    requires AfterCall(b, e).state == Closed ==> b.state == Closed
    ensures AfterCall(b, e).totalRequests == b.totalRequests + if e.call == Asked && AllowRequest(b, e.now).1 then 1 else 0
    ensures AfterCall(b, e).failedRequests == b.failedRequests + if e.call == Errored then 1 else 0
  {
  }

  /** In every state the counters are the requests admitted and the failures reported since the counters were last
      zero: at the start, or when the breaker last closed. */
  lemma {:induction false} CountersAreCounts(config: Config, events: seq<TimedCall>, states: seq<Breaker>, z: nat, k: nat)
    requires CallRun(config, events, states) && k <= |events| && ZeroSince(states, z, k)
    ensures states[k].totalRequests == Admitted(events, states, z, k)
    ensures states[k].failedRequests == Count(events[z..k], Errored)
    decreases k
  {
    if z == k {
      CountersStartAtZero(config, events, states, z);
    } else {
      CountersAreCounts(config, events, states, z, k - 1);
      assert states[k] == AfterCall(states[k - 1], events[k - 1]);
      CountersMove(states[k - 1], events[k - 1]);
      CountMore(events, z, k - 1, Errored);
    }
  }

  /** A Closed breaker admits every request. */
  lemma {:induction false} ClosedAdmitsAll(config: Config, events: seq<TimedCall>, states: seq<Breaker>, z: nat, k: nat)
    requires CallRun(config, events, states) && k <= |events| && ClosedSince(states, z, k)
    ensures ZeroSince(states, z, k) && Admitted(events, states, z, k) == Count(events[z..k], Asked)
    decreases k
  {
    if z < k {
      ClosedAdmitsAll(config, events, states, z, k - 1);
      CountMore(events, z, k - 1, Asked);
    }
  }

  /** The failures of a Closed stretch, up to event `k` included, are as many as the configured rate of its requests,
      of which there were enough. */
  predicate RateReached(config: Config, stretch: seq<TimedCall>) {
    && Count(stretch, Asked) >= config.minRequests
    && Count(stretch, Errored) as real >= config.errorRateThreshold * Count(stretch, Asked) as real
  }

  lemma StepOpensWhen(b: Breaker, e: TimedCall)
    requires b.state == Closed
    ensures AfterCall(b, e).state == Open <==>
            && e.call == Errored
            && (|| b.consecutiveFailures + 1 >= AtLeastOne(b.config.failureThreshold)
                || (b.totalRequests >= b.config.minRequests
                    && (b.failedRequests + 1) as real >= b.config.errorRateThreshold * b.totalRequests as real))
    ensures AfterCall(b, e).state in {Closed, Open}
  {
    assert b.totalRequests == 0 ==> b.config.errorRateThreshold * b.totalRequests as real == 0.0;
  }

  /** A Closed breaker opens at an event if and only if that is a failure, and either the failures since the last
      success reach the threshold, or the error rate since the counters were last zero does. */
  lemma OpensExactly(config: Config, events: seq<TimedCall>, states: seq<Breaker>, z: nat, k: nat)
    requires CallRun(config, events, states) && k < |events| && ClosedSince(states, z, k)
    ensures states[k + 1].state == Open <==>
            && events[k].call == Errored
            && (TrailingFailures(events[..k + 1]) >= AtLeastOne(config.failureThreshold) || RateReached(config, events[z..k + 1]))
    ensures states[k + 1].state != Open ==> states[k + 1].state == Closed
  {
    StepOpensWhen(states[k], events[k]);
    ConfigStays(config, events, states, k);
    if events[k].call == Errored {
      StreakGrows(config, events, states, k);
      StretchCounts(config, events, states, z, k);
    }
  }

  lemma StreakGrows(config: Config, events: seq<TimedCall>, states: seq<Breaker>, k: nat)
    requires CallRun(config, events, states) && k < |events| && states[k].state == Closed && events[k].call == Errored
    ensures TrailingFailures(events[..k + 1]) == states[k].consecutiveFailures + 1
  {
    EveryStateIsExplained(config, events, states, k);
    assert events[..k + 1][..k] == events[..k];
  }

  lemma StretchCounts(config: Config, events: seq<TimedCall>, states: seq<Breaker>, z: nat, k: nat)
    requires CallRun(config, events, states) && k < |events| && ClosedSince(states, z, k) && events[k].call == Errored
    ensures Count(events[z..k + 1], Asked) == states[k].totalRequests
    ensures Count(events[z..k + 1], Errored) == states[k].failedRequests + 1
  {
    ClosedAdmitsAll(config, events, states, z, k);
    CountersAreCounts(config, events, states, z, k);
    CountMore(events, z, k, Asked);
    CountMore(events, z, k, Errored);
  }

  /** With too few requests and too short a streak no failure opens the breaker. */
  lemma FewRequestsDoNotOpen(config: Config, events: seq<TimedCall>, states: seq<Breaker>, z: nat, k: nat)
    requires CallRun(config, events, states) && k < |events| && ClosedSince(states, z, k)
    requires Count(events[z..k + 1], Asked) < config.minRequests
    requires TrailingFailures(events[..k + 1]) < AtLeastOne(config.failureThreshold)
    ensures states[k + 1].state == Closed
  {
    OpensExactly(config, events, states, z, k);
  }

  // ---- closing --------------------------------------------------------------------------------------------

  /** A HalfOpen breaker closes at an event if and only if that is a success, the last one still needed since it was
      entered; it opens if and only if the event is a failure. */
  lemma ClosesExactly(config: Config, events: seq<TimedCall>, states: seq<Breaker>, h: nat, k: nat)
    requires CallRun(config, events, states) && k < |events| && HalfOpenSince(events, states, h, k)
    ensures states[k + 1].state == Closed <==>
            events[k].call == Answered && Successes(events[h + 1..k + 1]) >= AtLeastOne(config.successThreshold)
    ensures states[k + 1].state == Open <==> events[k].call == Errored
  {
    ConfigStays(config, events, states, k);
    LastSuccess(events, h, k);
  }

  // ---- admitting ------------------------------------------------------------------------------------------

  /** In HalfOpen the permit is there exactly when the last call reported a success or handed the permit back. */
  lemma {:induction false} PermitFollowsTheLastCall(config: Config, events: seq<TimedCall>, states: seq<Breaker>, h: nat, k: nat)
    requires CallRun(config, events, states) && k <= |events| && HalfOpenSince(events, states, h, k)
    ensures states[k].halfOpenPermits == 1 <==> k > h + 1 && events[k - 1].call in {Answered, Returned}
    ensures states[k].halfOpenPermits <= 1
    decreases k
  {
    if k == h + 1 {
      HalfOpeningTakesThePermit(states[h], events[h]);
    } else {
      assert HalfOpenSince(events, states, h, k - 1) by {
        EarlierHalfOpen(config, events, states, h, k);
      }
      PermitFollowsTheLastCall(config, events, states, h, k - 1);
    }
  }

  lemma HalfOpeningTakesThePermit(b: Breaker, e: TimedCall)
    requires b.state == Open && AfterCall(b, e).state == HalfOpen
    ensures AfterCall(b, e).halfOpenPermits == 0
  {
  }

  lemma EarlierHalfOpen(config: Config, events: seq<TimedCall>, states: seq<Breaker>, h: nat, k: nat)
    requires CallRun(config, events, states) && h + 1 < k <= |events| && HalfOpenSince(events, states, h, k)
    ensures HalfOpenSince(events, states, h, k - 1)
  {
    LastSuccess(events, h, k - 1);
  }

  /** A request is admitted if and only if the breaker is Closed; or Open and the timeout of its opening has passed; or
      HalfOpen and the call before it, since HalfOpen was entered, reported a success or handed the permit back. */
  lemma AdmitsExactly(config: Config, events: seq<TimedCall>, states: seq<Breaker>, k: nat, now: int)
    requires CallRun(config, events, states) && k <= |events|
    ensures states[k].state == Closed ==> AllowRequest(states[k], now).1
    ensures forall i: nat :: OpenSince(events, states, i, k) ==>
              (AllowRequest(states[k], now).1 <==> now - events[i].now >= config.timeout)
    ensures forall h: nat :: HalfOpenSince(events, states, h, k) ==>
              (AllowRequest(states[k], now).1 <==> k > h + 1 && events[k - 1].call in {Answered, Returned})
    ensures states[k].state == Open ==> exists i: nat :: OpenSince(events, states, i, k)
    ensures states[k].state == HalfOpen ==> exists h: nat :: HalfOpenSince(events, states, h, k)
  {
    EveryStateIsExplained(config, events, states, k);
    ConfigStays(config, events, states, k);
    forall h: nat | HalfOpenSince(events, states, h, k)
      ensures AllowRequest(states[k], now).1 <==> k > h + 1 && events[k - 1].call in {Answered, Returned}
    {
      PermitFollowsTheLastCall(config, events, states, h, k);
    }
  }
}
