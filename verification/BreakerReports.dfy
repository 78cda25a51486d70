/** Reports taken step by step: undisturbed, they amount to the methods of the sequential breaker. */
module BreakerReports {
  import opened BreakerInterleaving
  import opened CircuitBreaker
  import opened Wrappers

  /** The caller takes its own steps, all at one time, until it is idle. */
  ghost predicate Finishes(s: System, c: Caller, now: int, end: System, steps: nat)
    decreases steps
  {
    if steps == 0 then
      s == end && PcOf(end, c).Idle? && end.lock.None?
    else
      var e := Move(c, Continue, now);
      Enabled(s, e) && Finishes(Step(s, e), c, now, end, steps - 1)
  }

  ghost predicate EndsAs(s: System, c: Caller, now: int, b: Breaker) {
    exists end: System, steps: nat :: Finishes(s, c, now, end, steps) && end.b == b
  }

  lemma IdleIsDone(s: System, c: Caller, now: int)
    requires PcOf(s, c).Idle? && s.lock.None?
    ensures EndsAs(s, c, now, s.b)
  {
    assert Finishes(s, c, now, s, 0);
  }

  lemma OneMoreStep(s: System, c: Caller, now: int, b: Breaker)
    requires Enabled(s, Move(c, Continue, now)) && EndsAs(Step(s, Move(c, Continue, now)), c, now, b)
    ensures EndsAs(s, c, now, b)
  {
    var end: System, steps: nat :| Finishes(Step(s, Move(c, Continue, now)), c, now, end, steps) && end.b == b;
    assert Finishes(s, c, now, end, steps + 1);
  }

  // ---- success --------------------------------------------------------------------------------------------

  /** What the closing still has to reset, from this step on. */
  function ClosedFrom(b: Breaker, step: nat): Breaker {
    b.(consecutiveSuccesses := if step < 1 then 0 else b.consecutiveSuccesses,
       consecutiveFailures := if step < 2 then 0 else b.consecutiveFailures,
       halfOpenPermits := if step < 3 then 1 else b.halfOpenPermits,
       totalRequests := if step < 4 then 0 else b.totalRequests,
       failedRequests := 0)
  }

  lemma {:induction false} ClosingAlone(s: System, c: Caller, now: int, step: nat)
    requires PcOf(s, c) == Closing(step) && step <= 4 && s.lock == Some(c)
    ensures EndsAs(s, c, now, ClosedFrom(s.b, step))
    decreases 4 - step
  {
    var next := Step(s, Move(c, Continue, now));
    if step == 4 {
      IdleIsDone(next, c, now);
    } else {
      ClosingAlone(next, c, now, step + 1);
    }
    OneMoreStep(s, c, now, ClosedFrom(s.b, step));
  }

  lemma CountedSuccessAlone(s: System, c: Caller, now: int)
    requires PcOf(s, c).CountSuccess? && s.lock.None? && s.b.state == HalfOpen
    ensures EndsAs(s, c, now, RecordSuccess(s.b))
  {
    var next := Step(s, Move(c, Continue, now));
    var last := Step(next, Move(c, Continue, now));
    if PcOf(next, c).EnterClosing? {
      ClosingAlone(last, c, now, 0);
      assert ClosedFrom(last.b, 0) == RecordSuccess(s.b);
    } else {
      IdleIsDone(last, c, now);
    }
    OneMoreStep(next, c, now, RecordSuccess(s.b));
    OneMoreStep(s, c, now, RecordSuccess(s.b));
  }

  /** A success reported by a running caller, without interference. */
  lemma SuccessAlone(s: System, c: Caller, now: int)
    requires PcOf(s, c).Running? && s.lock.None?
    ensures EndsAs(Step(s, Move(c, Succeed, now)), c, now, RecordSuccess(s.b))
  {
    var next := Step(s, Move(c, Succeed, now));
    match s.b.state {
      case Closed =>
        IdleIsDone(Step(next, Move(c, Continue, now)), c, now);
        OneMoreStep(next, c, now, RecordSuccess(s.b));
      case HalfOpen => CountedSuccessAlone(next, c, now);
      case Open => IdleIsDone(next, c, now);
    }
  }

  // ---- failure --------------------------------------------------------------------------------------------

  function OpenedFrom(b: Breaker, step: nat, now: int): Breaker {
    b.(lastOpenedAt := if step < 1 then Some(now) else b.lastOpenedAt,
       consecutiveFailures := if step < 2 then 0 else b.consecutiveFailures,
       consecutiveSuccesses := if step < 3 then 0 else b.consecutiveSuccesses,
       halfOpenPermits := 0)
  }

  lemma {:induction false} OpeningAlone(s: System, c: Caller, now: int, step: nat)
    requires PcOf(s, c) == Opening(step) && step <= 3 && s.lock == Some(c)
    ensures EndsAs(s, c, now, OpenedFrom(s.b, step, now))
    decreases 3 - step
  {
    var next := Step(s, Move(c, Continue, now));
    if step == 3 {
      IdleIsDone(next, c, now);
    } else {
      OpeningAlone(next, c, now, step + 1);
    }
    OneMoreStep(s, c, now, OpenedFrom(s.b, step, now));
  }

  /** What the failure in a Closed breaker comes to, once it is counted. */
  function Counted(b: Breaker, failures: nat, total: nat, now: int): Breaker {
    if failures >= AtLeastOne(b.config.failureThreshold) || ErrorRateHit(b.config, total, b.failedRequests)
    then OpenLocked(b, now) else b
  }

  lemma DecisionAlone(s: System, c: Caller, now: int)
    requires PcOf(s, c).LoadFailed? && s.lock == Some(c)
    ensures EndsAs(s, c, now, Counted(s.b, PcOf(s, c).failures, PcOf(s, c).total, now))
  {
    var result := Counted(s.b, PcOf(s, c).failures, PcOf(s, c).total, now);
    var next := Step(s, Move(c, Continue, now));
    if PcOf(next, c).Opening? {
      OpeningAlone(next, c, now, 0);
      assert OpenedFrom(next.b, 0, now) == result;
    } else {
      IdleIsDone(next, c, now);
    }
    OneMoreStep(s, c, now, result);
  }

  lemma CountedFailureAlone(s: System, c: Caller, now: int)
    requires PcOf(s, c).CountFailure? && s.lock == Some(c)
    ensures var b := s.b.(consecutiveFailures := s.b.consecutiveFailures + 1);
            EndsAs(s, c, now, Counted(b, b.consecutiveFailures, b.totalRequests, now))
  {
    var b := s.b.(consecutiveFailures := s.b.consecutiveFailures + 1);
    var next := Step(s, Move(c, Continue, now));
    var last := Step(next, Move(c, Continue, now));
    DecisionAlone(last, c, now);
    OneMoreStep(next, c, now, Counted(b, b.consecutiveFailures, b.totalRequests, now));
    OneMoreStep(s, c, now, Counted(b, b.consecutiveFailures, b.totalRequests, now));
  }

  /** A failure reported by a running caller, without interference. */
  lemma FailureAlone(s: System, c: Caller, now: int)
    requires PcOf(s, c).Running? && s.lock.None?
    ensures EndsAs(Step(s, Move(c, Fail, now)), c, now, RecordFailure(s.b, now))
  {
    var next := Step(s, Move(c, Fail, now));
    var entered := Step(next, Move(c, Continue, now));
    match s.b.state {
      case Closed => CountedFailureAlone(entered, c, now);
      case HalfOpen =>
        OpeningAlone(entered, c, now, 0);
        assert OpenedFrom(entered.b, 0, now) == RecordFailure(s.b, now);
      case Open => IdleIsDone(entered, c, now);
    }
    OneMoreStep(next, c, now, RecordFailure(s.b, now));
  }

  // ---- the permit -----------------------------------------------------------------------------------------

  /** Handing the permit back, without interference; the caller goes on running, no longer as the probe. */
  lemma ReturnAlone(s: System, c: Caller, now: int)
    requires PcOf(s, c).Running? && s.lock.None?
    ensures var next := Step(s, Move(c, GiveUp, now));
            if s.b.state == HalfOpen then
              Enabled(next, Move(c, Continue, now))
              && Step(next, Move(c, Continue, now)).b == ReleasePermit(s.b)
              && PcOf(Step(next, Move(c, Continue, now)), c) == Running(false)
            else
              next.b == ReleasePermit(s.b) && PcOf(next, c) == PcOf(s, c)
  {
  }
}
