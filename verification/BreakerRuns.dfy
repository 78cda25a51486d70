/** Runs of the interleaved breaker put together step by step, with a clock that never goes back. */
module BreakerRuns {
  import opened BreakerInterleaving
  import opened CircuitBreaker
  import opened Wrappers

  /** The clock of these events starts at `clock`, never goes back, and ends at `now`. */
  predicate Timely(clock: int, events: seq<Event>, now: int)
    decreases events
  {
    if events == [] then clock == now else clock <= events[0].now && Timely(events[0].now, events[1..], now)
  }

  /** A disciplined run leads from `s` at `clock` to `end` at `now`. */
  ghost predicate Reachable(s: System, clock: int, end: System, now: int) {
    exists events :: DisciplinedRun(s, events, end) && Timely(clock, events, now)
  }

  ghost predicate OthersStay(before: System, after: System, who: Caller) {
    forall c: Caller :: c != who ==> PcOf(after, c) == PcOf(before, c)
  }

  lemma NoStepYet(s: System, clock: int)
    ensures Reachable(s, clock, s, clock)
  {
    assert DisciplinedRun(s, [], s) && Timely(clock, [], clock);
  }

  lemma {:induction false} OneMore(s: System, clock: int, events: seq<Event>, mid: System, now: int, e: Event)
    requires DisciplinedRun(s, events, mid) && Timely(clock, events, now)
    requires now <= e.now && Enabled(mid, e) && Disciplined(mid, e)
    ensures DisciplinedRun(s, events + [e], Step(mid, e)) && Timely(clock, events + [e], e.now)
    decreases events
  {
    if events == [] {
      assert [e][1..] == [];
      assert events + [e] == [e];
    } else {
      OneMore(Step(s, events[0]), events[0].now, events[1..], mid, now, e);
      assert (events + [e])[1..] == events[1..] + [e];
    }
  }

  lemma Go(s: System, clock: int, mid: System, now: int, e: Event)
    requires Reachable(s, clock, mid, now) && now <= e.now && Enabled(mid, e) && Disciplined(mid, e)
    ensures Reachable(s, clock, Step(mid, e), e.now)
  {
    var events :| DisciplinedRun(s, events, mid) && Timely(clock, events, now);
    OneMore(s, clock, events, mid, now, e);
  }

  lemma GoAsking(s: System, clock: int, mid: System, now: int, e: Event) returns (next: System)
    requires Reachable(s, clock, mid, now) && now <= e.now && Enabled(mid, e) && Admitting(PcOf(mid, e.caller))
    ensures next == AdmissionStep(mid, e) && Reachable(s, clock, next, e.now) && OthersStay(mid, next, e.caller)
  {
    Go(s, clock, mid, now, e);
    next := Step(mid, e);
  }

  lemma GoReporting(s: System, clock: int, mid: System, now: int, e: Event) returns (next: System)
    requires Reachable(s, clock, mid, now) && now <= e.now && Enabled(mid, e) && Disciplined(mid, e)
    requires Succeeding(PcOf(mid, e.caller))
    ensures next == SuccessStep(mid, e) && Reachable(s, clock, next, e.now) && OthersStay(mid, next, e.caller)
  {
    Go(s, clock, mid, now, e);
    next := Step(mid, e);
  }

  lemma GoFailing(s: System, clock: int, mid: System, now: int, e: Event) returns (next: System)
    requires Reachable(s, clock, mid, now) && now <= e.now && Enabled(mid, e) && Disciplined(mid, e)
    requires !Admitting(PcOf(mid, e.caller)) && !Succeeding(PcOf(mid, e.caller))
    ensures next == FailureStep(mid, e) && Reachable(s, clock, next, e.now) && OthersStay(mid, next, e.caller)
  {
    Go(s, clock, mid, now, e);
    next := Step(mid, e);
  }

  lemma {:induction false} DisciplinedIsRun(s: System, events: seq<Event>, end: System)
    requires DisciplinedRun(s, events, end)
    ensures Run(s, events, end)
    decreases events
  {
    if events != [] {
      DisciplinedIsRun(Step(s, events[0]), events[1..], end);
    }
  }

  // ---- what one caller can do while the others stand still ------------------------------------------------

  /** Nobody is inside a lock section, and `who` is not under way. */
  predicate AtRest(s: System, who: Caller) {
    s.lock.None? && PcOf(s, who).Idle?
  }

  predicate OpenedAt(s: System, config: Config, at: int) {
    s.b.state == Open && s.b.config == config && s.b.lastOpenedAt == Some(at)
  }

  /** Opening takes its steps inside the lock and then leaves it. */
  lemma {:induction false} OpenUp(start: System, clock: int, s: System, now: int, c: Caller, step: nat) returns (end: System)
    requires Reachable(start, clock, s, now) && PcOf(s, c) == Opening(step) && s.lock == Some(c) && s.b.state == Open
    requires step <= 3 && (step > 0 ==> s.b.lastOpenedAt == Some(now))
    ensures Reachable(start, clock, end, now) && OpenedAt(end, s.b.config, now) && AtRest(end, c) && OthersStay(s, end, c)
    decreases 3 - step
  {
    if step == 3 {
      end := GoFailing(start, clock, s, now, Move(c, Continue, now));
    } else {
      var next := OpenFurther(start, clock, s, now, c, step);
      end := OpenUp(start, clock, next, now, c, step + 1);
    }
  }

  lemma OpenFurther(start: System, clock: int, s: System, now: int, c: Caller, step: nat) returns (next: System)
    requires Reachable(start, clock, s, now) && PcOf(s, c) == Opening(step) && s.lock == Some(c) && s.b.state == Open
    requires step < 3 && (step > 0 ==> s.b.lastOpenedAt == Some(now))
    ensures Reachable(start, clock, next, now) && OpenedAt(next, s.b.config, now) && OthersStay(s, next, c)
    ensures PcOf(next, c) == Opening(step + 1) && next.lock == Some(c)
  {
    next := GoFailing(start, clock, s, now, Move(c, Continue, now));
  }

  lemma RequestStarts(start: System, clock: int, s: System, now: int, c: Caller) returns (end: System)
    requires Reachable(start, clock, s, now) && AtRest(s, c) && s.b.state == Closed
    ensures Reachable(start, clock, end, now) && OthersStay(s, end, c) && PcOf(end, c) == Running(false)
    ensures end.lock.None? && end.b == s.b.(totalRequests := s.b.totalRequests + 1)
  {
    var s1 := GoAsking(start, clock, s, now, Move(c, Ask, now));
    end := GoAsking(start, clock, s1, now, Move(c, Continue, now));
  }

  lemma FailureReported(start: System, clock: int, s: System, now: int, c: Caller, probe: bool) returns (end: System)
    requires Reachable(start, clock, s, now) && PcOf(s, c) == Running(probe)
    ensures Reachable(start, clock, end, now) && OthersStay(s, end, c) && PcOf(end, c) == EnterFailure(probe)
    ensures end.b == s.b.(failedRequests := s.b.failedRequests + 1) && end.lock == s.lock
  {
    end := GoReporting(start, clock, s, now, Move(c, Fail, now));
  }

  lemma RequestFails(start: System, clock: int, s: System, now: int, c: Caller) returns (end: System)
    requires Reachable(start, clock, s, now) && s.lock.None? && PcOf(s, c) == Running(false) && s.b.state == Closed
    ensures Reachable(start, clock, end, now) && OthersStay(s, end, c) && end.lock == Some(c) && end.b.state == Closed
    ensures PcOf(end, c) == CountFailure && end.b.config == s.b.config && end.b.consecutiveFailures == s.b.consecutiveFailures
  {
    var s1 := FailureReported(start, clock, s, now, c, false);
    end := GoFailing(start, clock, s1, now, Move(c, Continue, now));
  }

  /** A failure in Closed opens the breaker or counts towards the threshold. */
  lemma FailureCounts(start: System, clock: int, s: System, now: int, c: Caller) returns (end: System)
    requires Reachable(start, clock, s, now) && AtRest(s, c) && s.b.state == Closed
    ensures Reachable(start, clock, end, now) && AtRest(end, c) && OthersStay(s, end, c) && end.b.config == s.b.config
    ensures || OpenedAt(end, s.b.config, now)
            || (end.b.state == Closed
                && end.b.consecutiveFailures == s.b.consecutiveFailures + 1 < AtLeastOne(s.b.config.failureThreshold))
  {
    var s1 := RequestStarts(start, clock, s, now, c);
    var s2 := RequestFails(start, clock, s1, now, c);
    var s3 := FailureIsCounted(start, clock, s2, now, c);
    end := FailureDecides(start, clock, s3, now, c);
  }

  lemma FailureIsCounted(start: System, clock: int, s: System, now: int, c: Caller) returns (end: System)
    requires Reachable(start, clock, s, now) && s.lock == Some(c) && s.b.state == Closed && PcOf(s, c) == CountFailure
    ensures Reachable(start, clock, end, now) && OthersStay(s, end, c) && end.lock == Some(c) && end.b.state == Closed
    ensures PcOf(end, c).LoadFailed? && PcOf(end, c).failures == end.b.consecutiveFailures == s.b.consecutiveFailures + 1
    ensures end.b.config == s.b.config
  {
    var s1 := GoFailing(start, clock, s, now, Move(c, Continue, now));
    end := GoFailing(start, clock, s1, now, Move(c, Continue, now));
  }

  lemma FailureDecides(start: System, clock: int, s: System, now: int, c: Caller) returns (end: System)
    requires Reachable(start, clock, s, now) && s.lock == Some(c) && s.b.state == Closed
    requires PcOf(s, c).LoadFailed? && PcOf(s, c).failures == s.b.consecutiveFailures
    ensures Reachable(start, clock, end, now) && AtRest(end, c) && OthersStay(s, end, c) && end.b.config == s.b.config
    ensures || OpenedAt(end, s.b.config, now)
            || (end.b.state == Closed
                && end.b.consecutiveFailures == s.b.consecutiveFailures < AtLeastOne(s.b.config.failureThreshold))
  {
    end := ThresholdDecides(start, clock, s, now, c);
    if PcOf(end, c) == Opening(0) {
      end := OpenUp(start, clock, end, now, c, 0);
    }
  }

  lemma ThresholdDecides(start: System, clock: int, s: System, now: int, c: Caller) returns (end: System)
    requires Reachable(start, clock, s, now) && s.lock == Some(c) && s.b.state == Closed
    requires PcOf(s, c).LoadFailed? && PcOf(s, c).failures == s.b.consecutiveFailures
    ensures Reachable(start, clock, end, now) && OthersStay(s, end, c) && end.b.config == s.b.config
    ensures || (PcOf(end, c) == Opening(0) && end.lock == Some(c) && end.b.state == Open)
            || (AtRest(end, c) && end.b == s.b && s.b.consecutiveFailures < AtLeastOne(s.b.config.failureThreshold))
  {
    end := GoFailing(start, clock, s, now, Move(c, Continue, now));
  }

  /** Enough failures of one caller open any breaker. */
  lemma {:induction false} FailuresOpen(start: System, clock: int, s: System, now: int, c: Caller) returns (end: System)
    requires Reachable(start, clock, s, now) && AtRest(s, c) && s.b.state == Closed
    ensures Reachable(start, clock, end, now) && AtRest(end, c) && OthersStay(s, end, c) && OpenedAt(end, s.b.config, now)
    decreases if s.b.consecutiveFailures < s.b.config.failureThreshold then s.b.config.failureThreshold - s.b.consecutiveFailures else 0
  {
    end := FailureCounts(start, clock, s, now, c);
    if end.b.state == Closed {
      var next := FailuresOpen(start, clock, end, now, c);
      end := next;
    }
  }

  /** A caller that finds the opening expired gets as far as the door. */
  lemma Approach(start: System, clock: int, s: System, before: int, now: int, at: int, c: Caller) returns (end: System)
    requires Reachable(start, clock, s, before) && before <= now && AtRest(s, c)
    requires s.b.state == Open && s.b.lastOpenedAt == Some(at) && Expired(s.b, at, now)
    ensures Reachable(start, clock, end, now) && end == s.(pcs := s.pcs[c := EnterOpen(at)])
  {
    var s1 := GoAsking(start, clock, s, before, Move(c, Ask, now));
    end := DoorIsFound(start, clock, s1, now, at, c);
  }

  lemma DoorIsFound(start: System, clock: int, s: System, now: int, at: int, c: Caller) returns (end: System)
    requires Reachable(start, clock, s, now) && PcOf(s, c).ReadOpenedAt?
    requires s.b.lastOpenedAt == Some(at) && Expired(s.b, at, now)
    ensures Reachable(start, clock, end, now) && end == s.(pcs := s.pcs[c := EnterOpen(at)])
  {
    var s1 := GoAsking(start, clock, s, now, Move(c, Continue, now));
    end := GoAsking(start, clock, s1, now, Move(c, Continue, now));
  }

  lemma ProbeRuns(start: System, clock: int, s: System, now: int, c: Caller) returns (end: System)
    requires Reachable(start, clock, s, now) && s.b.state == Open && s.lock.None? && PcOf(s, c).EnterOpen?
    ensures Reachable(start, clock, end, now) && OthersStay(s, end, c)
    ensures PcOf(end, c) == Running(true) && end.b.state == HalfOpen && end.lock.None? && end.b.config == s.b.config
  {
    var s1 := DoorOpens(start, clock, s, now, c);
    var s2 := GoAsking(start, clock, s1, now, Move(c, Continue, now));
    end := GoAsking(start, clock, s2, now, Move(c, Continue, now));
  }

  lemma DoorOpens(start: System, clock: int, s: System, now: int, c: Caller) returns (end: System)
    requires Reachable(start, clock, s, now) && s.b.state == Open && s.lock.None? && PcOf(s, c).EnterOpen?
    ensures Reachable(start, clock, end, now) && OthersStay(s, end, c)
    ensures PcOf(end, c) == TakePermitNow && end.b.halfOpenPermits == 1
    ensures end.b.state == HalfOpen && end.lock.None? && end.b.config == s.b.config
  {
    var s1 := GoAsking(start, clock, s, now, Move(c, Continue, now));
    var s2 := GoAsking(start, clock, s1, now, Move(c, Continue, now));
    end := GoAsking(start, clock, s2, now, Move(c, Continue, now));
  }

  lemma ProbeFails(start: System, clock: int, s: System, now: int, c: Caller) returns (end: System)
    requires Reachable(start, clock, s, now) && s.b.state == Open && s.lock.None? && PcOf(s, c).EnterOpen?
    ensures Reachable(start, clock, end, now) && OpenedAt(end, s.b.config, now) && AtRest(end, c) && OthersStay(s, end, c)
  {
    var s1 := ProbeRuns(start, clock, s, now, c);
    var s2 := ProbeReopens(start, clock, s1, now, c);
    end := OpenUp(start, clock, s2, now, c, 0);
  }

  lemma ProbeReopens(start: System, clock: int, s: System, now: int, c: Caller) returns (end: System)
    requires Reachable(start, clock, s, now) && s.lock.None? && PcOf(s, c) == Running(true) && s.b.state == HalfOpen
    ensures Reachable(start, clock, end, now) && OthersStay(s, end, c) && end.lock == Some(c) && end.b.state == Open
    ensures PcOf(end, c) == Opening(0) && end.b.config == s.b.config
  {
    var s1 := FailureReported(start, clock, s, now, c, true);
    end := GoFailing(start, clock, s1, now, Move(c, Continue, now));
  }
}
