/** Why outcomes in HalfOpen have to be the probe's own: one report of an older request is enough for a second probe. */
module BreakerDiscipline {
  import opened BreakerInterleaving
  import opened BreakerRuns
  import opened CircuitBreaker
  import opened Wrappers

  /** What a request admitted before can report too late. */
  datatype Slip = LateSuccess | LateFailure | LateReturn

  predicate IsSlip(s: System, e: Event, slip: Slip) {
    && Enabled(s, e) && s.b.state == HalfOpen
    && match slip
       case LateSuccess => PcOf(s, e.caller) == Running(false) && e.action == Succeed
       case LateFailure => PcOf(s, e.caller) == EnterFailure(false)
       case LateReturn => PcOf(s, e.caller) == Running(false) && e.action == GiveUp
  }

  /** These are the only ways to break the discipline. */
  lemma SlipsAreUndisciplined(s: System, e: Event)
    requires Enabled(s, e)
    ensures !Disciplined(s, e) <==> IsSlip(s, e, LateSuccess) || IsSlip(s, e, LateFailure) || IsSlip(s, e, LateReturn)
  {
  }

  ghost predicate TwoProbes(s: System) {
    exists c, d :: c != d && c in Probes(s) && d in Probes(s)
  }

  /** A run that is disciplined but for one such report ends with two probes let in and not settled. */
  ghost predicate OneSlipAway(config: Config, slip: Slip) {
    exists mid: System, clock: int, e: Event, end: System, now: int ::
      && Reachable(Start(config), 0, mid, clock) && clock <= e.now && IsSlip(mid, e, slip)
      && Reachable(Step(mid, e), e.now, end, now) && TwoProbes(end)
  }

  /** Caller 0 still runs a request from before the opening, caller 2 is the probe, everybody else is idle. */
  predicate ProbeWithOldRequest(s: System, config: Config) {
    && s.b.state == HalfOpen && s.b.config == config && s.lock.None?
    && PcOf(s, 0) == Running(false) && PcOf(s, 1).Idle? && PcOf(s, 2) == Running(true) && PcOf(s, 3).Idle?
  }

  lemma ReachProbeWithOldRequest(config: Config) returns (s: System)
    ensures Reachable(Start(config), 0, s, config.timeout) && ProbeWithOldRequest(s, config)
  {
    var start := Start(config);
    NoStepYet(start, 0);
    var s1 := RequestStarts(start, 0, start, 0, 0);
    assert PcOf(s1, 1).Idle? && PcOf(s1, 2).Idle? && PcOf(s1, 3).Idle?;
    var s2 := FailuresOpen(start, 0, s1, 0, 1);
    assert PcOf(s2, 0) == Running(false) && PcOf(s2, 2).Idle? && PcOf(s2, 3).Idle?;
    var s3 := Approach(start, 0, s2, 0, config.timeout, 0, 2);
    assert PcOf(s3, 0) == Running(false) && PcOf(s3, 1).Idle? && PcOf(s3, 3).Idle?;
    s := ProbeRuns(start, 0, s3, config.timeout, 2);
  }

  lemma BothProbe(s: System, c: Caller, d: Caller)
    requires c != d && PcOf(s, c) == Running(true) && PcOf(s, d) == Running(true)
    ensures TwoProbes(s)
  {
    assert c in Probes(s) && d in Probes(s);
  }

  /** With the permit back while the first probe runs, the next caller is let in. */
  lemma PermitAdmitsAnother(start: System, clock: int, s: System, now: int) returns (end: System)
    requires Reachable(start, clock, s, now) && s.b.state == HalfOpen && s.b.halfOpenPermits == 1 && AtRest(s, 3)
    requires PcOf(s, 2) == Running(true)
    ensures Reachable(start, clock, end, now) && TwoProbes(end)
  {
    var s1 := GoAsking(start, clock, s, now, Move(3, Ask, now));
    var s2 := GoAsking(start, clock, s1, now, Move(3, Continue, now));
    end := GoAsking(start, clock, s2, now, Move(3, Continue, now));
    BothProbe(end, 2, 3);
  }

  /** With the breaker open again while the first probe runs, the next expiry lets another in. */
  lemma ExpiryAdmitsAnother(start: System, clock: int, s: System, at: int, config: Config) returns (end: System, now: int)
    requires Reachable(start, clock, s, at) && OpenedAt(s, config, at) && AtRest(s, 3) && PcOf(s, 2) == Running(true)
    ensures Reachable(start, clock, end, now) && TwoProbes(end)
  {
    now := at + config.timeout;
    var s1 := Approach(start, clock, s, at, now, at, 3);
    assert PcOf(s1, 2) == Running(true);
    end := ProbeRuns(start, clock, s1, now, 3);
    BothProbe(end, 2, 3);
  }

  lemma LateReturnAdmits(config: Config)
    ensures OneSlipAway(config, LateReturn)
  {
    var mid := ReachProbeWithOldRequest(config);
    var now := config.timeout;
    var e := Move(0, GiveUp, now);
    var s := Step(mid, e);
    NoStepYet(s, now);
    var s1 := GoReporting(s, now, s, now, Move(0, Continue, now));
    var end := PermitAdmitsAnother(s, now, s1, now);
    assert IsSlip(mid, e, LateReturn);
  }

  lemma LateFailureAdmits(config: Config)
    ensures OneSlipAway(config, LateFailure)
  {
    var mid, e := LateFailureReported(config);
    var end, later := LateOpeningAdmits(mid, e, config);
    assert IsSlip(mid, e, LateFailure);
  }

  lemma LateFailureReported(config: Config) returns (mid: System, e: Event)
    ensures Reachable(Start(config), 0, mid, e.now) && e == Move(0, Continue, config.timeout)
    ensures PcOf(mid, 0) == EnterFailure(false) && mid.lock.None? && mid.b.state == HalfOpen && mid.b.config == config
    ensures PcOf(mid, 2) == Running(true) && PcOf(mid, 3).Idle?
  {
    var s := ReachProbeWithOldRequest(config);
    mid := FailureReported(Start(config), 0, s, config.timeout, 0, false);
    e := Move(0, Continue, config.timeout);
  }

  lemma LateOpeningAdmits(mid: System, e: Event, config: Config) returns (end: System, now: int)
    requires e.caller == 0 && e.action == Continue && PcOf(mid, 0) == EnterFailure(false) && mid.lock.None?
    requires mid.b.state == HalfOpen && mid.b.config == config && PcOf(mid, 2) == Running(true) && PcOf(mid, 3).Idle?
    ensures Reachable(Step(mid, e), e.now, end, now) && TwoProbes(end)
  {
    var s := Step(mid, e);
    NoStepYet(s, e.now);
    var s1 := OpenUp(s, e.now, s, e.now, 0, 0);
    assert PcOf(s1, 2) == Running(true) && PcOf(s1, 3).Idle?;
    end, now := ExpiryAdmitsAnother(s, e.now, s1, e.now, config);
  }

  /** Closing takes its steps inside the lock and then leaves it. */
  lemma {:induction false} ClosingEnds(start: System, clock: int, s: System, now: int, c: Caller, step: nat) returns (end: System)
    requires Reachable(start, clock, s, now) && PcOf(s, c) == Closing(step) && step <= 4 && s.lock == Some(c) && s.b.state == Closed
    ensures Reachable(start, clock, end, now) && AtRest(end, c) && OthersStay(s, end, c)
    ensures end.b.state == Closed && end.b.config == s.b.config
    decreases 4 - step
  {
    if step == 4 {
      end := GoReporting(start, clock, s, now, Move(c, Continue, now));
    } else {
      var next := CloseFurther(start, clock, s, now, c, step);
      end := ClosingEnds(start, clock, next, now, c, step + 1);
    }
  }

  lemma CloseFurther(start: System, clock: int, s: System, now: int, c: Caller, step: nat) returns (next: System)
    requires Reachable(start, clock, s, now) && PcOf(s, c) == Closing(step) && step < 4
    ensures Reachable(start, clock, next, now) && OthersStay(s, next, c) && PcOf(next, c) == Closing(step + 1)
    ensures next.lock == s.lock && next.b.state == s.b.state && next.b.config == s.b.config
  {
    next := GoReporting(start, clock, s, now, Move(c, Continue, now));
  }

  /** After the late success the permit is back, or the breaker has closed under the running probe. */
  lemma LateSuccessAdmits(config: Config)
    ensures OneSlipAway(config, LateSuccess)
  {
    var now := config.timeout;
    var mid := ReachProbeWithOldRequest(config);
    var e := Move(0, Succeed, now);
    var s := LateSuccessReported(mid, e);
    NoStepYet(s, now);
    var s1 := SuccessTakesEffect(s, now, s, now);
    if PcOf(s1, 0) == Closing(0) {
      var end, later := ClosingAdmitsAnother(s, now, s1, now, config);
    } else {
      var end := PermitAdmitsAnother(s, now, s1, now);
    }
  }

  lemma LateSuccessReported(mid: System, e: Event) returns (s: System)
    requires PcOf(mid, e.caller) == Running(false) && e.action == Succeed && mid.lock.None? && mid.b.state == HalfOpen
    ensures IsSlip(mid, e, LateSuccess) && s == Step(mid, e) && OthersStay(mid, s, e.caller)
    ensures PcOf(s, e.caller) == CountSuccess && s.lock.None? && s.b == mid.b
  {
    s := Step(mid, e);
  }

  lemma SuccessTakesEffect(start: System, clock: int, s: System, now: int) returns (end: System)
    requires Reachable(start, clock, s, now) && s.lock.None? && PcOf(s, 0) == CountSuccess && s.b.state == HalfOpen
    ensures Reachable(start, clock, end, now) && OthersStay(s, end, 0) && end.b.config == s.b.config
    ensures || (PcOf(end, 0) == Closing(0) && end.lock == Some(0) && end.b.state == Closed)
            || (PcOf(end, 0).Idle? && end.lock.None? && end.b.state == HalfOpen && end.b.halfOpenPermits == 1)
  {
    var s1 := GoReporting(start, clock, s, now, Move(0, Continue, now));
    end := GoReporting(start, clock, s1, now, Move(0, Continue, now));
  }

  lemma ClosingAdmitsAnother(start: System, clock: int, s: System, at: int, config: Config) returns (end: System, now: int)
    requires Reachable(start, clock, s, at) && PcOf(s, 0) == Closing(0) && s.lock == Some(0) && s.b.state == Closed
    requires s.b.config == config && PcOf(s, 1).Idle? && PcOf(s, 2) == Running(true) && PcOf(s, 3).Idle?
    ensures Reachable(start, clock, end, now) && TwoProbes(end)
  {
    var s1 := ClosingEnds(start, clock, s, at, 0, 0);
    assert PcOf(s1, 1).Idle? && PcOf(s1, 2) == Running(true) && PcOf(s1, 3).Idle?;
    var s2 := FailuresOpen(start, clock, s1, at, 1);
    assert PcOf(s2, 2) == Running(true) && PcOf(s2, 3).Idle?;
    end, now := ExpiryAdmitsAnother(start, clock, s2, at, config);
  }

  /** For every configuration and every kind of late report: one is enough for two probes at a time. */
  lemma OneSlipAdmitsSecondProbe(config: Config, slip: Slip)
    ensures OneSlipAway(config, slip)
  {
    match slip {
      case LateSuccess => LateSuccessAdmits(config);
      case LateFailure => LateFailureAdmits(config);
      case LateReturn => LateReturnAdmits(config);
    }
  }
}
