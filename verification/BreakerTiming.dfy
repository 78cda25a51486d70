/** When an open breaker is entered: the clock was checked, but against the opening the caller had read. */
module BreakerTiming {
  import opened BreakerInterleaving
  import opened BreakerRuns
  import opened CircuitBreaker
  import opened Wrappers

  /** Whoever is about to enter found the opening it read to be old enough, and no opening is in the future. */
  ghost predicate Checked(s: System, clock: int) {
    && (forall c :: c in s.pcs && s.pcs[c].EnterOpen? ==> Expired(s.b, s.pcs[c].checked, clock))
    && (s.b.lastOpenedAt.Some? ==> s.b.lastOpenedAt.value <= clock)
  }

  lemma StepOfOne(s: System, e: Event)
    requires Enabled(s, e)
    ensures var next := Step(s, e);
            && next.pcs == s.pcs[e.caller := PcOf(next, e.caller)] && next.b.config == s.b.config
            && (next.b.lastOpenedAt == s.b.lastOpenedAt || next.b.lastOpenedAt == Some(e.now))
            && (PcOf(next, e.caller).EnterOpen? ==> Expired(s.b, PcOf(next, e.caller).checked, e.now))
  {
    OpeningIsStamped(s, e);
    DoorComesAfterExpiry(s, e);
  }

  lemma OpeningIsStamped(s: System, e: Event)
    requires Enabled(s, e)
    ensures Step(s, e).b.lastOpenedAt in {s.b.lastOpenedAt, Some(e.now)}
  {
  }

  lemma DoorComesAfterExpiry(s: System, e: Event)
    requires Enabled(s, e)
    ensures var pc := PcOf(Step(s, e), e.caller); pc.EnterOpen? ==> Expired(s.b, pc.checked, e.now)
  {
  }

  lemma StepKeepsChecked(s: System, e: Event, clock: int)
    requires Checked(s, clock) && clock <= e.now && Enabled(s, e)
    ensures Checked(Step(s, e), e.now) && Step(s, e).b.config == s.b.config
  {
    StepOfOne(s, e);
    var next := Step(s, e);
    forall c | c in next.pcs && next.pcs[c].EnterOpen?
      ensures Expired(next.b, next.pcs[c].checked, e.now)
    {
      assert c != e.caller ==> c in s.pcs && s.pcs[c] == next.pcs[c];
    }
  }

  lemma {:induction false} RunKeepsChecked(s: System, clock: int, events: seq<Event>, end: System, now: int)
    requires Checked(s, clock) && Run(s, events, end) && Timely(clock, events, now)
    ensures Checked(end, now) && end.b.config == s.b.config
    decreases events
  {
    if events != [] {
      StepKeepsChecked(s, events[0], clock);
      RunKeepsChecked(Step(s, events[0]), events[0].now, events[1..], end, now);
    }
  }

  /** In every interleaving, a caller that moves the breaker to HalfOpen does so at least the timeout after the opening
      it had read; so the move is early only if the breaker was opened anew since. */
  lemma EntryFollowsTheReadOpening(config: Config, start: int, events: seq<Event>, s: System, clock: int, e: Event)
    requires Run(Start(config), events, s) && Timely(start, events, clock) && clock <= e.now && Enabled(s, e)
    requires PcOf(s, e.caller).EnterOpen? && s.b.state == Open
    ensures Step(s, e).b.state == HalfOpen
    ensures e.now - PcOf(s, e.caller).checked >= config.timeout
    ensures s.b.lastOpenedAt == Some(PcOf(s, e.caller).checked) ==> Expired(s.b, s.b.lastOpenedAt.value, e.now)
  {
    RunKeepsChecked(Start(config), start, events, s, clock);
  }

  // ---- when it can be early -------------------------------------------------------------------------------

  /** This step moves the breaker to HalfOpen before the timeout of its opening is over. */
  predicate EntersEarly(s: System, e: Event) {
    && Enabled(s, e) && s.b.state == Open && Step(s, e).b.state == HalfOpen
    && s.b.lastOpenedAt.Some? && !Expired(s.b, s.b.lastOpenedAt.value, e.now)
  }

  /** Some run of a breaker with this configuration is entered early. */
  ghost predicate CanBeEnteredEarly(config: Config) {
    exists start: int, events: seq<Event>, s: System, clock: int, e: Event ::
      Run(Start(config), events, s) && Timely(start, events, clock) && clock <= e.now && EntersEarly(s, e)
  }

  /** A caller that checked an older opening enters a newer one early: two callers find the first opening expired, the
      probe of one fails, and the other moves the breaker to HalfOpen in the same instant it was opened. */
  lemma StaleCheckEntersEarly(config: Config) returns (s: System, e: Event)
    requires config.timeout > 0
    ensures Reachable(Start(config), 0, s, e.now) && EntersEarly(s, e)
  {
    var start, now := Start(config), config.timeout;
    NoStepYet(start, 0);
    var s0 := FailuresOpen(start, 0, start, 0, 0);
    assert PcOf(s0, 1) == PcOf(start, 1);
    var s1 := Approach(start, 0, s0, 0, now, 0, 0);
    assert PcOf(s1, 1) == PcOf(s0, 1);
    var s2 := Approach(start, 0, s1, now, now, 0, 1);
    s := ProbeFails(start, 0, s2, now, 1);
    assert PcOf(s, 0) == PcOf(s2, 0) == EnterOpen(0);
    e := Move(0, Continue, now);
  }

  /** A breaker can be entered early exactly when it has a timeout at all. */
  lemma EntryCanBeEarlyExactly(config: Config)
    ensures CanBeEnteredEarly(config) <==> config.timeout > 0
  {
    if config.timeout > 0 {
      var s, e := StaleCheckEntersEarly(config);
      var events :| DisciplinedRun(Start(config), events, s) && Timely(0, events, e.now);
      DisciplinedIsRun(Start(config), events, s);
    }
    if CanBeEnteredEarly(config) {
      var start: int, events: seq<Event>, s: System, clock: int, e: Event :|
        Run(Start(config), events, s) && Timely(start, events, clock) && clock <= e.now && EntersEarly(s, e);
      RunKeepsChecked(Start(config), start, events, s, clock);
    }
  }
}
