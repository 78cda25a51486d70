/** The circuit breaker under concurrent callers: every lock section and every atomic access is a step of its own.
    Each caller asks for admission, runs if admitted, and reports at most one outcome. */
module BreakerInterleaving {
  import opened CircuitBreaker
  import opened Wrappers

  type Caller = nat

  /** Where a caller stands between two of its steps. `probe` marks a request admitted by the half-open permit
      while the breaker was HalfOpen. */
  datatype Pc =
    | Idle
    // allow_request
    | CountAdmission
    | ReadOpenedAt
    | CheckClock(openedAt: int)
    | EnterOpen(checked: int)
    | TakeLocked
    | CountLocked
    | ClearSuccesses
    | PublishPermit
    | TakePermitNow
    | CountTaken(probe: bool)
    // the request itself
    | Running(probe: bool)
    // record_success
    | ResetStreak
    | CountSuccess
    | GiveBack
    | EnterClosing
    | Closing(step: nat)
    // record_failure
    | EnterFailure(probe: bool)
    | CountFailure
    | LoadTotal(failures: nat)
    | LoadFailed(failures: nat, total: nat)
    | Opening(step: nat)
    // release_half_open_permit
    | Returning

  /** `expiries` counts the moves from Open to HalfOpen, `admitted` the probes let in, `handedBack` the permits a
      probe gave back, `ended` the HalfOpen periods that are over. */
  datatype System = System(
    b: Breaker,
    lock: Option<Caller>,
    pcs: map<Caller, Pc>,
    expiries: nat,
    admitted: nat,
    handedBack: nat,
    ended: nat)

  datatype Action = Ask | Succeed | Fail | GiveUp | Continue

  /** A caller takes its next step; `now` is the clock if the step reads it. */
  datatype Event = Move(caller: Caller, action: Action, now: int)

  function Start(config: Config): System {
    System(New(config), None, map[], 0, 0, 0, 0)
  }

  function PcOf(s: System, c: Caller): Pc {
    if c in s.pcs then s.pcs[c] else Idle
  }

  predicate NeedsLock(pc: Pc, action: Action) {
    match pc
    case Idle => action == Ask
    case Running(_) => action == Succeed || action == GiveUp
    case EnterOpen(_) => true
    case EnterClosing => true
    case EnterFailure(_) => true
    case _ => false
  }

  predicate HoldsLock(pc: Pc) {
    pc.TakeLocked? || pc.CountLocked? || pc.Closing? || pc.CountFailure? || pc.LoadTotal? || pc.LoadFailed? || pc.Opening?
  }

  /** The action fits where the caller stands. */
  predicate Fits(pc: Pc, action: Action) {
    match pc
    case Idle => action == Ask
    case Running(_) => action == Succeed || action == Fail || action == GiveUp
    case _ => action == Continue
  }

  /** Only the probe reports an outcome, or returns the permit, while the breaker is HalfOpen. */
  predicate Disciplined(s: System, e: Event) {
    match PcOf(s, e.caller)
    case Running(probe) => probe || s.b.state != HalfOpen || e.action == Fail
    case EnterFailure(probe) => probe || s.b.state != HalfOpen
    case _ => true
  }

  predicate Enabled(s: System, e: Event) {
    var pc := PcOf(s, e.caller);
    && Fits(pc, e.action)
    && (NeedsLock(pc, e.action) ==> s.lock.None?)
  }

  function Goto(s: System, c: Caller, b: Breaker, pc: Pc): System {
    s.(b := b, pcs := s.pcs[c := pc])
  }

  /** Only this caller moved, and the configuration is the same. */
  predicate OneMoved(s: System, c: Caller, next: System) {
    next.pcs == s.pcs[c := PcOf(next, c)] && next.b.config == s.b.config
  }

  // allow_request
  predicate Admitting(pc: Pc) {
    || pc.Idle? || pc.CountAdmission? || pc.ReadOpenedAt? || pc.CheckClock? || pc.EnterOpen? || pc.TakeLocked?
    || pc.CountLocked? || pc.ClearSuccesses? || pc.PublishPermit? || pc.TakePermitNow? || pc.CountTaken?
  }

  function AdmissionStep(s: System, e: Event): (next: System)
    requires Enabled(s, e) && Admitting(PcOf(s, e.caller))
    ensures OneMoved(s, e.caller, next)
  {
    var c, b := e.caller, s.b;
    match PcOf(s, c)
    case Idle =>
      (match b.state
       case Closed => Goto(s, c, b, CountAdmission)
       case Open => Goto(s, c, b, ReadOpenedAt)
       case HalfOpen => Goto(s, c, b, TakePermitNow))
    case CountAdmission => Goto(s, c, b.(totalRequests := b.totalRequests + 1), Running(false))
    case ReadOpenedAt => Goto(s, c, b, if b.lastOpenedAt.None? then Idle else CheckClock(b.lastOpenedAt.value))
    case CheckClock(at) => Goto(s, c, b, if Expired(b, at, e.now) then EnterOpen(at) else Idle)
    case EnterOpen(_) =>
      (match b.state
       case Open => Goto(s, c, b.(state := HalfOpen), ClearSuccesses).(expiries := s.expiries + 1)
       case HalfOpen => Goto(s, c, b, TakeLocked).(lock := Some(c))
       case Closed => Goto(s, c, b, Idle))
    case TakeLocked =>
      if b.halfOpenPermits == 1
      then Goto(s, c, b.(halfOpenPermits := 0), CountLocked).(admitted := s.admitted + 1)
      else Goto(s, c, b, Idle).(lock := None)
    case CountLocked => Goto(s, c, b.(totalRequests := b.totalRequests + 1), Running(true)).(lock := None)
    case ClearSuccesses => Goto(s, c, b.(consecutiveSuccesses := 0), PublishPermit)
    case PublishPermit => Goto(s, c, b.(halfOpenPermits := 1), TakePermitNow)
    case TakePermitNow =>
      if b.halfOpenPermits == 1 then
        var probe := b.state == HalfOpen;
        Goto(s, c, b.(halfOpenPermits := 0), CountTaken(probe)).(admitted := s.admitted + if probe then 1 else 0)
      else
        Goto(s, c, b, Idle)
    case CountTaken(probe) => Goto(s, c, b.(totalRequests := b.totalRequests + 1), Running(probe))
  }

  // the request, record_success and release_half_open_permit
  predicate Succeeding(pc: Pc) {
    pc.Running? || pc.ResetStreak? || pc.CountSuccess? || pc.GiveBack? || pc.EnterClosing? || pc.Closing? || pc.Returning?
  }

  function SuccessStep(s: System, e: Event): (next: System)
    requires Enabled(s, e) && Succeeding(PcOf(s, e.caller))
    ensures OneMoved(s, e.caller, next)
  {
    var c, b := e.caller, s.b;
    match PcOf(s, c)
    case Running(probe) =>
      (match e.action
       case Succeed =>
         Goto(s, c, b, if b.state == Closed then ResetStreak else if b.state == HalfOpen then CountSuccess else Idle)
       case Fail => Goto(s, c, b.(failedRequests := b.failedRequests + 1), EnterFailure(probe))
       case _ => Goto(s, c, b, if b.state == HalfOpen then Returning else Running(probe)))
    case ResetStreak => Goto(s, c, b.(consecutiveFailures := 0), Idle)
    case CountSuccess =>
      var successes := b.consecutiveSuccesses + 1;
      Goto(s, c, b.(consecutiveSuccesses := successes),
           if successes >= AtLeastOne(b.config.successThreshold) then EnterClosing else GiveBack)
    case GiveBack => Goto(s, c, b.(halfOpenPermits := 1), Idle).(handedBack := s.handedBack + 1)
    case EnterClosing =>
      if b.state == HalfOpen
      then Goto(s, c, b.(state := Closed), Closing(0)).(lock := Some(c), ended := s.ended + 1)
      else Goto(s, c, b, Idle)
    case Closing(step) =>
      if step == 0 then Goto(s, c, b.(consecutiveSuccesses := 0), Closing(1))
      else if step == 1 then Goto(s, c, b.(consecutiveFailures := 0), Closing(2))
      else if step == 2 then Goto(s, c, b.(halfOpenPermits := 1), Closing(3))
      else if step == 3 then Goto(s, c, b.(totalRequests := 0), Closing(4))
      else Goto(s, c, b.(failedRequests := 0), Idle).(lock := None)
    case Returning => Goto(s, c, b.(halfOpenPermits := 1), Running(false)).(handedBack := s.handedBack + 1)
  }

  // record_failure
  function FailureStep(s: System, e: Event): (next: System)
    requires Enabled(s, e) && !Admitting(PcOf(s, e.caller)) && !Succeeding(PcOf(s, e.caller))
    ensures OneMoved(s, e.caller, next)
  {
    var c, b := e.caller, s.b;
    match PcOf(s, c)
    case EnterFailure(_) =>
      (match b.state
       case Closed => Goto(s, c, b, CountFailure).(lock := Some(c))
       case HalfOpen => Goto(s, c, b.(state := Open), Opening(0)).(lock := Some(c), ended := s.ended + 1)
       case Open => Goto(s, c, b, Idle))
    case CountFailure =>
      Goto(s, c, b.(consecutiveFailures := b.consecutiveFailures + 1), LoadTotal(b.consecutiveFailures + 1))
    case LoadTotal(failures) => Goto(s, c, b, LoadFailed(failures, b.totalRequests))
    case LoadFailed(failures, total) =>
      if failures >= AtLeastOne(b.config.failureThreshold) || ErrorRateHit(b.config, total, b.failedRequests)
      then Goto(s, c, b.(state := Open), Opening(0))
      else Goto(s, c, b, Idle).(lock := None)
    case Opening(step) =>
      if step == 0 then Goto(s, c, b.(lastOpenedAt := Some(e.now)), Opening(1))
      else if step == 1 then Goto(s, c, b.(consecutiveFailures := 0), Opening(2))
      else if step == 2 then Goto(s, c, b.(consecutiveSuccesses := 0), Opening(3))
      else Goto(s, c, b.(halfOpenPermits := 0), Idle).(lock := None)
  }

  function Step(s: System, e: Event): (next: System)
    requires Enabled(s, e)
    ensures OneMoved(s, e.caller, next)
  {
    if Admitting(PcOf(s, e.caller)) then AdmissionStep(s, e)
    else if Succeeding(PcOf(s, e.caller)) then SuccessStep(s, e)
    else FailureStep(s, e)
  }

  ghost predicate Run(s: System, events: seq<Event>, end: System)
    decreases events
  {
    if events == [] then s == end
    else Enabled(s, events[0]) && Run(Step(s, events[0]), events[1..], end)
  }

  /** A run in which every outcome in HalfOpen is the probe's own. */
  ghost predicate DisciplinedRun(s: System, events: seq<Event>, end: System)
    decreases events
  {
    if events == [] then s == end
    else Enabled(s, events[0]) && Disciplined(s, events[0]) && DisciplinedRun(Step(s, events[0]), events[1..], end)
  }

  // ---- the half-open token --------------------------------------------------------------------------------

  /** Entered HalfOpen, permit not yet published. */
  predicate Publishing(pc: Pc) {
    pc.ClearSuccesses? || pc.PublishPermit?
  }

  /** Admitted as a probe, outcome not yet in effect and permit not yet returned. */
  predicate Unsettled(pc: Pc) {
    || pc.CountLocked? || pc.CountSuccess? || pc.GiveBack? || pc.EnterClosing? || pc.Returning?
    || ((pc.CountTaken? || pc.Running? || pc.EnterFailure?) && pc.probe)
  }

  ghost function Publishers(s: System): set<Caller> {
    set c | c in s.pcs && Publishing(s.pcs[c])
  }

  ghost function Probes(s: System): set<Caller> {
    set c | c in s.pcs && Unsettled(s.pcs[c])
  }

  /** What a caller inside a lock section knows about the state. */
  predicate Agrees(pc: Pc, state: CircuitState) {
    && (pc.TakeLocked? || pc.CountLocked? ==> state == HalfOpen)
    && (pc.Closing? || pc.CountFailure? || pc.LoadTotal? || pc.LoadFailed? ==> state == Closed)
    && (pc.Opening? ==> state == Open)
  }

  ghost predicate LockAgrees(s: System) {
    && (forall c :: c in s.pcs && HoldsLock(s.pcs[c]) ==> s.lock == Some(c) && Agrees(s.pcs[c], s.b.state))
    && (s.lock.Some? ==> s.lock.value in s.pcs && HoldsLock(s.pcs[s.lock.value]))
  }

  ghost predicate TokenKept(s: System)
    requires LockAgrees(s)
  {
    && s.b.halfOpenPermits <= 1
    && (s.b.state == Open && (s.lock.None? || !s.pcs[s.lock.value].Opening?) ==> s.b.halfOpenPermits == 0)
    // one token: it is being published, lies ready as the permit, or is held by a probe
    && |Publishers(s)| + |Probes(s)| + (if s.b.state == HalfOpen then s.b.halfOpenPermits else 0)
       == (if s.b.state == HalfOpen then 1 else 0)
    && s.expiries == s.ended + (if s.b.state == HalfOpen then 1 else 0)
    && s.admitted == s.handedBack + s.ended + |Probes(s)|
  }

  ghost predicate Invariant(s: System) {
    LockAgrees(s) && TokenKept(s)
  }

  lemma StartInvariant(config: Config)
    ensures Invariant(Start(config))
  {
    assert Publishers(Start(config)) == {} && Probes(Start(config)) == {};
  }

  lemma CountAfter(before: set<Caller>, after: set<Caller>, c: Caller)
    requires after - {c} == before - {c}
    ensures |after| - (if c in after then 1 else 0) == |before| - (if c in before then 1 else 0)
  {
    assert c in after ==> after == (after - {c}) + {c};
    assert c in before ==> before == (before - {c}) + {c};
    assert c !in after ==> after == after - {c};
    assert c !in before ==> before == before - {c};
  }

  /** A step moves one caller, so the two counts change by what that caller was and becomes. */
  lemma CountsAfterStep(s: System, e: Event)
    requires Enabled(s, e)
    ensures var c, next := e.caller, Step(s, e);
            && next.pcs == s.pcs[c := PcOf(next, c)]
            && |Publishers(next)| == |Publishers(s)| + (if Publishing(PcOf(next, c)) then 1 else 0) - (if Publishing(PcOf(s, c)) then 1 else 0)
            && |Probes(next)| == |Probes(s)| + (if Unsettled(PcOf(next, c)) then 1 else 0) - (if Unsettled(PcOf(s, c)) then 1 else 0)
  {
    var c, next := e.caller, Step(s, e);
    CountAfter(Publishers(s), Publishers(next), c);
    CountAfter(Probes(s), Probes(next), c);
  }

  /** Whoever is inside a lock section holds the lock and sees the state it expects. */
  lemma LockStep(s: System, e: Event)
    requires LockAgrees(s) && Enabled(s, e)
    ensures LockAgrees(Step(s, e))
  {
    MoverAgrees(s, e);
  }

  /** A step inside a lock section keeps the lock or gives it up, and a section is entered only when the lock is free. */
  lemma MoverAgrees(s: System, e: Event)
    requires LockAgrees(s) && Enabled(s, e)
    ensures var c, next := e.caller, Step(s, e);
            && next.pcs == s.pcs[c := PcOf(next, c)]
            && (HoldsLock(next.pcs[c]) ==> next.lock == Some(c) && Agrees(next.pcs[c], next.b.state))
            && (!HoldsLock(next.pcs[c]) ==> next.lock == if s.lock == Some(c) then None else s.lock)
  {
    var pc := PcOf(s, e.caller);
    assert s.lock == Some(e.caller) ==> HoldsLock(pc);
    assert HoldsLock(pc) ==> s.lock == Some(e.caller) && Agrees(pc, s.b.state);
    if !Admitting(pc) {
      ReportingMover(s, e);
    }
  }

  ghost predicate LockIsMine(s: System, c: Caller) {
    && (HoldsLock(PcOf(s, c)) ==> s.lock == Some(c) && Agrees(PcOf(s, c), s.b.state))
    && (s.lock == Some(c) ==> HoldsLock(PcOf(s, c)))
  }

  lemma ReportingMover(s: System, e: Event)
    requires Enabled(s, e) && LockIsMine(s, e.caller) && !Admitting(PcOf(s, e.caller))
    ensures var c, next := e.caller, Step(s, e);
            && next.pcs == s.pcs[c := PcOf(next, c)]
            && (HoldsLock(next.pcs[c]) ==> next.lock == Some(c) && Agrees(next.pcs[c], next.b.state))
            && (!HoldsLock(next.pcs[c]) ==> next.lock == if s.lock == Some(c) then None else s.lock)
  {
  }

  lemma ProbesCounted(s: System, c: Caller)
    ensures c in s.pcs && Unsettled(s.pcs[c]) ==> |Probes(s)| >= 1
    ensures c in s.pcs && Publishing(s.pcs[c]) ==> |Publishers(s)| >= 1
  {
    if c in s.pcs && Unsettled(s.pcs[c]) {
      assert c in Probes(s);
    }
    if c in s.pcs && Publishing(s.pcs[c]) {
      assert c in Publishers(s);
    }
  }

  lemma AdmissionKeepsToken(s: System, e: Event)
    requires Invariant(s) && Enabled(s, e) && Disciplined(s, e) && Admitting(PcOf(s, e.caller)) && LockAgrees(Step(s, e))
    ensures TokenKept(Step(s, e))
  {
    CountsAfterStep(s, e);
    ProbesCounted(s, e.caller);
  }

  /** The steps of a report that hand the permit back or close the breaker. */
  predicate Settling(pc: Pc) {
    pc.GiveBack? || pc.EnterClosing? || pc.Closing? || pc.Returning?
  }

  lemma SettlingKeepsToken(s: System, e: Event)
    requires Invariant(s) && Enabled(s, e) && Settling(PcOf(s, e.caller)) && LockAgrees(Step(s, e))
    ensures TokenKept(Step(s, e))
  {
    CountsAfterStep(s, e);
    ProbesCounted(s, e.caller);
  }

  lemma ReportKeepsToken(s: System, e: Event)
    requires Invariant(s) && Enabled(s, e) && Disciplined(s, e) && LockAgrees(Step(s, e))
    requires Succeeding(PcOf(s, e.caller)) && !Settling(PcOf(s, e.caller))
    ensures TokenKept(Step(s, e))
  {
    CountsAfterStep(s, e);
    ProbesCounted(s, e.caller);
  }

  lemma FailureKeepsToken(s: System, e: Event)
    requires Invariant(s) && Enabled(s, e) && Disciplined(s, e) && LockAgrees(Step(s, e))
    requires !Admitting(PcOf(s, e.caller)) && !Succeeding(PcOf(s, e.caller))
    ensures TokenKept(Step(s, e))
  {
    CountsAfterStep(s, e);
    ProbesCounted(s, e.caller);
  }

  lemma StepKeeps(s: System, e: Event)
    requires Invariant(s) && Enabled(s, e) && Disciplined(s, e)
    ensures Invariant(Step(s, e))
  {
    LockStep(s, e);
    if Admitting(PcOf(s, e.caller)) {
      AdmissionKeepsToken(s, e);
    } else if Succeeding(PcOf(s, e.caller)) {
      if Settling(PcOf(s, e.caller)) { SettlingKeepsToken(s, e); } else { ReportKeepsToken(s, e); }
    } else {
      FailureKeepsToken(s, e);
    }
  }

  lemma {:induction false} RunKeeps(s: System, events: seq<Event>, end: System)
    requires Invariant(s) && DisciplinedRun(s, events, end)
    ensures Invariant(end)
    decreases events
  {
    if events != [] {
      StepKeeps(s, events[0]);
      RunKeeps(Step(s, events[0]), events[1..], end);
    }
  }

  /** In every interleaving at most one probe is admitted and unsettled, and only while the breaker is HalfOpen. */
  lemma OneProbeAtATime(config: Config, events: seq<Event>, s: System)
    requires DisciplinedRun(Start(config), events, s)
    ensures |Probes(s)| <= 1
    ensures s.b.state != HalfOpen ==> Probes(s) == {}
    ensures forall c, d :: c in Probes(s) && d in Probes(s) ==> c == d
    ensures |Probes(s)| == 1 ==> s.b.halfOpenPermits == 0
  {
    StartInvariant(config);
    RunKeeps(Start(config), events, s);
    forall c, d | c in Probes(s) && d in Probes(s)
      ensures c == d
    {
      if c != d {
        assert {c, d} <= Probes(s);
        Subset({c, d}, Probes(s));
      }
    }
  }

  lemma Subset(a: set<Caller>, b: set<Caller>)
    requires a <= b
    ensures |a| <= |b|
    decreases a
  {
    if a != {} {
      var c :| c in a;
      Subset(a - {c}, b - {c});
    }
  }

  /** Every expiry hands out one permit: a further probe needs another expiry or a permit handed back. */
  lemma OnePermitPerExpiry(config: Config, events: seq<Event>, s: System)
    requires DisciplinedRun(Start(config), events, s)
    ensures s.ended <= s.expiries <= s.ended + 1
    ensures s.admitted <= s.expiries + s.handedBack
    ensures s.admitted == s.handedBack + s.ended + |Probes(s)|
  {
    StartInvariant(config);
    RunKeeps(Start(config), events, s);
  }

  // ---- one caller alone ------------------------------------------------------------------------------

  /** The caller runs by itself until it is idle or running. */
  ghost predicate Alone(s: System, c: Caller, now: int, steps: nat, end: System)
    decreases steps
  {
    var pc := PcOf(s, c);
    if steps == 0 then s == end
    else
      var e := Move(c, if pc.Idle? then Ask else Continue, now);
      Enabled(s, e) && Alone(Step(s, e), c, now, steps - 1, end)
  }

  /** Where an admission ends up: the caller runs exactly when it was let in. */
  ghost predicate Settled(end: System, c: Caller, outcome: (Breaker, bool)) {
    && end.b == outcome.0 && end.lock.None?
    && if outcome.1 then PcOf(end, c).Running? else PcOf(end, c).Idle?
  }

  /** Without interference the steps of an admission amount to the method of the sequential breaker. */
  lemma AdmissionAlone(s: System, c: Caller, now: int) returns (steps: nat, end: System)
    requires s.lock.None? && PcOf(s, c).Idle?
    ensures Alone(s, c, now, steps, end) && Settled(end, c, AllowRequest(s.b, now))
  {
    var s1 := Step(s, Move(c, Ask, now));
    match s.b.state {
      case Closed =>
        end := Step(s1, Move(c, Continue, now));
        assert Alone(end, c, now, 0, end);
        assert Alone(s1, c, now, 1, end);
        steps := 2;
      case HalfOpen =>
        steps, end := TakeAlone(s1, c, now);
        steps := steps + 1;
      case Open =>
        steps, end := OpenAlone(s1, c, now);
        steps := steps + 1;
    }
  }

  lemma OpenAlone(s: System, c: Caller, now: int) returns (steps: nat, end: System)
    requires s.lock.None? && PcOf(s, c).ReadOpenedAt? && s.b.state == Open
    ensures Alone(s, c, now, steps, end) && Settled(end, c, AllowRequest(s.b, now))
  {
    var s1 := Step(s, Move(c, Continue, now));
    if s.b.lastOpenedAt.None? {
      end := s1;
      assert Alone(end, c, now, 0, end);
      steps := 1;
    } else {
      var s2 := Step(s1, Move(c, Continue, now));
      if Expired(s.b, s.b.lastOpenedAt.value, now) {
        steps, end := EnterAlone(s2, c, now);
      } else {
        steps, end := 0, s2;
        assert Alone(end, c, now, 0, end);
      }
      assert Alone(s1, c, now, steps + 1, end);
      steps := steps + 2;
    }
  }

  lemma EnterAlone(s: System, c: Caller, now: int) returns (steps: nat, end: System)
    requires s.lock.None? && PcOf(s, c).EnterOpen? && s.b.state == Open
    ensures Alone(s, c, now, steps, end)
    ensures Settled(end, c, TakePermit(s.b.(state := HalfOpen, consecutiveSuccesses := 0, halfOpenPermits := 1)))
  {
    var s1 := Step(s, Move(c, Continue, now));
    var s2 := Step(s1, Move(c, Continue, now));
    var s3 := Step(s2, Move(c, Continue, now));
    steps, end := TakeAlone(s3, c, now);
    assert Alone(s2, c, now, steps + 1, end);
    assert Alone(s1, c, now, steps + 2, end);
    steps := steps + 3;
  }

  lemma TakeAlone(s: System, c: Caller, now: int) returns (steps: nat, end: System)
    requires s.lock.None? && PcOf(s, c).TakePermitNow?
    ensures Alone(s, c, now, steps, end) && Settled(end, c, TakePermit(s.b))
  {
    var s1 := Step(s, Move(c, Continue, now));
    if s.b.halfOpenPermits == 1 {
      end := Step(s1, Move(c, Continue, now));
      assert Alone(end, c, now, 0, end);
      assert Alone(s1, c, now, 1, end);
      steps := 2;
    } else {
      end := s1;
      assert Alone(end, c, now, 0, end);
      steps := 1;
    }
  }
}
