/** The three-state circuit breaker, one method at a time.
    Times are in nanoseconds. Error rates are compared as exact rationals; the lifetime counters do not wrap. */
module CircuitBreaker {
  import opened Wrappers

  datatype CircuitState = Closed | Open | HalfOpen

  datatype Config = Config(
    failureThreshold: nat,
    successThreshold: nat,
    timeout: nat,
    errorRateThreshold: real,
    minRequests: nat)

  datatype Breaker = Breaker(
    state: CircuitState,
    config: Config,
    consecutiveFailures: nat,
    consecutiveSuccesses: nat,
    totalRequests: nat,
    failedRequests: nat,
    lastOpenedAt: Option<int>,
    halfOpenPermits: nat)

  function New(config: Config): Breaker {
    Breaker(Closed, config, 0, 0, 0, 0, None, 1)
  }

  function AtLeastOne(threshold: nat): (n: nat)
    ensures n >= 1 && n >= threshold && (n == 1 || n == threshold)
  {
    if threshold == 0 then 1 else threshold
  }

  predicate Expired(b: Breaker, openedAt: int, now: int) {
    now - openedAt >= b.config.timeout
  }

  function TakePermit(b: Breaker): (Breaker, bool) {
    if b.halfOpenPermits == 1 then
      (b.(halfOpenPermits := 0, totalRequests := b.totalRequests + 1), true)
    else
      (b, false)
  }

  function AllowRequest(b: Breaker, now: int): (Breaker, bool) {
    match b.state
    case Closed => (b.(totalRequests := b.totalRequests + 1), true)
    case Open =>
      if b.lastOpenedAt.None? || !Expired(b, b.lastOpenedAt.value, now) then (b, false)
      else TakePermit(b.(state := HalfOpen, consecutiveSuccesses := 0, halfOpenPermits := 1))
    case HalfOpen => TakePermit(b)
  }

  function Close(b: Breaker): Breaker {
    b.(state := Closed, consecutiveSuccesses := 0, consecutiveFailures := 0, halfOpenPermits := 1,
       totalRequests := 0, failedRequests := 0)
  }

  function RecordSuccess(b: Breaker): Breaker {
    match b.state
    case Closed => b.(consecutiveFailures := 0)
    case HalfOpen =>
      var successes := b.consecutiveSuccesses + 1;
      if successes >= AtLeastOne(b.config.successThreshold) then Close(b)
      else b.(consecutiveSuccesses := successes, halfOpenPermits := 1)
    case Open => b
  }

  /** With no request counted the rate is infinite. */
  predicate ErrorRateHit(config: Config, total: nat, failed: nat) {
    total >= config.minRequests && (total == 0 || failed as real >= config.errorRateThreshold * total as real)
  }

  function OpenLocked(b: Breaker, now: int): Breaker {
    b.(state := Open, lastOpenedAt := Some(now), consecutiveFailures := 0, consecutiveSuccesses := 0, halfOpenPermits := 0)
  }

  function RecordFailure(b0: Breaker, now: int): Breaker {
    var b := b0.(failedRequests := b0.failedRequests + 1);
    match b.state
    case Closed =>
      var next := b.(consecutiveFailures := b.consecutiveFailures + 1);
      if next.consecutiveFailures >= AtLeastOne(b.config.failureThreshold)
         || ErrorRateHit(b.config, b.totalRequests, b.failedRequests)
      then OpenLocked(next, now) else next
    case HalfOpen => OpenLocked(b, now)
    case Open => b
  }

  function ReleasePermit(b: Breaker): Breaker {
    if b.state == HalfOpen then b.(halfOpenPermits := 1) else b
  }

  /** The breaker object. */
  class CircuitBreaker {
    var state: CircuitState
    var config: Config
    var consecutiveFailures: nat
    var consecutiveSuccesses: nat
    var totalRequests: nat
    var failedRequests: nat
    var lastOpenedAt: Option<int>
    var halfOpenPermits: nat

    constructor (config: Config)
      ensures View() == New(config)
    {
      state, this.config, lastOpenedAt, halfOpenPermits := Closed, config, None, 1;
      consecutiveFailures, consecutiveSuccesses, totalRequests, failedRequests := 0, 0, 0, 0;
    }

    function View(): Breaker
      reads this
    {
      Breaker(state, config, consecutiveFailures, consecutiveSuccesses, totalRequests, failedRequests, lastOpenedAt, halfOpenPermits)
    }

    method SetConfig(next: Config) returns (changed: bool)
      modifies this`config
      ensures View() == old(View()).(config := next)
      ensures changed <==> old(config) != next
    {
      changed := config != next;
      config := next;
    }

    method CanProbe(now: int) returns (ready: bool)
      ensures ready <==> state == Open && AllowRequest(View(), now).1
    {
      ready := state == Open && lastOpenedAt.Some? && now - lastOpenedAt.value >= config.timeout;
    }

    method Allow(now: int) returns (allowed: bool)
      modifies this
      ensures (View(), allowed) == AllowRequest(old(View()), now)
    {
      match state
      case Closed =>
        totalRequests := totalRequests + 1;
        allowed := true;
      case Open =>
        if lastOpenedAt.None? || now - lastOpenedAt.value < config.timeout {
          return false;
        }
        state := HalfOpen;
        consecutiveSuccesses := 0;
        halfOpenPermits := 1;
        allowed := TakeHalfOpenPermit();
      case HalfOpen =>
        allowed := TakeHalfOpenPermit();
    }

    method TakeHalfOpenPermit() returns (took: bool)
      modifies this`halfOpenPermits, this`totalRequests
      ensures (View(), took) == TakePermit(old(View()))
    {
      took := halfOpenPermits == 1;
      if took {
        halfOpenPermits := 0;
        totalRequests := totalRequests + 1;
      }
    }

    method Succeeded()
      modifies this
      ensures View() == RecordSuccess(old(View()))
    {
      match state
      case Closed => consecutiveFailures := 0;
      case HalfOpen =>
        var successes := consecutiveSuccesses + 1;
        consecutiveSuccesses := successes;
        if successes >= AtLeastOne(config.successThreshold) {
          state := Closed;
          consecutiveSuccesses, consecutiveFailures, halfOpenPermits := 0, 0, 1;
          totalRequests, failedRequests := 0, 0;
        } else {
          halfOpenPermits := 1;
        }
      case Open =>
    }

    method Failed(now: int)
      modifies this
      ensures View() == RecordFailure(old(View()), now)
    {
      failedRequests := failedRequests + 1;
      match state
      case Closed =>
        consecutiveFailures := consecutiveFailures + 1;
        if consecutiveFailures >= AtLeastOne(config.failureThreshold)
           || ErrorRateHit(config, totalRequests, failedRequests) {
          OpenNow(now);
        }
      case HalfOpen => OpenNow(now);
      case Open =>
    }

    method OpenNow(now: int)
      modifies this
      ensures View() == OpenLocked(old(View()), now)
    {
      state := Open;
      lastOpenedAt := Some(now);
      consecutiveFailures, consecutiveSuccesses, halfOpenPermits := 0, 0, 0;
    }

    method ReleaseHalfOpenPermit()
      modifies this`halfOpenPermits
      ensures View() == ReleasePermit(old(View()))
    {
      if state == HalfOpen {
        halfOpenPermits := 1;
      }
    }

    method Reset()
      modifies this
      ensures View() == New(config) && config == old(config)
    {
      state := Closed;
      consecutiveFailures, consecutiveSuccesses, totalRequests, failedRequests := 0, 0, 0, 0;
      lastOpenedAt := None;
      halfOpenPermits := 1;
    }
  }

  // ---- runs with a fixed configuration and no reset -------------------------------------------------------

  datatype Call = Asked | Answered | Errored | Returned

  datatype TimedCall = TimedCall(call: Call, now: int)

  function AfterCall(b: Breaker, e: TimedCall): Breaker {
    match e.call
    case Asked => AllowRequest(b, e.now).0
    case Answered => RecordSuccess(b)
    case Errored => RecordFailure(b, e.now)
    case Returned => ReleasePermit(b)
  }

  /** A run of a new breaker: its state before every event and after the last one. */
  ghost predicate CallRun(config: Config, events: seq<TimedCall>, states: seq<Breaker>) {
    && |states| == |events| + 1 && states[0] == New(config)
    && (forall k :: 0 <= k < |events| ==> states[k + 1] == AfterCall(states[k], events[k]))
    && (forall i, j :: 0 <= i < j < |events| ==> events[i].now <= events[j].now)
  }

  /** The failures reported since the last success. */
  function TrailingFailures(events: seq<TimedCall>): nat
    decreases |events|
  {
    if events == [] then 0
    else
      var last, before := events[|events| - 1].call, events[..|events| - 1];
      if last == Answered then 0 else TrailingFailures(before) + if last == Errored then 1 else 0
  }

  function Successes(events: seq<TimedCall>): nat
    decreases |events|
  {
    if events == [] then 0
    else Successes(events[..|events| - 1]) + if events[|events| - 1].call == Answered then 1 else 0
  }

  /** The breaker opened at event `i` and has been Open up to state `k`. */
  ghost predicate OpenSince(events: seq<TimedCall>, states: seq<Breaker>, i: nat, k: nat)
    requires |states| == |events| + 1
  {
    && i < k < |states| && states[i].state != Open
    && (forall n :: i < n <= k ==> states[n].state == Open)
    && states[k].lastOpenedAt == Some(events[i].now)
  }

  /** The breaker half-opened at event `h`, the timeout of its last opening over, and has been HalfOpen up to
      state `k`, counting the successes reported meanwhile; no failure was. */
  ghost predicate HalfOpenSince(events: seq<TimedCall>, states: seq<Breaker>, h: nat, k: nat)
    requires |states| == |events| + 1
  {
    && h < k < |states|
    && (exists i: nat :: OpenSince(events, states, i, h) && events[h].now - events[i].now >= states[h].config.timeout)
    && (forall n :: h < n <= k ==> states[n].state == HalfOpen)
    && (forall n :: h < n < k ==> events[n].call != Errored)
    && states[k].consecutiveSuccesses == Successes(events[h + 1..k])
  }

  /** What state `k` says about the events before it. */
  ghost predicate Explained(events: seq<TimedCall>, states: seq<Breaker>, k: nat)
    requires |states| == |events| + 1 && k <= |events|
  {
    match states[k].state
    case Closed =>
      states[k].consecutiveFailures == TrailingFailures(events[..k]) < AtLeastOne(states[k].config.failureThreshold)
    case Open => exists i: nat :: OpenSince(events, states, i, k)
    case HalfOpen => exists h: nat :: HalfOpenSince(events, states, h, k)
  }

  lemma ClosedStep(config: Config, events: seq<TimedCall>, states: seq<Breaker>, k: nat)
    requires CallRun(config, events, states) && k < |events| && Explained(events, states, k)
    requires states[k].state == Closed
    ensures Explained(events, states, k + 1)
  {
    assert events[..k + 1][..k] == events[..k];
    if states[k + 1].state == Open {
      assert OpenSince(events, states, k, k + 1);
    }
  }

  lemma OpenStep(config: Config, events: seq<TimedCall>, states: seq<Breaker>, k: nat)
    requires CallRun(config, events, states) && k < |events| && Explained(events, states, k)
    requires states[k].state == Open
    ensures Explained(events, states, k + 1)
  {
    var i: nat :| OpenSince(events, states, i, k);
    if states[k + 1].state == Open {
      assert OpenSince(events, states, i, k + 1);
    } else {
      assert events[k + 1..k + 1] == [];
      assert HalfOpenSince(events, states, k, k + 1);
    }
  }

  lemma StaysHalfOpen(config: Config, events: seq<TimedCall>, states: seq<Breaker>, h: nat, k: nat)
    requires CallRun(config, events, states) && k < |events| && HalfOpenSince(events, states, h, k)
    requires states[k + 1].state == HalfOpen
    ensures HalfOpenSince(events, states, h, k + 1)
  {
    assert events[h + 1..k + 1][..k - h - 1] == events[h + 1..k];
    assert events[h + 1..k + 1][k - h - 1] == events[k];
  }

  lemma LeavesHalfOpen(config: Config, events: seq<TimedCall>, states: seq<Breaker>, k: nat)
    requires CallRun(config, events, states) && k < |events|
    requires states[k].state == HalfOpen && states[k + 1].state != HalfOpen
    ensures Explained(events, states, k + 1)
  {
    if states[k + 1].state == Open {
      assert OpenSince(events, states, k, k + 1);
    } else {
      assert events[..k + 1][k].call == Answered;
    }
  }

  lemma HalfOpenStep(config: Config, events: seq<TimedCall>, states: seq<Breaker>, k: nat)
    requires CallRun(config, events, states) && k < |events| && Explained(events, states, k)
    requires states[k].state == HalfOpen
    ensures Explained(events, states, k + 1)
  {
    if states[k + 1].state == HalfOpen {
      var h: nat :| HalfOpenSince(events, states, h, k);
      StaysHalfOpen(config, events, states, h, k);
    } else {
      LeavesHalfOpen(config, events, states, k);
    }
  }

  lemma ConfigStays(config: Config, events: seq<TimedCall>, states: seq<Breaker>, k: nat)
    requires CallRun(config, events, states) && k <= |events|
    ensures states[k].config == config
  {
    if k > 0 {
      ConfigStays(config, events, states, k - 1);
    }
  }

  lemma {:induction false} EveryStateIsExplained(config: Config, events: seq<TimedCall>, states: seq<Breaker>, k: nat)
    requires CallRun(config, events, states) && k <= |events|
    ensures Explained(events, states, k)
  {
    if k == 0 {
      assert events[..0] == [];
    } else {
      EveryStateIsExplained(config, events, states, k - 1);
      match states[k - 1].state
      case Closed => ClosedStep(config, events, states, k - 1);
      case Open => OpenStep(config, events, states, k - 1);
      case HalfOpen => HalfOpenStep(config, events, states, k - 1);
    }
  }

  /** A Closed breaker has seen fewer failures in a row than it takes to open it. */
  lemma ClosedStreakIsShort(config: Config, events: seq<TimedCall>, states: seq<Breaker>, k: nat)
    requires CallRun(config, events, states) && k <= |events| && states[k].state == Closed
    ensures TrailingFailures(events[..k]) < AtLeastOne(config.failureThreshold)
  {
    EveryStateIsExplained(config, events, states, k);
    ConfigStays(config, events, states, k);
  }

  /** Between an opening and the next closing at least the timeout passes, and the breaker ends in a stretch of
      HalfOpen with enough reported successes and no reported failure. */
  lemma ClosingTakesTimeoutAndSuccesses(config: Config, events: seq<TimedCall>, states: seq<Breaker>, i: nat, j: nat)
    returns (h: nat)
    requires CallRun(config, events, states) && i < j < |events|
    requires states[i].state != Open && states[i + 1].state == Open
    requires (forall n :: i < n <= j ==> states[n].state != Closed) && states[j + 1].state == Closed
    ensures i < h < j && forall n :: h < n <= j ==> states[n].state == HalfOpen
    ensures events[h].now - events[i].now >= config.timeout
    ensures Successes(events[h + 1..j + 1]) >= AtLeastOne(config.successThreshold)
    ensures forall n :: h < n <= j ==> events[n].call != Errored
  {
    EveryStateIsExplained(config, events, states, j);
    ClosedFromHalfOpen(config, events, states, j);
    h :| HalfOpenSince(events, states, h, j);
    assert i + 1 <= h by {
      assert states[i + 1].state != HalfOpen;
    }
    TimeoutPassed(config, events, states, i, h, j);
    LastSuccess(events, h, j);
    ConfigStays(config, events, states, j);
  }

  /** Only a success in HalfOpen closes the breaker. */
  lemma ClosedFromHalfOpen(config: Config, events: seq<TimedCall>, states: seq<Breaker>, j: nat)
    requires CallRun(config, events, states) && j < |events| && states[j].state != Closed && states[j + 1].state == Closed
    ensures states[j].state == HalfOpen && events[j].call == Answered
    ensures states[j].consecutiveSuccesses + 1 >= AtLeastOne(states[j].config.successThreshold)
  {
  }

  lemma TimeoutPassed(config: Config, events: seq<TimedCall>, states: seq<Breaker>, i: nat, h: nat, j: nat)
    requires CallRun(config, events, states) && i < h && HalfOpenSince(events, states, h, j)
    requires states[i].state != Open && states[i + 1].state == Open
    requires forall n :: i < n <= h ==> states[n].state != Closed
    ensures events[h].now - events[i].now >= config.timeout
  {
    var o: nat :| OpenSince(events, states, o, h) && events[h].now - events[o].now >= states[h].config.timeout;
    ConfigStays(config, events, states, h);
    assert forall n :: o < n <= h ==> states[n].state == Open;
  }

  lemma LastSuccess(events: seq<TimedCall>, h: nat, j: nat)
    requires h < j < |events|
    ensures Successes(events[h + 1..j + 1]) == Successes(events[h + 1..j]) + if events[j].call == Answered then 1 else 0
  {
    assert events[h + 1..j + 1][..j - h - 1] == events[h + 1..j];
    assert events[h + 1..j + 1][j - h - 1] == events[j];
  }
}
