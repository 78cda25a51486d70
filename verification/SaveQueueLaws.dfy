/** Every interleaving of calls and task outcomes of the save queue. */
module SaveQueueLaws {
  import opened SaveQueue
  import opened Wrappers

  datatype Step = Call | Begin(i: nat) | Succeed(i: nat, result: Config) | Fail(i: nat)

  predicate Enabled(s: State, step: Step) {
    match step
    case Call => true
    case Begin(i) => CanStart(s, i)
    case Succeed(i, _) => CanFinish(s, i)
    case Fail(i) => CanFinish(s, i)
  }

  function After(s: State, step: Step): State
    requires Enabled(s, step)
  {
    match step
    case Call => Called(s)
    case Begin(i) => Started(s, i)
    case Succeed(i, result) => Saved(s, i, result)
    case Fail(i) => Failed(s, i)
  }

  predicate Run(s: State, steps: seq<Step>, end: State)
    decreases steps
  {
    if steps == [] then s == end else Enabled(s, steps[0]) && Run(After(s, steps[0]), steps[1..], end)
  }

  // ---- the invariant --------------------------------------------------------------------------------------

  predicate Active(s: State) {
    |s.loops| > 0 && !Current(s).phase.Settled?
  }

  function Current(s: State): Loop
    requires |s.loops| > 0
  {
    s.loops[|s.loops| - 1]
  }

  function Before(n: nat): Option<nat> {
    if n == 0 then None else Some(n - 1)
  }

  /** Only the newest loop can be unsettled, and it is exactly while something runs. */
  ghost predicate OneLoop(s: State) {
    && (forall i :: 0 <= i < |s.loops| - 1 ==> s.loops[i].phase.Settled?)
    && (s.running <==> Active(s))
    && (!s.running ==> s.queued == [])
    && s.tail == Before(|s.loops|)
    && (Active(s) ==> Current(s).previous == Before(|s.loops| - 1))
  }

  /** The callers not answered yet, in the order their tasks run. */
  function Pending(s: State): seq<nat> {
    if !Active(s) then s.queued
    else [Current(s).leader] + (if Current(s).phase.Drained? then [Current(s).phase.caller] else []) + s.queued
  }

  function Callers(answers: seq<Answer>): seq<nat> {
    seq(|answers|, i requires 0 <= i < |answers| => answers[i].caller)
  }

  function Upto(n: nat): seq<nat> {
    seq(n, i => i)
  }

  /** Every caller so far is answered once or pending once. */
  ghost predicate EachOnce(s: State) {
    multiset(Callers(s.answers)) + multiset(Pending(s)) == multiset(Upto(s.calls))
  }

  ghost predicate Increasing(xs: seq<nat>) {
    forall i, j :: 0 <= i < j < |xs| ==> xs[i] < xs[j]
  }

  function CommitCallers(commits: seq<Commit>): seq<nat> {
    seq(|commits|, i requires 0 <= i < |commits| => commits[i].caller)
  }

  /** The callers whose tasks are still to finish. */
  function Unfinished(s: State): seq<nat> {
    if !Active(s) then s.queued else [CallerOf(Current(s))] + s.queued
  }

  /** Commits, then the task in hand, then the queue: always in call order. */
  ghost predicate CallOrder(s: State) {
    Increasing(CommitCallers(s.commits) + Unfinished(s) + [s.calls])
  }

  function LastResult(commits: seq<Commit>): Option<Config> {
    if commits == [] then None else Some(commits[|commits| - 1].result)
  }

  /** Every save was computed from the result of the save before it. */
  ghost predicate Chained(s: State) {
    && (forall k :: 0 <= k < |s.commits| ==> s.commits[k].base == LastResult(s.commits[..k]))
    && s.config == LastResult(s.commits)
    && (Active(s) && !Current(s).phase.Waiting? ==> Current(s).phase.base == s.config)
  }

  predicate Committed(s: State, caller: nat) {
    exists k :: 0 <= k < |s.commits| && s.commits[k].caller == caller
  }

  predicate Leads(s: State, caller: nat) {
    exists i :: 0 <= i < |s.loops| && s.loops[i].leader == caller
  }

  /** True only for a committed task; for a queued caller, false only for one that was not. */
  ghost predicate Truthful(s: State) {
    && (forall a :: a in s.answers && a.ok ==> Committed(s, a.caller))
    && (forall a :: a in s.answers && !a.ok && !Leads(s, a.caller) ==> !Committed(s, a.caller))
    && (Active(s) && Current(s).phase.Drained? ==> Committed(s, Current(s).leader))
  }

  ghost predicate Inv(s: State) {
    OneLoop(s) && EachOnce(s) && CallOrder(s) && Chained(s) && Truthful(s)
  }

  // ---- every step keeps it --------------------------------------------------------------------------------

  lemma OneLoopKept(s: State, step: Step)
    requires OneLoop(s) && Enabled(s, step)
    ensures OneLoop(After(s, step))
  {
  }

  /** Only the newest loop can step. */
  lemma CurrentSteps(s: State, i: nat)
    requires OneLoop(s) && (CanStart(s, i) || CanFinish(s, i))
    ensures i == |s.loops| - 1 && Active(s) && s.running
  {
  }

  lemma CallersConcat(a: seq<Answer>, b: seq<Answer>)
    ensures Callers(a + b) == Callers(a) + Callers(b)
  {
  }

  lemma EachOnceAfterCall(s: State)
    requires OneLoop(s) && EachOnce(s)
    ensures EachOnce(Called(s))
  {
    PendingAfterCall(s);
    OneMoreWaits(s, Called(s));
  }

  lemma OneMoreWaits(s: State, t: State)
    requires EachOnce(s) && t.answers == s.answers && t.calls == s.calls + 1 && Pending(t) == Pending(s) + [s.calls]
    ensures EachOnce(t)
  {
    UptoMore(s.calls);
    MultisetMore(Pending(s), s.calls);
  }

  lemma PendingAfterCall(s: State)
    requires OneLoop(s)
    ensures Pending(Called(s)) == Pending(s) + [s.calls]
  {
    if !s.running {
      assert Pending(Called(s)) == [s.calls] && Pending(s) == [];
    }
  }

  lemma UptoMore(n: nat)
    ensures multiset(Upto(n + 1)) == multiset(Upto(n)) + multiset{n}
  {
    assert Upto(n + 1) == Upto(n) + [n];
  }

  lemma MultisetMore(xs: seq<nat>, n: nat)
    ensures multiset(xs + [n]) == multiset(xs) + multiset{n}
  {
  }

  /** The caller a queued task is for, if the task in hand is one. */
  function Told(l: Loop): seq<nat> {
    if l.phase.Drained? then [l.phase.caller] else []
  }

  lemma Moved(answered: seq<nat>, a: seq<nat>, b: seq<nat>, c: seq<nat>)
    ensures multiset(answered + b) + multiset(a + c) == multiset(answered) + multiset(a + b + c)
  {
  }

  lemma EachOnceAfterSave(s: State, i: nat, result: Config)
    requires OneLoop(s) && EachOnce(s) && CanFinish(s, i)
    ensures EachOnce(Saved(s, i, result))
  {
    CurrentSteps(s, i);
    if s.queued != [] {
      EachOnceAfterDraining(s, i, result);
    } else {
      EachOnceAfterLast(s, i, result);
    }
  }

  lemma EachOnceAfterDraining(s: State, i: nat, result: Config)
    requires OneLoop(s) && EachOnce(s) && CanFinish(s, i) && i == |s.loops| - 1 && s.queued != []
    requires Callers(AnswerQueued(s, s.loops[i], true)) == Callers(s.answers) + Told(s.loops[i])
    ensures EachOnce(Saved(s, i, result))
  {
    var t, l := Saved(s, i, result), s.loops[i];
    assert t.answers == AnswerQueued(s, l, true) && t.calls == s.calls;
    assert Pending(s) == [l.leader] + Told(l) + s.queued;
    assert Pending(t) == [l.leader] + s.queued;
    Moved(Callers(s.answers), [l.leader], Told(l), s.queued);
  }

  lemma EachOnceAfterLast(s: State, i: nat, result: Config)
    requires OneLoop(s) && EachOnce(s) && CanFinish(s, i) && i == |s.loops| - 1 && s.queued == []
    requires Callers(AnswerQueued(s, s.loops[i], true)) == Callers(s.answers) + Told(s.loops[i])
    ensures EachOnce(Saved(s, i, result))
  {
    var t, l := Saved(s, i, result), s.loops[i];
    CallersConcat(AnswerQueued(s, l, true), [Answer(l.leader, true)]);
    assert Callers([Answer(l.leader, true)]) == [l.leader];
    assert Pending(s) == [l.leader] + Told(l) + [] && Pending(t) == [];
    Moved(Callers(s.answers), [l.leader], Told(l), []);
  }

  lemma EachOnceAfterFailure(s: State, i: nat)
    requires OneLoop(s) && EachOnce(s) && CanFinish(s, i)
    ensures EachOnce(Failed(s, i))
  {
    CurrentSteps(s, i);
    var t, l := Failed(s, i), s.loops[i];
    CallersAfterFailure(s, i);
    assert t.calls == s.calls;
    assert Pending(s) == [l.leader] + Told(l) + s.queued && Pending(t) == [];
    AllTold(Callers(s.answers), [l.leader], Told(l), s.queued);
  }

  lemma CallersAfterFailure(s: State, i: nat)
    requires CanFinish(s, i)
    ensures Callers(Failed(s, i).answers) == Callers(s.answers) + Told(s.loops[i]) + s.queued + [s.loops[i].leader]
  {
  }

  lemma AllTold(answered: seq<nat>, a: seq<nat>, b: seq<nat>, c: seq<nat>)
    ensures multiset(answered + b + c + a) == multiset(answered) + multiset(a + b + c)
  {
  }

  lemma CallOrderKept(s: State, step: Step)
    requires OneLoop(s) && CallOrder(s) && Enabled(s, step)
    ensures CallOrder(After(s, step))
  {
    match step {
      case Call => CallOrderAfterCall(s);
      case Begin(i) =>
        CurrentSteps(s, i);
        assert Unfinished(After(s, step)) == Unfinished(s);
      case Succeed(i, result) => CallOrderAfterSave(s, i, result);
      case Fail(i) => CallOrderAfterFailure(s, i);
    }
  }

  lemma CallOrderAfterCall(s: State)
    requires OneLoop(s) && CallOrder(s)
    ensures CallOrder(Called(s))
  {
    var t, line := Called(s), CommitCallers(s.commits) + Unfinished(s);
    assert Unfinished(t) == Unfinished(s) + [s.calls];
    IncreasingMore(line, s.calls);
    assert CommitCallers(t.commits) + Unfinished(t) + [t.calls] == line + [s.calls] + [s.calls + 1];
  }

  lemma CallOrderAfterSave(s: State, i: nat, result: Config)
    requires OneLoop(s) && CallOrder(s) && CanFinish(s, i)
    ensures CallOrder(Saved(s, i, result))
  {
    CurrentSteps(s, i);
    var t, c := Saved(s, i, result), CallerOf(s.loops[i]);
    assert CommitCallers(t.commits) == CommitCallers(s.commits) + [c];
    assert Unfinished(s) == [c] + Unfinished(t);
    ConcatAssociates(CommitCallers(s.commits), [c], Unfinished(t));
  }

  lemma CallOrderAfterFailure(s: State, i: nat)
    requires OneLoop(s) && CallOrder(s) && CanFinish(s, i)
    ensures CallOrder(Failed(s, i))
  {
    CurrentSteps(s, i);
    var t := Failed(s, i);
    SkipMiddle(CommitCallers(s.commits), Unfinished(s), [s.calls]);
    assert CommitCallers(t.commits) + Unfinished(t) + [t.calls] == CommitCallers(s.commits) + [s.calls];
  }

  lemma IncreasingMore(xs: seq<nat>, n: nat)
    requires Increasing(xs + [n])
    ensures Increasing(xs + [n] + [n + 1])
  {
    assert (xs + [n])[|xs|] == n;
  }

  lemma SkipMiddle(a: seq<nat>, b: seq<nat>, c: seq<nat>)
    requires Increasing(a + b + c)
    ensures Increasing(a + c)
  {
    var whole, part := a + b + c, a + c;
    forall i, j | 0 <= i < j < |part|
      ensures part[i] < part[j]
    {
      var k, m := if i < |a| then i else i + |b|, if j < |a| then j else j + |b|;
      assert whole[k] == part[i] && whole[m] == part[j];
    }
  }

  lemma ChainedKept(s: State, step: Step)
    requires OneLoop(s) && Chained(s) && Enabled(s, step)
    ensures Chained(After(s, step))
  {
    if !step.Call? {
      CurrentSteps(s, step.i);
    }
    if step.Succeed? {
      ChainedAfterSave(s, step.i, step.result);
    }
  }

  lemma ChainedAfterSave(s: State, i: nat, result: Config)
    requires OneLoop(s) && Chained(s) && CanFinish(s, i) && i == |s.loops| - 1
    ensures Chained(Saved(s, i, result))
  {
    var t := Saved(s, i, result);
    var added := t.commits[|s.commits|];
    assert t.commits == s.commits + [added] && added.base == s.config;
    forall k | 0 <= k < |t.commits|
      ensures t.commits[k].base == LastResult(t.commits[..k])
    {
      assert t.commits[..k] == s.commits[..k];
      assert k == |s.commits| ==> s.commits[..k] == s.commits;
    }
  }

  // ---- answers are true -----------------------------------------------------------------------------------

  lemma UptoOnce(n: nat, c: nat)
    ensures multiset(Upto(n))[c] == if c < n then 1 else 0
  {
    if n > 0 {
      UptoOnce(n - 1, c);
      assert Upto(n) == Upto(n - 1) + [n - 1];
    } else {
      assert Upto(0) == [];
    }
  }

  lemma PendingNotAnswered(s: State, c: nat)
    requires EachOnce(s) && c in Pending(s)
    ensures c !in Callers(s.answers)
  {
    UptoOnce(s.calls, c);
    assert multiset(Pending(s))[c] >= 1;
    assert multiset(Callers(s.answers))[c] == 0;
  }

  lemma UnfinishedNotCommitted(s: State, c: nat)
    requires CallOrder(s) && c in Unfinished(s)
    ensures !Committed(s, c)
  {
    var a, b := CommitCallers(s.commits), Unfinished(s);
    var line := a + b + [s.calls];
    var j :| 0 <= j < |b| && b[j] == c;
    forall k | 0 <= k < |s.commits|
      ensures s.commits[k].caller != c
    {
      assert line[k] == a[k] && line[|a| + j] == c;
    }
  }

  lemma AnsweredCaller(s: State, a: Answer)
    requires a in s.answers
    ensures a.caller in Callers(s.answers)
  {
    var i :| 0 <= i < |s.answers| && s.answers[i] == a;
    assert Callers(s.answers)[i] == a.caller;
  }

  lemma TruthfulAfterSave(s: State, i: nat, result: Config)
    requires OneLoop(s) && EachOnce(s) && CallOrder(s) && Truthful(s) && CanFinish(s, i)
    ensures Truthful(Saved(s, i, result))
  {
    CurrentSteps(s, i);
    var t, l := Saved(s, i, result), s.loops[i];
    var c := CallerOf(l);
    assert c in Pending(s) by {
      assert Pending(s)[if l.phase.Drained? then 1 else 0] == c;
    }
    PendingNotAnswered(s, c);
    assert t.commits[|s.commits|].caller == c;
    forall d
      ensures Committed(t, d) <==> Committed(s, d) || d == c
      ensures Leads(t, d) <==> Leads(s, d)
    {
      CommittedMore(s, t, d, c);
      SameLeaders(s, t, d);
    }
    forall a | a in s.answers
      ensures a.caller != c
    {
      AnsweredCaller(s, a);
    }
  }

  lemma CommittedMore(s: State, t: State, d: nat, c: nat)
    requires |t.commits| == |s.commits| + 1 && t.commits[..|s.commits|] == s.commits && t.commits[|s.commits|].caller == c
    ensures Committed(t, d) <==> Committed(s, d) || d == c
  {
  }

  lemma SameLeaders(s: State, t: State, d: nat)
    requires |t.loops| == |s.loops| && forall k :: 0 <= k < |s.loops| ==> t.loops[k].leader == s.loops[k].leader
    ensures Leads(t, d) <==> Leads(s, d)
  {
  }

  lemma TruthfulAfterFailure(s: State, i: nat)
    requires OneLoop(s) && CallOrder(s) && Truthful(s) && CanFinish(s, i)
    ensures Truthful(Failed(s, i))
  {
    CurrentSteps(s, i);
    var t, l := Failed(s, i), s.loops[i];
    forall d
      ensures Leads(t, d) <==> Leads(s, d)
    {
      SameLeaders(s, t, d);
    }
    assert t.loops[i].leader == l.leader;
    forall a | a in t.answers && a !in s.answers
      ensures !a.ok && (a.caller == l.leader || !Committed(t, a.caller))
    {
      if a.caller != l.leader {
        assert a.caller in Unfinished(s) by {
          if a in Drops(s.queued) {
            var k :| 0 <= k < |s.queued| && s.queued[k] == a.caller;
          }
        }
        UnfinishedNotCommitted(s, a.caller);
      }
    }
  }

  lemma TruthfulAfterCall(s: State)
    requires OneLoop(s) && Truthful(s)
    ensures Truthful(Called(s))
  {
    var t := Called(s);
    forall d | Leads(s, d)
      ensures Leads(t, d)
    {
      var k :| 0 <= k < |s.loops| && s.loops[k].leader == d;
      assert t.loops[k].leader == d;
    }
  }

  lemma TruthfulAfterStart(s: State, i: nat)
    requires OneLoop(s) && Truthful(s) && CanStart(s, i)
    ensures Truthful(Started(s, i))
  {
    CurrentSteps(s, i);
    forall d
      ensures Leads(Started(s, i), d) <==> Leads(s, d)
    {
      SameLeaders(s, Started(s, i), d);
    }
  }

  lemma TruthfulKept(s: State, step: Step)
    requires OneLoop(s) && EachOnce(s) && CallOrder(s) && Truthful(s) && Enabled(s, step)
    ensures Truthful(After(s, step))
  {
    match step {
      case Call => TruthfulAfterCall(s);
      case Begin(i) => TruthfulAfterStart(s, i);
      case Succeed(i, result) => TruthfulAfterSave(s, i, result);
      case Fail(i) => TruthfulAfterFailure(s, i);
    }
  }

  lemma EachOnceKept(s: State, step: Step)
    requires OneLoop(s) && EachOnce(s) && Enabled(s, step)
    ensures EachOnce(After(s, step))
  {
    match step {
      case Call => EachOnceAfterCall(s);
      case Begin(i) =>
        CurrentSteps(s, i);
        assert Pending(After(s, step)) == Pending(s);
      case Succeed(i, result) => EachOnceAfterSave(s, i, result);
      case Fail(i) => EachOnceAfterFailure(s, i);
    }
  }

  lemma StepKeeps(s: State, step: Step)
    requires Inv(s) && Enabled(s, step)
    ensures Inv(After(s, step))
  {
    OneLoopKept(s, step);
    EachOnceKept(s, step);
    CallOrderKept(s, step);
    ChainedKept(s, step);
    TruthfulKept(s, step);
  }

  lemma {:induction false} RunKeeps(s: State, steps: seq<Step>, end: State)
    requires Inv(s) && Run(s, steps, end)
    ensures Inv(end)
    decreases steps
  {
    if steps != [] {
      StepKeeps(s, steps[0]);
      RunKeeps(After(s, steps[0]), steps[1..], end);
    }
  }

  lemma InitialInv()
    ensures Inv(INITIAL)
  {
  }

  // ---- what a caller can rely on --------------------------------------------------------------------------

  /** In every interleaving at most one task is in flight, and nothing is queued when nothing runs. */
  lemma OneTaskInFlight(steps: seq<Step>, end: State, i: nat, j: nat)
    requires Run(INITIAL, steps, end)
    ensures CanFinish(end, i) && CanFinish(end, j) ==> i == j
    ensures !end.running ==> end.queued == []
  {
    InitialInv();
    RunKeeps(INITIAL, steps, end);
  }

  /** Commits follow call order, and none is computed from anything but the one before it. */
  lemma NoSaveIsLostOrReordered(steps: seq<Step>, end: State, k: nat)
    requires Run(INITIAL, steps, end) && 0 < k < |end.commits|
    ensures end.commits[k - 1].caller < end.commits[k].caller
    ensures end.commits[k].base == Some(end.commits[k - 1].result)
  {
    InitialInv();
    RunKeeps(INITIAL, steps, end);
    var line := CommitCallers(end.commits) + Unfinished(end) + [end.calls];
    assert line[k - 1] == end.commits[k - 1].caller && line[k] == end.commits[k].caller;
    assert end.commits[..k][k - 1] == end.commits[k - 1];
  }

  /** Each caller is answered at most once, and exactly once by the time nothing runs. */
  lemma EveryCallerAnsweredOnce(steps: seq<Step>, end: State, c: nat)
    requires Run(INITIAL, steps, end) && c < end.calls
    ensures multiset(Callers(end.answers))[c] <= 1
    ensures !end.running ==> multiset(Callers(end.answers))[c] == 1
  {
    InitialInv();
    RunKeeps(INITIAL, steps, end);
    UptoOnce(end.calls, c);
  }

  /** A caller told true had its task committed; a queued caller told false had not. */
  lemma AnswersAreTrue(steps: seq<Step>, end: State, a: Answer)
    requires Run(INITIAL, steps, end) && a in end.answers
    ensures a.ok ==> Committed(end, a.caller)
    ensures !Leads(end, a.caller) ==> (a.ok <==> Committed(end, a.caller))
  {
    InitialInv();
    RunKeeps(INITIAL, steps, end);
  }

  // ---- who can rely on the answer -------------------------------------------------------------------------

  /** Whatever this caller was told so far says whether its own task was committed. */
  ghost predicate ToldExactly(s: State, caller: nat) {
    forall ok :: Answer(caller, ok) in s.answers ==> (ok <==> Committed(s, caller))
  }

  /** Whatever happens after a call made now, its caller is told true if and only if its task was committed. */
  ghost predicate NextCallerToldExactly(s: State) {
    forall more: seq<Step>, end: State :: Run(Called(s), more, end) ==> ToldExactly(end, s.calls)
  }

  ghost predicate LeadersCalled(s: State) {
    forall i :: 0 <= i < |s.loops| ==> s.loops[i].leader < s.calls
  }

  lemma StepKeepsLeaders(s: State, step: Step)
    requires LeadersCalled(s) && Enabled(s, step)
    ensures LeadersCalled(After(s, step)) && s.calls <= After(s, step).calls
    ensures forall c: nat :: c < s.calls && !Leads(s, c) ==> !Leads(After(s, step), c)
  {
    var t := After(s, step);
    assert forall i :: 0 <= i < |s.loops| ==> t.loops[i].leader == s.loops[i].leader;
    assert forall i :: |s.loops| <= i < |t.loops| ==> t.loops[i].leader == s.calls;
  }

  lemma {:induction false} RunKeepsLeaders(s: State, steps: seq<Step>, end: State)
    requires LeadersCalled(s) && Run(s, steps, end)
    ensures LeadersCalled(end)
    ensures forall c: nat :: c < s.calls && !Leads(s, c) ==> !Leads(end, c)
    decreases steps
  {
    if steps != [] {
      StepKeepsLeaders(s, steps[0]);
      RunKeepsLeaders(After(s, steps[0]), steps[1..], end);
    }
  }

  lemma QueuedCallerToldExactly(s: State, more: seq<Step>, end: State)
    requires Inv(s) && LeadersCalled(s) && s.running && Run(Called(s), more, end)
    ensures ToldExactly(end, s.calls)
  {
    StepKeeps(s, Call);
    RunKeeps(Called(s), more, end);
    assert Called(s).loops == s.loops && !Leads(Called(s), s.calls);
    RunKeepsLeaders(Called(s), more, end);
  }

  lemma {:induction false} RunOfOne(s: State, step: Step)
    requires Enabled(s, step)
    ensures Run(s, [step], After(s, step))
  {
    assert [step][1..] == [];
  }

  lemma {:induction false} RunMore(s: State, step: Step, rest: seq<Step>, end: State)
    requires Enabled(s, step) && Run(After(s, step), rest, end)
    ensures Run(s, [step] + rest, end)
  {
    assert ([step] + rest)[1..] == rest;
  }

  /** A call that finds nothing running can be told false after its own task was committed: a call queued behind it
      fails. */
  lemma LeaderMayBeToldFalse(s: State) returns (more: seq<Step>, end: State)
    requires Inv(s) && !s.running
    ensures Run(Called(s), more, end) && Answer(s.calls, false) in end.answers && Committed(end, s.calls) && !end.running
  {
    var i := |s.loops|;
    var s1 := Called(s);
    assert s1.loops[..i] == s.loops && s1.loops[i] == Loop(s.calls, s.tail, Waiting);
    var s2 := Started(s1, i);
    var s3 := Called(s2);
    var s4 := Saved(s3, i, "");
    assert s4.commits[|s.commits|].caller == s.calls;
    end := Failed(s4, i);
    assert end.commits == s4.commits && end.answers[|end.answers| - 1] == Answer(s.calls, false);
    RunOfOne(s4, Fail(i));
    RunMore(s3, Succeed(i, ""), [Fail(i)], end);
    RunMore(s2, Call, [Succeed(i, "")] + [Fail(i)], end);
    more := [Begin(i)] + ([Call] + ([Succeed(i, "")] + [Fail(i)]));
    RunMore(s1, Begin(i), [Call] + ([Succeed(i, "")] + [Fail(i)]), end);
  }

  /** In every reachable state, the next caller can rely on its answer, in both directions and whatever happens then,
      if and only if something is running when it calls. */
  lemma AnswerIsExactWhenQueued(steps: seq<Step>, s: State)
    requires Run(INITIAL, steps, s)
    ensures NextCallerToldExactly(s) <==> s.running
  {
    InitialInv();
    RunKeeps(INITIAL, steps, s);
    RunKeepsLeaders(INITIAL, steps, s);
    if s.running {
      forall more: seq<Step>, end: State | Run(Called(s), more, end)
        ensures ToldExactly(end, s.calls)
      {
        QueuedCallerToldExactly(s, more, end);
      }
    } else {
      var more, end := LeaderMayBeToldFalse(s);
      assert !ToldExactly(end, s.calls);
    }
  }

  // ---- the queue empties ----------------------------------------------------------------------------------

  /** How many more task starts and outcomes the callers so far can take. */
  function Work(s: State): nat {
    if !Active(s) then 0 else |s.queued| + if Current(s).phase.Waiting? then 2 else 1
  }

  lemma SomethingCanHappen(s: State)
    requires OneLoop(s) && s.running
    ensures |s.loops| > 0 && (Enabled(s, Begin(|s.loops| - 1)) || Enabled(s, Fail(|s.loops| - 1)))
  {
  }

  lemma WorkShrinks(s: State, step: Step)
    requires OneLoop(s) && !step.Call? && Enabled(s, step)
    ensures Work(After(s, step)) < Work(s)
  {
  }

  /** While something runs a step is possible, and every step but a new call brings the end nearer: without new calls
      the queue is empty and everyone answered after at most `Work` steps. */
  lemma QueueEmpties(steps: seq<Step>, s: State)
    requires Run(INITIAL, steps, s)
    ensures s.running ==> |s.loops| > 0 && (Enabled(s, Begin(|s.loops| - 1)) || Enabled(s, Fail(|s.loops| - 1)))
    ensures s.running <==> Work(s) > 0
    ensures forall step: Step :: !step.Call? && Enabled(s, step) ==> Work(After(s, step)) < Work(s)
  {
    InitialInv();
    RunKeeps(INITIAL, steps, s);
    if s.running {
      SomethingCanHappen(s);
    }
    forall step: Step | !step.Call? && Enabled(s, step)
      ensures Work(After(s, step)) < Work(s)
    {
      WorkShrinks(s, step);
    }
  }

  // ---- what the caller that leads is told -----------------------------------------------------------------

  /** With these steps done: a loop has settled, with its leader told, as no task of it failed, or as one did. */
  ghost predicate LeadersTold(s: State, done: seq<Step>) {
    forall i :: 0 <= i < |s.loops| ==>
      if s.loops[i].phase.Settled? then Answer(s.loops[i].leader, Fail(i) !in done) in s.answers else Fail(i) !in done
  }

  /** Only loops that were started have failed. */
  ghost predicate FailuresOfLoops(s: State, done: seq<Step>) {
    forall i: nat :: i >= |s.loops| ==> Fail(i) !in done
  }

  lemma StepTellsLeaders(s: State, done: seq<Step>, step: Step)
    requires OneLoop(s) && Enabled(s, step) && LeadersTold(s, done) && FailuresOfLoops(s, done)
    ensures LeadersTold(After(s, step), done + [step]) && FailuresOfLoops(After(s, step), done + [step])
  {
    var t := After(s, step);
    forall i | 0 <= i < |t.loops|
      ensures if t.loops[i].phase.Settled? then Answer(t.loops[i].leader, Fail(i) !in done + [step]) in t.answers
              else Fail(i) !in done + [step]
    {
      LeaderOfLoop(s, done, step, i);
    }
  }

  lemma LeaderOfLoop(s: State, done: seq<Step>, step: Step, i: nat)
    requires OneLoop(s) && Enabled(s, step) && LeadersTold(s, done) && FailuresOfLoops(s, done) && i < |After(s, step).loops|
    ensures var t := After(s, step);
            if t.loops[i].phase.Settled? then Answer(t.loops[i].leader, Fail(i) !in done + [step]) in t.answers
            else Fail(i) !in done + [step]
  {
    var t := After(s, step);
    if i < |s.loops| && s.loops[i].phase.Settled? {
      var a := Answer(s.loops[i].leader, Fail(i) !in done);
      AnswersStay(s, step, a);
    } else if t.loops[i].phase.Settled? {
      assert t.answers[|t.answers| - 1] == Answer(t.loops[i].leader, step.Succeed?);
    }
  }

  lemma AnswersStay(s: State, step: Step, a: Answer)
    requires Enabled(s, step) && a in s.answers
    ensures a in After(s, step).answers
  {
  }

  lemma {:induction false} RunTellsLeaders(s: State, done: seq<Step>, steps: seq<Step>, end: State)
    requires Inv(s) && Run(s, steps, end) && LeadersTold(s, done) && FailuresOfLoops(s, done)
    ensures LeadersTold(end, done + steps)
    decreases steps
  {
    if steps == [] {
      assert done + steps == done;
    } else {
      StepTellsLeaders(s, done, steps[0]);
      StepKeeps(s, steps[0]);
      RunTellsLeaders(After(s, steps[0]), done + [steps[0]], steps[1..], end);
      OneStepMore(done, steps);
    }
  }

  lemma OneStepMore(done: seq<Step>, steps: seq<Step>)
    requires steps != []
    ensures done + [steps[0]] + steps[1..] == done + steps
  {
  }

  lemma AnsweredOnceOnly(s: State, caller: nat, ok: bool, other: bool)
    requires Inv(s) && Answer(caller, ok) in s.answers && Answer(caller, other) in s.answers
    ensures ok == other
  {
    UptoOnce(s.calls, caller);
    if ok != other {
      var i :| 0 <= i < |s.answers| && s.answers[i] == Answer(caller, ok);
      var j :| 0 <= j < |s.answers| && s.answers[j] == Answer(caller, other);
      TwiceIn(Callers(s.answers), i, j);
    }
  }

  lemma TwiceIn(xs: seq<nat>, i: nat, j: nat)
    requires i < |xs| && j < |xs| && i != j && xs[i] == xs[j]
    ensures multiset(xs)[xs[i]] >= 2
  {
    var a, b := if i < j then i else j, if i < j then j else i;
    assert xs == xs[..a] + [xs[a]] + xs[a + 1..b] + [xs[b]] + xs[b + 1..];
  }

  /** The caller that leads a loop is told true if and only if no task of that loop failed: its own, or one that was
      queued behind it. */
  lemma LeaderToldExactly(steps: seq<Step>, end: State, i: nat, ok: bool)
    requires Run(INITIAL, steps, end) && i < |end.loops| && Answer(end.loops[i].leader, ok) in end.answers
    ensures end.loops[i].phase.Settled? && (ok <==> Fail(i) !in steps)
  {
    InitialInv();
    RunKeeps(INITIAL, steps, end);
    RunTellsLeaders(INITIAL, [], steps, end);
    assert [] + steps == steps;
    if end.loops[i].phase.Settled? {
      AnsweredOnceOnly(end, end.loops[i].leader, ok, Fail(i) !in steps);
    } else {
      AnsweredCaller(end, Answer(end.loops[i].leader, ok));
      PendingNotAnswered(end, end.loops[i].leader);
    }
  }
}
