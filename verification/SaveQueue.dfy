/** The dashboard's save queue: one save at a time, each on top of the one before, each caller told about its own.
    Callers are numbered in the order they call; code between two awaits is one step. */
module SaveQueue {
  import opened Wrappers

  type Config = string

  /** Where one draining loop stands: waiting for the loop before it, saving its own task, saving a queued
      caller's, or done with this result. A task computes its save from `base`. */
  datatype Phase = Waiting | Own(base: Option<Config>) | Drained(caller: nat, base: Option<Config>) | Settled(ok: bool)

  datatype Loop = Loop(leader: nat, previous: Option<nat>, phase: Phase)

  datatype Answer = Answer(caller: nat, ok: bool)

  datatype Commit = Commit(caller: nat, base: Option<Config>, result: Config)

  datatype State = State(
    calls: nat,
    running: bool,
    queued: seq<nat>,
    tail: Option<nat>,
    config: Option<Config>,
    loops: seq<Loop>,
    answers: seq<Answer>,
    commits: seq<Commit>)

  const INITIAL := State(0, false, [], None, None, [], [], [])

  // ---- the steps ------------------------------------------------------------------------------------------

  function Called(s: State): State {
    var s' := s.(calls := s.calls + 1);
    if s.running then s'.(queued := s.queued + [s.calls])
    else s'.(running := true, loops := s.loops + [Loop(s.calls, s.tail, Waiting)], tail := Some(|s.loops|))
  }

  predicate CanStart(s: State, i: nat) {
    && i < |s.loops| && s.loops[i].phase.Waiting?
    && (s.loops[i].previous.Some? ==>
          s.loops[i].previous.value < |s.loops| && s.loops[s.loops[i].previous.value].phase.Settled?)
  }

  function InPhase(s: State, i: nat, phase: Phase): State
    requires i < |s.loops|
  {
    s.(loops := s.loops[i := s.loops[i].(phase := phase)])
  }

  function Started(s: State, i: nat): State
    requires CanStart(s, i)
  {
    InPhase(s, i, Own(s.config))
  }

  predicate CanFinish(s: State, i: nat) {
    i < |s.loops| && (s.loops[i].phase.Own? || s.loops[i].phase.Drained?)
  }

  function CallerOf(l: Loop): nat {
    if l.phase.Drained? then l.phase.caller else l.leader
  }

  /** A queued caller is told as soon as its own task ran. */
  function AnswerQueued(s: State, l: Loop, ok: bool): seq<Answer> {
    if l.phase.Drained? then s.answers + [Answer(l.phase.caller, ok)] else s.answers
  }

  function Saved(s: State, i: nat, result: Config): State
    requires CanFinish(s, i)
  {
    var l := s.loops[i];
    var s' := s.(config := Some(result),
                 commits := s.commits + [Commit(CallerOf(l), l.phase.base, result)],
                 answers := AnswerQueued(s, l, true));
    if s.queued != [] then
      InPhase(s'.(queued := s.queued[1..]), i, Drained(s.queued[0], Some(result)))
    else
      InPhase(s'.(answers := s'.answers + [Answer(l.leader, true)], running := false), i, Settled(true))
  }

  function Drops(callers: seq<nat>): seq<Answer> {
    seq(|callers|, k requires 0 <= k < |callers| => Answer(callers[k], false))
  }

  function Failed(s: State, i: nat): State
    requires CanFinish(s, i)
  {
    var l := s.loops[i];
    var answers := AnswerQueued(s, l, false) + Drops(s.queued) + [Answer(l.leader, false)];
    InPhase(s.(answers := answers, queued := [], running := false), i, Settled(false))
  }

  // ---- the queue object -----------------------------------------------------------------------------------

  /** The references the component keeps, the loops started, and what was answered and committed so far. */
  class Queue {
    var calls: nat
    var running: bool
    var queued: seq<nat>
    var tail: Option<nat>
    var config: Option<Config>
    var loops: seq<Loop>
    var answers: seq<Answer>
    ghost var commits: seq<Commit>

    ghost function View(): State
      reads this
    {
      State(calls, running, queued, tail, config, loops, answers, commits)
    }

    constructor ()
      ensures View() == INITIAL
    {
      calls, running, queued, tail, config, loops, answers, commits := 0, false, [], None, None, [], [], [];
    }

    method Run()
      modifies this
      ensures View() == Called(old(View()))
    {
      var caller := calls;
      calls := calls + 1;
      if running {
        queued := queued + [caller];
        return;
      }
      running := true;
      loops := loops + [Loop(caller, tail, Waiting)];
      tail := Some(|loops| - 1);
    }

    method Start(i: nat)
      requires CanStart(View(), i)
      modifies this
      ensures View() == Started(old(View()), i)
    {
      loops := loops[i := loops[i].(phase := Own(config))];
    }

    method Finish(i: nat, outcome: Option<Config>)
      requires CanFinish(View(), i)
      modifies this
      ensures View() == if outcome.Some? then Saved(old(View()), i, outcome.value) else Failed(old(View()), i)
    {
      var l := loops[i];
      match outcome
      case Some(result) =>
        config := outcome;
        commits := commits + [Commit(CallerOf(l), l.phase.base, result)];
        if l.phase.Drained? {
          answers := answers + [Answer(l.phase.caller, true)];
        }
        if |queued| > 0 {
          var next := queued[0];
          queued := queued[1..];
          loops := loops[i := l.(phase := Drained(next, config))];
        } else {
          running := false;
          answers := answers + [Answer(l.leader, true)];
          loops := loops[i := l.(phase := Settled(true))];
        }
      case None =>
        if l.phase.Drained? {
          answers := answers + [Answer(l.phase.caller, false)];
        }
        var dropped := queued;
        queued := [];
        ghost var told := answers;
        for k := 0 to |dropped|
          invariant answers == told + Drops(dropped)[..k]
          invariant calls == old(calls) && running == old(running) && queued == [] && tail == old(tail)
          invariant config == old(config) && loops == old(loops) && commits == old(commits)
        {
          answers := answers + [Answer(dropped[k], false)];
        }
        running := false;
        answers := answers + [Answer(l.leader, false)];
        loops := loops[i := l.(phase := Settled(false))];
    }
  }
}
