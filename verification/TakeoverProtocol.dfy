/** Any number of callers whose lock sections and file accesses interleave.
    A restoring release is claim, read, write, commit, and holds no lock in between. */
module TakeoverProtocol {
  import opened Json
  import opened Takeover
  import opened Wrappers

  type Caller = nat

  /** Where a caller stands inside its restoring release. */
  datatype Stage =
    | Recovering
    | Claimed(manifest: Manifest, expected: nat)
    | HasRead(manifest: Manifest, expected: nat)
    | HasWritten(manifest: Manifest, expected: nat)
    | Failed

  datatype Event =
    | Adopt(fields: seq<string>, values: map<string, Value>, now: int)
    | Release(now: int)
    | CheckOrphaned(caller: Caller)
    | Claim(caller: Caller)
    | Read(caller: Caller, ok: bool)
    | Write(caller: Caller, ok: bool)
    | Abort(caller: Caller)
    | Commit(caller: Caller, now: int)

  datatype Outcome = Silent | Refused(error: StoreError) | ReleasedAs(manifest: Manifest) | Panicked

  /** `stages` holds the callers inside a release; `completed` counts finished adopt-release cycles. */
  datatype System = System(store: Store, stages: map<Caller, Stage>, completed: nat)

  const INITIAL := System(FRESH, map[], 0)

  predicate InFlight(stage: Stage) {
    !stage.Recovering?
  }

  function Leave(stages: map<Caller, Stage>, caller: Caller): map<Caller, Stage> {
    stages - {caller}
  }

  /** A caller does the steps of a release in order, one release at a time. */
  predicate Enabled(s: System, e: Event) {
    match e
    case Adopt(_, _, _) => true
    case Release(_) => true
    case CheckOrphaned(c) => c !in s.stages
    case Claim(c) => c !in s.stages || s.stages[c].Recovering?
    case Read(c, _) => c in s.stages && s.stages[c].Claimed?
    case Write(c, _) => c in s.stages && s.stages[c].HasRead?
    case Abort(c) => c in s.stages && s.stages[c].Failed?
    case Commit(c, _) => c in s.stages && s.stages[c].HasWritten?
  }

  /** The steps that unwrap the manifest. */
  predicate Unwraps(s: System, e: Event) {
    match e
    case Release(_) => s.store.state == Adopted
    case Claim(_) => s.store.state == Adopted
    case Commit(c, _) => c in s.stages && s.stages[c].HasWritten? && !CommitRefused(s.store, s.stages[c].expected)
    case _ => false
  }

  function Step(s: System, e: Event): (System, Outcome)
    requires Enabled(s, e)
  {
    if Unwraps(s, e) && s.store.manifest.None? then (s, Panicked) else
    match e
    case Adopt(fields, values, now) =>
      (match AfterAdopt(s.store, fields, values, now)
       case Success(next) => (s.(store := next), Silent)
       case Failure(error) => (s, Refused(error)))
    case Release(now) =>
      (match AfterRelease(s.store, now)
       case Success(next) => (s.(store := next, completed := s.completed + 1), ReleasedAs(next.manifest.value))
       case Failure(error) => (s, Refused(error)))
    case CheckOrphaned(c) =>
      if s.store.state == Adopted then (s.(stages := s.stages[c := Recovering]), Silent)
      else (s, Refused(WrongState(s.store.state)))
    case Claim(c) =>
      (match AfterClaim(s.store)
       case Success(next) =>
         (s.(store := next, stages := s.stages[c := Claimed(s.store.manifest.value, s.store.generation)]), Silent)
       case Failure(error) => (s.(stages := Leave(s.stages, c)), Refused(error)))
    case Read(c, ok) =>
      var stage := s.stages[c];
      (s.(stages := s.stages[c := if ok then HasRead(stage.manifest, stage.expected) else Failed]), Silent)
    case Write(c, ok) =>
      var stage := s.stages[c];
      (s.(stages := s.stages[c := if ok then HasWritten(stage.manifest, stage.expected) else Failed]), Silent)
    case Abort(c) =>
      (s.(store := AfterAbort(s.store), stages := Leave(s.stages, c)), Silent)
    case Commit(c, now) =>
      var (next, r) := AfterCommit(s.store, s.stages[c].expected, now);
      (System(next, Leave(s.stages, c), if r.Success? then s.completed + 1 else s.completed),
       if r.Success? then ReleasedAs(r.value) else Refused(r.error))
  }

  ghost function Releases(s: System): set<Caller> {
    set c | c in s.stages && InFlight(s.stages[c])
  }

  ghost predicate Invariant(s: System) {
    && Sound(s.store)
    && s.store.generation == s.completed
    && |Releases(s)| == (if s.store.state == Releasing then 1 else 0)
    && forall c :: c in s.stages ==>
         var stage := s.stages[c];
         (stage.Claimed? || stage.HasRead? || stage.HasWritten?) ==>
           s.store.manifest == Some(stage.manifest) && stage.expected == s.store.generation
  }

  ghost predicate Run(s: System, events: seq<Event>, end: System)
    decreases events
  {
    if events == [] then s == end
    else Enabled(s, events[0]) && Run(Step(s, events[0]).0, events[1..], end)
  }

  // ---- every step keeps the invariant ---------------------------------------------------------------------

  lemma SingletonOf(s: set<Caller>, c: Caller)
    requires c in s && |s| == 1
    ensures s == {c}
  {
    assert |s - {c}| == 0;
  }

  /** While a release is in flight it is the only one, and the store waits for it. */
  lemma OneReleaseAtMost(s: System, c: Caller)
    requires Invariant(s) && c in Releases(s)
    ensures s.store.state == Releasing && Releases(s) == {c}
  {
    assert Releases(s) != {};
    SingletonOf(Releases(s), c);
  }

  lemma NoneInFlight(s: System)
    requires Invariant(s) && s.store.state != Releasing
    ensures forall c :: c in s.stages ==> !InFlight(s.stages[c])
  {
    forall c | c in s.stages
      ensures !InFlight(s.stages[c])
    {
      assert Releases(s) == {};
      assert InFlight(s.stages[c]) ==> c in Releases(s);
    }
  }

  lemma AdoptKeeps(s: System, e: Event)
    requires Invariant(s) && e.Adopt?
    ensures Invariant(Step(s, e).0)
  {
    AdoptionSplits(e.fields, e.values, s.store.generation, e.now);
    var next := Step(s, e).0;
    assert Releases(next) == Releases(s);
    if AfterAdopt(s.store, e.fields, e.values, e.now).Success? {
      NoneInFlight(s);
    }
  }

  lemma ReleaseKeeps(s: System, e: Event)
    requires Invariant(s) && e.Release?
    ensures Invariant(Step(s, e).0) && !Step(s, e).1.Panicked?
  {
    assert Releases(Step(s, e).0) == Releases(s);
    if s.store.state == Adopted {
      NoneInFlight(s);
    }
  }

  lemma ClaimKeeps(s: System, e: Event)
    requires Invariant(s) && e.Claim? && Enabled(s, e)
    ensures Invariant(Step(s, e).0) && !Step(s, e).1.Panicked?
  {
    var next := Step(s, e).0;
    if s.store.state == Adopted {
      assert Releases(s) == {};
      assert Releases(next) == {e.caller};
    } else {
      assert Releases(next) == Releases(s);
    }
  }

  lemma FileStepKeeps(s: System, e: Event)
    requires Invariant(s) && (e.CheckOrphaned? || e.Read? || e.Write?) && Enabled(s, e)
    ensures Invariant(Step(s, e).0)
  {
    assert Releases(Step(s, e).0) == Releases(s);
  }

  lemma EndKeeps(s: System, e: Event)
    requires Invariant(s) && (e.Abort? || e.Commit?) && Enabled(s, e)
    ensures Invariant(Step(s, e).0)
    ensures e.Commit? ==> Step(s, e).1.ReleasedAs?
  {
    OneReleaseAtMost(s, e.caller);
    assert Releases(Step(s, e).0) == {};
  }

  lemma StepKeeps(s: System, e: Event)
    requires Invariant(s) && Enabled(s, e)
    ensures Invariant(Step(s, e).0)
    ensures !Step(s, e).1.Panicked?
    ensures e.Commit? ==> Step(s, e).1.ReleasedAs?
  {
    match e
    case Adopt(_, _, _) => AdoptKeeps(s, e);
    case Release(_) => ReleaseKeeps(s, e);
    case Claim(_) => ClaimKeeps(s, e);
    case CheckOrphaned(_) => FileStepKeeps(s, e);
    case Read(_, _) => FileStepKeeps(s, e);
    case Write(_, _) => FileStepKeeps(s, e);
    case Abort(_) => EndKeeps(s, e);
    case Commit(_, _) => EndKeeps(s, e);
  }

  /** In every run: the store is sound, its generation counts the completed cycles, releases in flight are one
      exactly while it is Releasing and hold the current manifest. */
  lemma {:induction false} EveryRunKeepsInvariant(s: System, events: seq<Event>, end: System)
    requires Invariant(s) && Run(s, events, end)
    ensures Invariant(end)
    decreases events
  {
    if events != [] {
      StepKeeps(s, events[0]);
      EveryRunKeepsInvariant(Step(s, events[0]).0, events[1..], end);
    }
  }

  /** The same for runs that start from a new store. */
  lemma ReachableStores(events: seq<Event>, s: System)
    requires Run(INITIAL, events, s)
    ensures |Releases(s)| == (if s.store.state == Releasing then 1 else 0)
    ensures s.store.generation == s.completed
    ensures s.store.state != Verified ==> s.store.manifest.Some? && Splits(s.store.manifest.value)
  {
    EveryRunKeepsInvariant(INITIAL, events, s);
  }

  /** Whatever happened before, the next step unwraps no missing manifest and a commit is never turned away; the
      manifest it reports is the one whose values were written back. */
  lemma EveryCommitSucceeds(events: seq<Event>, s: System, e: Event)
    requires Run(INITIAL, events, s) && Enabled(s, e)
    ensures !Step(s, e).1.Panicked?
    ensures e.Commit? ==>
              var used := s.stages[e.caller].manifest;
              Step(s, e).1 == ReleasedAs(used.(state := Released, releasedAt := Some(e.now), generation := used.generation + 1))
    ensures e.Commit? ==> Step(s, e).0.completed == s.completed + 1 && Step(s, e).0.store.state == Released
  {
    EveryRunKeepsInvariant(INITIAL, events, s);
    StepKeeps(s, e);
  }

  /** While a release is in flight, nobody else adopts, releases or claims. */
  lemma ReleaseExcludesOthers(events: seq<Event>, s: System, c: Caller, e: Event)
    requires Run(INITIAL, events, s) && c in Releases(s) && Enabled(s, e)
    requires e.Adopt? || e.Release? || e.Claim?
    ensures Step(s, e).1 == Refused(WrongState(Releasing))
    ensures Step(s, e).0.store == s.store && c in Releases(Step(s, e).0)
  {
    EveryRunKeepsInvariant(INITIAL, events, s);
    OneReleaseAtMost(s, c);
  }

  // ---- who owns the fields --------------------------------------------------------------------------------

  /** How many adoptions were accepted in the run of these events. */
  function Adoptions(s: System, events: seq<Event>): nat
    decreases events
  {
    if events == [] || !Enabled(s, events[0]) then 0
    else
      (if events[0].Adopt? && Step(s, events[0]).1.Silent? then 1 else 0) + Adoptions(Step(s, events[0]).0, events[1..])
  }

  /** The fields are in custody: adopted, and neither released nor given back. */
  predicate InCustody(s: System) {
    s.store.state in {Adopted, Releasing}
  }

  lemma CustodyStep(s: System, e: Event)
    requires Invariant(s) && Enabled(s, e)
    ensures var next := Step(s, e).0;
            next.completed + (if InCustody(next) then 1 else 0) ==
            s.completed + (if InCustody(s) then 1 else 0) + if e.Adopt? && Step(s, e).1.Silent? then 1 else 0
  {
    if e.Abort? || e.Commit? {
      OneReleaseAtMost(s, e.caller);
    }
  }

  lemma {:induction false} AdoptionsAreReleasedOrHeld(s: System, events: seq<Event>, end: System)
    requires Invariant(s) && Run(s, events, end)
    ensures end.completed + (if InCustody(end) then 1 else 0) ==
            s.completed + (if InCustody(s) then 1 else 0) + Adoptions(s, events)
    decreases events
  {
    if events != [] {
      CustodyStep(s, events[0]);
      StepKeeps(s, events[0]);
      AdoptionsAreReleasedOrHeld(Step(s, events[0]).0, events[1..], end);
    }
  }

  /** In every reachable state an adoption is accepted exactly when every accepted adoption before it was released; a
      release, or the claim of one, exactly when one was not and nobody is releasing it. */
  lemma AcceptedExactly(events: seq<Event>, s: System, e: Event)
    requires Run(INITIAL, events, s) && Enabled(s, e)
    ensures var held := Adoptions(INITIAL, events) - s.completed;
            && 0 <= held <= 1
            && (e.Adopt? ==> (Step(s, e).1.Silent? <==> held == 0))
            && (e.Release? ==> (Step(s, e).1.ReleasedAs? <==> held == 1 && Releases(s) == {}))
            && (e.Claim? ==> (Step(s, e).1.Silent? <==> held == 1 && Releases(s) == {}))
  {
    EveryRunKeepsInvariant(INITIAL, events, s);
    AdoptionsAreReleasedOrHeld(INITIAL, events, s);
  }

  /** An accepted adoption holds the fields and their values at that time until they are released. */
  lemma AdoptionIsRecorded(events: seq<Event>, s: System, e: Event)
    requires Run(INITIAL, events, s) && e.Adopt? && Step(s, e).1.Silent?
    ensures var m := Step(s, e).0.store.manifest;
            && m.Some? && m.value.managedFields == e.fields && m.value.generation == s.completed
            && m.value.adoptedAt == Some(e.now) && m.value.releasedAt.None?
            && (forall f :: f in e.fields && f in e.values ==> f in m.value.fieldSnapshots && m.value.fieldSnapshots[f] == e.values[f])
            && (forall f :: f in e.fields && f !in e.values ==> f in m.value.absentFields)
            && (forall f :: f in m.value.fieldSnapshots ==> f in e.fields) && forall f :: f in m.value.absentFields ==> f in e.fields
  {
    EveryRunKeepsInvariant(INITIAL, events, s);
    MissingExactly(e.fields, e.values);
  }
}
