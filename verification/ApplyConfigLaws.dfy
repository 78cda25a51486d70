/** What a change of the configuration depends on, and what it and a removal leave alone. */
module ApplyConfigLaws {
  import opened ApplyConfig
  import opened Config
  import opened Wrappers

  // ---- the token ------------------------------------------------------------------------------------------

  /** A token that is given takes effect, a blank one means the old one, and no other setting depends on that. */
  lemma BlankTokenKeepsTheOldOne(next: AppConfig, previous: AppConfig, drawn: nat -> string)
    ensures var e := Effective(next, previous, drawn);
            && (Blank(next.server.authToken) ==> e.server.authToken == previous.server.authToken)
            && (!Blank(next.server.authToken) ==> e.server.authToken == next.server.authToken)
            && e.(server := e.server.(authToken := next.server.authToken)) == Normalised(next, drawn)
  {
  }

  // ---- what the environment is asked ----------------------------------------------------------------------

  /** Port 0 is not probed; an address that stays is neither probed nor bound; a stopped gateway stays stopped, so nothing
      is bound for it; and what a failed bind leads to does not matter when the bind succeeds. */
  lemma AnswersNotAskedFor(effective: AppConfig, previous: AppConfig, running: bool, a: Answers, b: Answers)
    requires a.problem == b.problem && a.save == b.save
    ensures effective.server.port == 0 && a.(probe := b.probe) == b ==>
              Outcome(effective, previous, running, a) == Outcome(effective, previous, running, b)
    ensures !NeedsRebind(previous.server, effective.server) ==>
              Outcome(effective, previous, running, a) == Outcome(effective, previous, running, b)
    ensures !running && a.probe == b.probe ==> Outcome(effective, previous, running, a) == Outcome(effective, previous, running, b)
    ensures a.probe == b.probe && a.bind.Some? && b.bind.Some? ==>
              Outcome(effective, previous, running, a) == Outcome(effective, previous, running, b)
  {
  }

  /** A change takes effect only if it was valid and saved; an address that a probe refuses, or a running gateway that
      cannot be bound to, never does, unless the address is not new or its port is free to choose. */
  lemma TakesEffectOnlyWhen(effective: AppConfig, previous: AppConfig, running: bool, a: Answers)
    ensures Outcome(effective, previous, running, a).Success? <==>
            && a.problem(effective).None? && a.save
            && (NeedsRebind(previous.server, effective.server) ==>
                  (effective.server.port == 0 || a.probe) && (running ==> a.bind.Some?))
    ensures Outcome(effective, previous, running, a).Success? ==>
              Outcome(effective, previous, running, a).value == NeedsRebind(previous.server, effective.server)
  {
  }

  // ---- removing a provider --------------------------------------------------------------------------------

  /** Exactly the models of the removed provider go. */
  lemma {:induction false} OtherModelsStay(models: seq<ModelEntry>, id: string, m: ModelEntry)
    ensures multiset(OtherModels(models, id))[m] == if m.providerId == id then 0 else multiset(models)[m]
    decreases models
  {
    if models != [] {
      var first, rest := models[0], OtherModels(models[1..], id);
      OtherModelsStay(models[1..], id, m);
      assert models == [first] + models[1..];
      assert multiset(models)[m] == multiset(models[1..])[m] + if first == m then 1 else 0;
      if first.providerId == id {
        assert [] + rest == rest;
      }
    }
  }

  /** The models that stay keep their order. */
  lemma {:induction false} OtherModelsInOrder(front: seq<ModelEntry>, back: seq<ModelEntry>, id: string)
    ensures OtherModels(front + back, id) == OtherModels(front, id) + OtherModels(back, id)
    decreases front
  {
    if front == [] {
      assert front + back == back;
    } else {
      assert (front + back)[1..] == front[1..] + back;
      OtherModelsInOrder(front[1..], back, id);
    }
  }

  /** An id that a model of another provider answers first resolves to the same model after the removal. */
  lemma {:induction false} OtherIdsResolve(models: seq<ModelEntry>, provider: string, id: string)
    requires Find(models, id).Some? && Find(models, id).value.providerId != provider
    ensures Find(OtherModels(models, provider), id) == Find(models, id)
    decreases models
  {
    if !AnswersTo(models[0], id) {
      OtherIdsResolve(models[1..], provider, id);
    }
    var rest := OtherModels(models[1..], provider);
    assert OtherModels(models, provider) == (if models[0].providerId != provider then [models[0]] else []) + rest;
    assert ([models[0]] + rest)[1..] == rest && [] + rest == rest;
  }

  // ---- what is left behind --------------------------------------------------------------------------------

  /** A document that agreed with memory before a change agrees afterwards, unless the change was taken back and the
      save that should have undone it failed. */
  lemma DocumentFallsBehindExactly(effective: AppConfig, previous: AppConfig, running: bool, a: Answers)
    ensures var result := Outcome(effective, previous, running, a);
            SavedAfter(result, effective, previous, previous, a.undoSave) == (if result.Success? then effective else previous) <==>
            !(result.Failure? && result.error.Reverted? && !a.undoSave && effective != previous)
  {
  }

  /** A success clears the warning, a refused address or a change taken back sets it, and nothing else touches it. */
  lemma WarningsFollowOutcomes(result: Result<bool, ApplyError>, warning: Option<Warning>)
    ensures result.Success? ==> WarningAfter(result, warning).None?
    ensures result.Failure? && result.error.AddressRefused? ==>
              WarningAfter(result, warning) == Some(RefusedAddress(result.error.wasRunning))
    ensures result.Failure? && result.error.Reverted? ==>
              WarningAfter(result, warning) == Some(RevertedChange(result.error.restored))
    ensures result.Failure? && (result.error.Invalid? || result.error.NotSaved?) ==> WarningAfter(result, warning) == warning
  {
  }

  // ---- listeners ------------------------------------------------------------------------------------------

  /** A started listener serves the settings it was started on, and settings with a port of their own are served by that
      listener alone. */
  lemma OneListenerServes(s: Server, free: nat, l: Listener)
    ensures Serves(Listen(s, free), s) && (s.port == 0 ==> Listen(s, free).port == free)
    ensures s.port != 0 ==> (Serves(l, s) <==> l == Listen(s, free))
  {
  }
}
