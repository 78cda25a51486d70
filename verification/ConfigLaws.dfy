/** Normalising twice is normalising once and keeps every id working; without duplicate ids an id means one model. */
module ConfigLaws {
  import opened Config
  import opened TextOrder
  import opened Text
  import opened Wrappers

  // ---- blank text -----------------------------------------------------------------------------------------

  lemma {:induction false} TrimStartKeepsVisible(s: string, c: char)
    requires c in s && !IsWhitespace(c)
    ensures c in TrimStart(s)
    decreases s
  {
    if IsWhitespace(s[0]) {
      assert s == [s[0]] + s[1..];
      TrimStartKeepsVisible(s[1..], c);
    }
  }

  lemma {:induction false} TrimEndKeepsVisible(s: string, c: char)
    requires c in s && !IsWhitespace(c)
    ensures c in TrimEnd(s)
    decreases |s|
  {
    var n := |s| - 1;
    if IsWhitespace(s[n]) {
      assert s == s[..n] + [s[n]];
      TrimEndKeepsVisible(s[..n], c);
    }
  }

  lemma VisibleIsNotBlank(s: string, c: char)
    requires c in s && !IsWhitespace(c)
    ensures !Blank(s)
  {
    TrimStartKeepsVisible(s, c);
    TrimEndKeepsVisible(TrimStart(s), c);
  }

  lemma {:induction false} TrimStartEnds(s: string)
    ensures var t := TrimStart(s); (t == [] || !IsWhitespace(t[0])) && (forall c :: c in t ==> c in s)
    decreases s
  {
    if s != [] && IsWhitespace(s[0]) {
      TrimStartEnds(s[1..]);
    }
  }

  lemma {:induction false} TrimEndEnds(s: string)
    ensures var t := TrimEnd(s); (t == [] || !IsWhitespace(t[|t| - 1])) && t <= s
    decreases |s|
  {
    if s != [] && IsWhitespace(s[|s| - 1]) {
      TrimEndEnds(s[..|s| - 1]);
    }
  }

  /** What trimming leaves begins with a visible character, so it is not blank unless it is empty. */
  lemma TrimmedIsSolid(s: string)
    ensures Trim(s) != [] ==> !IsWhitespace(Trim(s)[0]) && !Blank(Trim(s))
  {
    TrimStartEnds(s);
    TrimEndEnds(TrimStart(s));
    if Trim(s) != [] {
      VisibleIsNotBlank(Trim(s), Trim(s)[0]);
    }
  }

  // ---- idempotence ----------------------------------------------------------------------------------------

  lemma {:induction false} WithoutMembers(aliases: seq<string>, exposed: string)
    ensures forall a :: a in Without(aliases, exposed) <==> a in aliases && !Blank(a) && a != exposed
    decreases aliases
  {
    if aliases != [] {
      WithoutMembers(aliases[1..], exposed);
      assert aliases == [aliases[0]] + aliases[1..];
    }
  }

  lemma {:induction false} WithoutKeepsAll(aliases: seq<string>, exposed: string)
    requires forall a :: a in aliases ==> !Blank(a) && a != exposed
    ensures Without(aliases, exposed) == aliases
    decreases aliases
  {
    if aliases != [] {
      assert aliases[0] in aliases;
      WithoutKeepsAll(aliases[1..], exposed);
      assert aliases == [aliases[0]] + aliases[1..];
    }
  }

  /** The tidy list holds exactly the usable ids the model answered to besides its own, in order, each once. */
  lemma TidyAliasesHold(m: ModelEntry)
    ensures IsAscending(TidyAliases(m))
    ensures forall a :: a in TidyAliases(m) <==>
              !Blank(a) && a != ExposedId(m) && (a in m.aliases || NewAlias(m) == Some(a))
  {
    var all := m.aliases + if NewAlias(m).Some? then [NewAlias(m).value] else [];
    WithoutMembers(all, ExposedId(m));
    AscendingSorts(Without(all, ExposedId(m)));
  }

  lemma TidyModelStays(m: ModelEntry)
    ensures TidyModel(TidyModel(m)) == TidyModel(m) && NewAlias(TidyModel(m)).None?
  {
    var t := TidyModel(m);
    TidyAliasesHold(m);
    WithoutKeepsAll(t.aliases, ExposedId(t));
    AscendingStays(t.aliases);
    assert t.aliases + [] == t.aliases;
  }

  lemma {:induction false} NoNotes(models: seq<ModelEntry>)
    requires forall i :: 0 <= i < |models| ==> NewAlias(models[i]).None?
    ensures NotesOf(models) == []
  {
    if models != [] {
      NoNotes(models[1..]);
    }
  }

  lemma BudgetIdIsNotBlank(drawn: string)
    ensures !Blank("budget_" + drawn)
  {
    assert ("budget_" + drawn)[0] == 'b';
    VisibleIsNotBlank("budget_" + drawn, 'b');
  }

  /** Normalising again changes nothing, draws nothing and has nothing to say. */
  lemma NormaliseIsIdempotent(c: AppConfig, drawn: nat -> string, again: nat -> string)
    ensures Normalised(Normalised(c, drawn), again) == Normalised(c, drawn)
    ensures NotesOf(Normalised(c, drawn).models) == []
  {
    var n := Normalised(c, drawn);
    forall i | 0 <= i < |c.models|
      ensures TidyModel(n.models[i]) == n.models[i] && NewAlias(n.models[i]).None?
    {
      TidyModelStays(c.models[i]);
    }
    NoNotes(n.models);
    assert TidyModels(n.models) == n.models;
    forall i | 0 <= i < |c.budgetIds|
      ensures !Blank(n.budgetIds[i])
    {
      BudgetIdIsNotBlank(drawn(i));
    }
    assert TidyBudgets(n.budgetIds, again) == n.budgetIds;
  }

  // ---- ids keep working -----------------------------------------------------------------------------------

  lemma ExposedIsNotBlank(m: ModelEntry)
    ensures !Blank(ExposedId(m))
  {
    var dash := |Trim(m.providerId)|;
    assert ExposedId(m)[dash] == '-';
    VisibleIsNotBlank(ExposedId(m), '-');
  }

  lemma NewAliasExactly(m: ModelEntry, id: string)
    ensures NewAlias(m) == Some(id) <==>
            m.legacyId.Some? && Trim(m.legacyId.value) == id && id != [] && id != ExposedId(m) && id !in m.aliases
  {
  }

  /** After normalising a model answers to exactly the usable ids it answered to before, and to its legacy id. */
  lemma SameIdsAnswered(m: ModelEntry, id: string)
    ensures AnswersTo(TidyModel(m), id) <==>
            !Blank(id) && (AnswersTo(m, id) || (m.legacyId.Some? && Trim(m.legacyId.value) == id))
  {
    TidyAliasesHold(m);
    ExposedIsNotBlank(m);
    NewAliasExactly(m, id);
    if m.legacyId.Some? {
      TrimmedIsSolid(m.legacyId.value);
    }
    assert ExposedId(TidyModel(m)) == ExposedId(m) && Blank([]);
  }

  // ---- what an id means -----------------------------------------------------------------------------------

  lemma {:induction false} TimesPositive(id: string, ids: seq<string>)
    ensures Times(id, ids) > 0 <==> id in ids
    decreases ids
  {
    if ids != [] {
      TimesPositive(id, ids[1..]);
      assert ids == [ids[0]] + ids[1..];
    }
  }

  lemma AnswersWhenClaimed(m: ModelEntry, id: string)
    ensures AnswersTo(m, id) <==> Times(id, IdsOf(m)) > 0
  {
    TimesPositive(id, IdsOf(m));
  }

  lemma FirstClaims(models: seq<ModelEntry>, id: string)
    requires models != [] && AnswersTo(models[0], id)
    ensures Claims(models, id) >= 1 + Claims(models[1..], id)
  {
    AnswersWhenClaimed(models[0], id);
  }

  lemma {:induction false} ClaimsAtLeast(models: seq<ModelEntry>, id: string, i: nat)
    requires i < |models| && AnswersTo(models[i], id)
    ensures Claims(models, id) >= 1
    decreases models
  {
    if i > 0 {
      ClaimsAtLeast(models[1..], id, i - 1);
    } else {
      FirstClaims(models, id);
    }
  }

  lemma {:induction false} TwoAnswersAreTwoClaims(models: seq<ModelEntry>, id: string, i: nat, j: nat)
    requires i < j < |models| && AnswersTo(models[i], id) && AnswersTo(models[j], id)
    ensures Claims(models, id) >= 2
    decreases models
  {
    if i > 0 {
      TwoAnswersAreTwoClaims(models[1..], id, i - 1, j - 1);
    } else {
      FirstClaims(models, id);
      LaterClaims(models, id, j);
    }
  }

  lemma LaterClaims(models: seq<ModelEntry>, id: string, j: nat)
    requires 0 < j < |models| && AnswersTo(models[j], id)
    ensures Claims(models[1..], id) >= 1
  {
    ClaimsAtLeast(models[1..], id, j - 1);
  }

  /** No two models of the list answer to one id. */
  ghost predicate Unambiguous(models: seq<ModelEntry>) {
    forall id, i, j :: 0 <= i < j < |models| ==> !(AnswersTo(models[i], id) && AnswersTo(models[j], id))
  }

  lemma {:induction false} AscendingHasOnce(id: string, ids: seq<string>)
    requires IsAscending(ids)
    ensures Times(id, ids) <= 1
    decreases ids
  {
    if ids != [] {
      AscendingHasOnce(id, ids[1..]);
      TimesPositive(id, ids[1..]);
    }
  }

  lemma TidyClaimsOnce(m: ModelEntry, id: string)
    ensures Times(id, IdsOf(TidyModel(m))) <= 1
  {
    var t := TidyModel(m);
    TidyAliasesHold(m);
    AscendingHasOnce(id, t.aliases);
    TimesPositive(id, t.aliases);
    assert IdsOf(t)[1..] == t.aliases;
  }

  lemma {:induction false} SomeModelClaims(models: seq<ModelEntry>, id: string) returns (i: nat)
    requires Claims(models, id) > 0
    ensures i < |models| && AnswersTo(models[i], id)
    decreases models
  {
    AnswersWhenClaimed(models[0], id);
    i := 0;
    if !AnswersTo(models[0], id) {
      var k := SomeModelClaims(models[1..], id);
      i := k + 1;
    }
  }

  lemma {:induction false} OneAnswerIsOneClaim(models: seq<ModelEntry>, id: string)
    requires forall i :: 0 <= i < |models| ==> Times(id, IdsOf(models[i])) <= 1
    requires Claims(models, id) >= 2
    ensures exists i, j :: 0 <= i < j < |models| && AnswersTo(models[i], id) && AnswersTo(models[j], id)
    decreases models
  {
    AnswersWhenClaimed(models[0], id);
    var rest := models[1..];
    if AnswersTo(models[0], id) {
      var k := SomeModelClaims(rest, id);
      assert AnswersTo(models[k + 1], id);
    } else {
      OneAnswerIsOneClaim(rest, id);
      var i, j :| 0 <= i < j < |rest| && AnswersTo(rest[i], id) && AnswersTo(rest[j], id);
      assert AnswersTo(models[i + 1], id) && AnswersTo(models[j + 1], id);
    }
  }

  /** A list without reported duplicates is unambiguous; for a normalised list the two are the same. */
  lemma NoDuplicatesMeansUnambiguous(models: seq<ModelEntry>)
    ensures NoDuplicates(models) ==> Unambiguous(models)
    ensures NoDuplicates(TidyModels(models)) <==> Unambiguous(TidyModels(models))
  {
    if NoDuplicates(models) {
      ClaimedOnceAnsweredOnce(models);
    }
    var tidy := TidyModels(models);
    if NoDuplicates(tidy) {
      ClaimedOnceAnsweredOnce(tidy);
    }
    if Unambiguous(tidy) {
      forall id
        ensures Claims(tidy, id) <= 1
      {
        forall i | 0 <= i < |tidy|
          ensures Times(id, IdsOf(tidy[i])) <= 1
        {
          TidyClaimsOnce(models[i], id);
        }
        if Claims(tidy, id) >= 2 {
          OneAnswerIsOneClaim(tidy, id);
        }
      }
    }
  }

  lemma ClaimedOnceAnsweredOnce(models: seq<ModelEntry>)
    requires NoDuplicates(models)
    ensures Unambiguous(models)
  {
    forall id, i, j | 0 <= i < j < |models| && AnswersTo(models[i], id)
      ensures !AnswersTo(models[j], id)
    {
      if AnswersTo(models[j], id) {
        TwoAnswersAreTwoClaims(models, id, i, j);
      }
    }
  }

  lemma {:induction false} FindFirst(models: seq<ModelEntry>, id: string)
    ensures Find(models, id).Some? ==> Find(models, id).value in models && AnswersTo(Find(models, id).value, id)
    ensures Find(models, id).None? ==> forall m :: m in models ==> !AnswersTo(m, id)
    decreases models
  {
    if models != [] {
      FindFirst(models[1..], id);
      assert models == [models[0]] + models[1..];
    }
  }

  /** Without duplicate ids the order of the list does not change what an id resolves to. */
  lemma FindIgnoresOrder(xs: seq<ModelEntry>, ys: seq<ModelEntry>, id: string)
    requires NoDuplicates(xs) && multiset(xs) == multiset(ys)
    ensures Find(xs, id) == Find(ys, id)
  {
    FindFirst(xs, id);
    FindFirst(ys, id);
    ClaimedOnceAnsweredOnce(xs);
    forall m
      ensures m in xs <==> m in ys
    {
      assert m in xs <==> m in multiset(xs);
      assert m in ys <==> m in multiset(ys);
    }
    if Find(xs, id).Some? {
      var a, b := Find(xs, id).value, Find(ys, id).value;
      assert a in xs && b in xs;
      var i :| 0 <= i < |xs| && xs[i] == a;
      var j :| 0 <= j < |xs| && xs[j] == b;
      assert !(i < j) && !(j < i);
    }
  }

  // ---- what an id resolves to after normalising -----------------------------------------------------------

  /** The index of the model an id resolves to. */
  function FirstToAnswer(models: seq<ModelEntry>, id: string): (i: Option<nat>)
    ensures i.Some? ==>
              && i.value < |models| && AnswersTo(models[i.value], id)
              && forall k :: 0 <= k < i.value ==> !AnswersTo(models[k], id)
    ensures i.None? ==> forall k :: 0 <= k < |models| ==> !AnswersTo(models[k], id)
    decreases models
  {
    if models == [] then None
    else if AnswersTo(models[0], id) then Some(0)
    else
      var later := FirstToAnswer(models[1..], id);
      if later.None? then None else Some(later.value + 1)
  }

  lemma {:induction false} FindIsFirst(models: seq<ModelEntry>, id: string)
    ensures var i := FirstToAnswer(models, id);
            Find(models, id) == if i.Some? then Some(models[i.value]) else None
    decreases models
  {
    if models != [] && !AnswersTo(models[0], id) {
      FindIsFirst(models[1..], id);
      var later := FirstToAnswer(models[1..], id);
      assert later.Some? ==> models[1..][later.value] == models[later.value + 1];
    }
  }

  /** The id this entry had before ids were derived. */
  predicate WasCalled(m: ModelEntry, id: string) {
    m.legacyId.Some? && Trim(m.legacyId.value) == id
  }

  /** An id that resolved to the `i`-th model still resolves to it after normalising if and only if no earlier model
      was called that once. */
  lemma ResolvesAsBeforeExactly(models: seq<ModelEntry>, id: string, i: nat)
    requires !Blank(id) && FirstToAnswer(models, id) == Some(i)
    ensures FirstToAnswer(TidyModels(models), id) == Some(i) <==> forall k :: 0 <= k < i ==> !WasCalled(models[k], id)
    ensures (forall k :: 0 <= k < i ==> !WasCalled(models[k], id)) ==>
              Find(models, id) == Some(models[i]) && Find(TidyModels(models), id) == Some(TidyModel(models[i]))
  {
    var tidy := TidyModels(models);
    forall k | 0 <= k <= i
      ensures AnswersTo(tidy[k], id) <==> k == i || WasCalled(models[k], id)
    {
      SameIdsAnswered(models[k], id);
    }
    FindIsFirst(models, id);
    FindIsFirst(tidy, id);
  }

  /** An id nothing answered to resolves to the first model that was called that once, if there is one. */
  lemma LegacyIdResolves(models: seq<ModelEntry>, id: string)
    requires !Blank(id) && FirstToAnswer(models, id).None?
    ensures FirstToAnswer(TidyModels(models), id).Some? <==> exists k :: 0 <= k < |models| && WasCalled(models[k], id)
    ensures FirstToAnswer(TidyModels(models), id).Some? ==>
              var i := FirstToAnswer(TidyModels(models), id).value;
              i < |models| && WasCalled(models[i], id) && forall k :: 0 <= k < i ==> !WasCalled(models[k], id)
  {
    var tidy := TidyModels(models);
    forall k | 0 <= k < |models|
      ensures AnswersTo(tidy[k], id) <==> WasCalled(models[k], id)
    {
      SameIdsAnswered(models[k], id);
    }
  }

  /** A normalised list without reported duplicates resolves every usable id to the model it meant before. */
  lemma CleanListResolvesAsBefore(models: seq<ModelEntry>, id: string)
    requires NoDuplicates(TidyModels(models)) && !Blank(id) && Find(models, id).Some?
    ensures Find(TidyModels(models), id) == Some(TidyModel(Find(models, id).value))
  {
    FindIsFirst(models, id);
    var i := FirstToAnswer(models, id).value;
    var tidy := TidyModels(models);
    ClaimedOnceAnsweredOnce(tidy);
    SameIdsAnswered(models[i], id);
    forall k | 0 <= k < i
      ensures !WasCalled(models[k], id)
    {
      SameIdsAnswered(models[k], id);
      assert AnswersTo(tidy[i], id);
      assert !AnswersTo(tidy[k], id);
    }
    ResolvesAsBeforeExactly(models, id, i);
  }

  function Entry(providerId: string, upstreamModel: string, legacyId: Option<string>, aliases: seq<string>): ModelEntry {
    ModelEntry(providerId, upstreamModel, legacyId, aliases, NO_CAPABILITIES, false, false, false)
  }

  /** A legacy id can take an alias over from a later model. */
  lemma LegacyIdCanTakeOver()
    ensures var a, b := Entry("p", "a", Some("x"), []), Entry("q", "b", None, ["x"]);
            Find([a, b], "x") == Some(b) && Find(TidyModels([a, b]), "x") == Some(TidyModel(a)) && a != b
  {
    var a, b := Entry("p", "a", Some("x"), []), Entry("q", "b", None, ["x"]);
    var models := [a, b];
    assert Trim("x") == "x" && Trim("p") == "p" && Trim("a") == "a" && Trim("q") == "q" && Trim("b") == "b";
    assert |ExposedId(a)| == 3 && |ExposedId(b)| == 3;
    assert AnswersTo(b, "x") && !AnswersTo(a, "x");
    assert models[1..] == [b];
    SameIdsAnswered(a, "x");
    assert TidyModels(models)[0] == TidyModel(a);
  }

  // ---- the naming rule ------------------------------------------------------------------------------------

  /** One upstream model offered by two providers is told apart exactly when the trimmed provider ids still differ
      once the characters an id may not hold have become hyphens. */
  lemma SameModelToldApart(p: string, q: string, m: string)
    ensures QualifiedId(p, m) == QualifiedId(q, m) <==> Sanitised(Trim(p)) == Sanitised(Trim(q))
  {
    var tail := "-" + Sanitised(Trim(m));
    SuffixCancels(Sanitised(Trim(p)), Sanitised(Trim(q)), tail);
    assert QualifiedId(p, m) == Sanitised(Trim(p)) + tail;
    assert QualifiedId(q, m) == Sanitised(Trim(q)) + tail;
  }

  lemma SuffixCancels(a: string, b: string, tail: string)
    ensures a + tail == b + tail <==> a == b
  {
    if a + tail == b + tail {
      assert |a| == |b|;
      assert (a + tail)[..|a|] == a && (b + tail)[..|b|] == b;
    }
  }

  /** Different models can still share an id; only the duplicate check catches that. */
  lemma IdsCanCollide()
    ensures QualifiedId("a-b", "c") == QualifiedId("a", "b-c")
  {
  }

  // ---- what an older document asked for -------------------------------------------------------------------

  /** A setting under its older name decides, whatever stands under the newer one; without it the newer one does. */
  lemma OlderRoutingNamesWin(r: Routing, threshold: nat, timeout: nat)
    ensures TidyRouting(r).breakAfterFailures.None? && TidyRouting(r).cooldownSecs.None?
    ensures r.breakAfterFailures == Some(threshold) ==> TidyRouting(r).failureThreshold == threshold
    ensures r.breakAfterFailures.None? && r.failureThreshold == threshold ==> TidyRouting(r).failureThreshold == threshold
    ensures r.cooldownSecs == Some(timeout) ==> TidyRouting(r).timeoutSecs == timeout
    ensures r.cooldownSecs.None? && r.timeoutSecs == timeout ==> TidyRouting(r).timeoutSecs == timeout
  {
  }

  /** A model declares a capability afterwards exactly when it did before: in today's fields if it used any, and else in
      the three older ones; and the older ones are gone. */
  lemma CapabilitiesAreKept(m: ModelEntry)
    ensures m.capabilities != NO_CAPABILITIES ==> TidyModel(m).capabilities == m.capabilities
    ensures m.capabilities == NO_CAPABILITIES ==>
              var c := TidyModel(m).capabilities;
              && (c.tools <==> m.supportsTools) && (c.vision <==> m.supportsVision) && (c.thinking <==> m.supportsThinking)
              && !c.structuredOutput && !c.audio && !c.video && !c.files
    ensures !TidyModel(m).supportsTools && !TidyModel(m).supportsVision && !TidyModel(m).supportsThinking
    ensures TidyModel(m).legacyId.None?
  {
  }

  /** The notes name exactly the ids that moved: a usable legacy id its model did not answer to, and what the model is
      exposed as. */
  lemma {:induction false} NotesNameWhatMoved(models: seq<ModelEntry>, note: Note)
    ensures note in NotesOf(models) <==>
            exists m :: m in models && m.legacyId.Some? && Trim(m.legacyId.value) == note.legacy != []
                        && !AnswersTo(m, note.legacy) && ExposedId(m) == note.exposed
    decreases models
  {
    if models != [] {
      var m := models[0];
      NotesNameWhatMoved(models[1..], note);
      NewAliasExactly(m, note.legacy);
      assert models == [m] + models[1..];
      assert m in models && forall x :: x in models[1..] ==> x in models;
    }
  }

  /** Names of allowed characters are joined as they are; every other character becomes a hyphen. */
  lemma TidyNamesAreJoined(providerId: string, upstreamModel: string, i: nat)
    ensures var name := Trim(providerId) + "-" + Trim(upstreamModel);
            && |QualifiedId(providerId, upstreamModel)| == |name|
            && (i < |name| ==>
                  QualifiedId(providerId, upstreamModel)[i] ==
                  if IsAsciiAlphanumeric(name[i]) || name[i] in {'.', '_', '-'} then name[i] else '-')
  {
  }
}
