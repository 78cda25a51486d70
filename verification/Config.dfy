/** The configuration document: which ids a model answers to, and how an old document is folded into today's shape. */
module Config {
  import opened TextOrder
  import opened Text
  import opened Wrappers

  datatype Server = Server(
    host: string,
    port: nat,
    allowCors: bool,
    corsOrigins: seq<string>,
    maxBodyMib: nat,
    authToken: string,
    bypassProxy: bool)

  datatype Capabilities = Capabilities(
    vision: bool,
    tools: bool,
    thinking: bool,
    structuredOutput: bool,
    audio: bool,
    video: bool,
    files: bool)

  const NO_CAPABILITIES := Capabilities(false, false, false, false, false, false, false)

  datatype ModelEntry = ModelEntry(
    providerId: string,
    upstreamModel: string,
    legacyId: Option<string>,
    aliases: seq<string>,
    capabilities: Capabilities,
    supportsTools: bool,
    supportsVision: bool,
    supportsThinking: bool)

  datatype Routing = Routing(
    failureThreshold: nat,
    timeoutSecs: nat,
    breakAfterFailures: Option<nat>,
    cooldownSecs: Option<nat>)

  datatype Provider = Provider(id: string, baseUrl: string, keyRef: string)

  datatype AppConfig = AppConfig(
    server: Server,
    routing: Routing,
    keepInTray: bool,
    providers: seq<Provider>,
    models: seq<ModelEntry>,
    budgetIds: seq<string>)

  // ---- ids ------------------------------------------------------------------------------------------------

  function IdChar(c: char): char {
    if IsAsciiAlphanumeric(c) || c in {'.', '_', '-'} then c else '-'
  }

  function Sanitised(s: string): (r: string)
    ensures |r| == |s|
  {
    seq(|s|, i requires 0 <= i < |s| => IdChar(s[i]))
  }

  function QualifiedId(providerId: string, upstreamModel: string): string {
    Sanitised(Trim(providerId) + "-" + Trim(upstreamModel))
  }

  function ExposedId(m: ModelEntry): string {
    QualifiedId(m.providerId, m.upstreamModel)
  }

  predicate AnswersTo(m: ModelEntry, id: string) {
    ExposedId(m) == id || id in m.aliases
  }

  /** The first model that answers. */
  function Find(models: seq<ModelEntry>, id: string): Option<ModelEntry> {
    if models == [] then None
    else if AnswersTo(models[0], id) then Some(models[0])
    else Find(models[1..], id)
  }

  // ---- normalising ----------------------------------------------------------------------------------------

  predicate Blank(s: string) {
    Trim(s) == []
  }

  /** `legacy` is now exposed as `exposed`. */
  datatype Note = Note(legacy: string, exposed: string)

  /** The alias a legacy id becomes, if it is one. */
  function NewAlias(m: ModelEntry): Option<string> {
    if m.legacyId.None? then None
    else
      var legacy := Trim(m.legacyId.value);
      if legacy == [] || legacy == ExposedId(m) || legacy in m.aliases then None else Some(legacy)
  }

  function Without(aliases: seq<string>, exposed: string): seq<string> {
    if aliases == [] then []
    else (if !Blank(aliases[0]) && aliases[0] != exposed then [aliases[0]] else []) + Without(aliases[1..], exposed)
  }

  function TidyAliases(m: ModelEntry): seq<string> {
    var all := m.aliases + if NewAlias(m).Some? then [NewAlias(m).value] else [];
    Ascending(Without(all, ExposedId(m)))
  }

  function TidyCapabilities(m: ModelEntry): Capabilities {
    if m.capabilities == NO_CAPABILITIES && (m.supportsTools || m.supportsVision || m.supportsThinking) then
      m.capabilities.(tools := m.supportsTools, vision := m.supportsVision, thinking := m.supportsThinking)
    else
      m.capabilities
  }

  function TidyModel(m: ModelEntry): ModelEntry {
    ModelEntry(m.providerId, m.upstreamModel, None, TidyAliases(m), TidyCapabilities(m), false, false, false)
  }

  function TidyModels(models: seq<ModelEntry>): seq<ModelEntry> {
    seq(|models|, i requires 0 <= i < |models| => TidyModel(models[i]))
  }

  function NoteOf(m: ModelEntry): Option<Note> {
    if NewAlias(m).Some? then Some(Note(NewAlias(m).value, ExposedId(m))) else None
  }

  function Listed(note: Option<Note>): seq<Note> {
    if note.Some? then [note.value] else []
  }

  function NotesOf(models: seq<ModelEntry>): seq<Note> {
    if models == [] then [] else Listed(NoteOf(models[0])) + NotesOf(models[1..])
  }

  function TidyRouting(r: Routing): Routing {
    Routing(r.breakAfterFailures.GetOr(r.failureThreshold), r.cooldownSecs.GetOr(r.timeoutSecs), None, None)
  }

  /** Blank budget ids get a generated one; `drawn` is what the generator would draw. */
  function TidyBudgets(ids: seq<string>, drawn: nat -> string): seq<string> {
    seq(|ids|, i requires 0 <= i < |ids| => if Blank(ids[i]) then "budget_" + drawn(i) else ids[i])
  }

  function Normalised(c: AppConfig, drawn: nat -> string): AppConfig {
    AppConfig(c.server, TidyRouting(c.routing), c.keepInTray, c.providers, TidyModels(c.models), TidyBudgets(c.budgetIds, drawn))
  }

  lemma ListedFirst(before: seq<Note>, note: Option<Note>, after: seq<Note>)
    ensures note.Some? ==> before + [note.value] + after == before + (Listed(note) + after)
    ensures note.None? ==> before + after == before + (Listed(note) + after)
  {
  }

  lemma NotesFrom(models: seq<ModelEntry>, i: nat)
    requires i < |models|
    ensures NotesOf(models[i..]) == Listed(NoteOf(models[i])) + NotesOf(models[i + 1..])
  {
    var rest := models[i..];
    assert rest[1..] == models[i + 1..] && rest[0] == models[i];
  }

  method ApplyLegacy(routing: Routing) returns (r: Routing)
    ensures r == TidyRouting(routing)
  {
    r := routing;
    if r.breakAfterFailures.Some? {
      r := r.(failureThreshold := r.breakAfterFailures.value, breakAfterFailures := None);
    }
    if r.cooldownSecs.Some? {
      r := r.(timeoutSecs := r.cooldownSecs.value, cooldownSecs := None);
    }
  }

  method NormaliseModel(model: ModelEntry) returns (m: ModelEntry, note: Option<Note>)
    ensures m == TidyModel(model) && note == NoteOf(model)
  {
    m := model;
    note := None;
    var exposed := QualifiedId(m.providerId, m.upstreamModel);
    if m.legacyId.Some? {
      var legacy := Trim(m.legacyId.value);
      m := m.(legacyId := None);
      if legacy != [] && legacy != exposed && legacy !in m.aliases {
        m := m.(aliases := m.aliases + [legacy]);
        note := Some(Note(legacy, exposed));
      }
    }
    assert note.None? ==> m.aliases == model.aliases + [];
    m := m.(aliases := Ascending(Without(m.aliases, exposed)));
    if m.capabilities == NO_CAPABILITIES && (m.supportsTools || m.supportsVision || m.supportsThinking) {
      m := m.(capabilities := m.capabilities.(tools := m.supportsTools, vision := m.supportsVision, thinking := m.supportsThinking));
    }
    m := m.(supportsTools := false, supportsVision := false, supportsThinking := false);
  }

  method NormaliseModels(given: seq<ModelEntry>) returns (models: seq<ModelEntry>, notes: seq<Note>)
    ensures models == TidyModels(given) && notes == NotesOf(given)
  {
    notes := [];
    models := given;
    assert given[0..] == given;
    for i := 0 to |models|
      invariant |models| == |given|
      invariant forall k :: 0 <= k < i ==> models[k] == TidyModel(given[k])
      invariant forall k :: i <= k < |given| ==> models[k] == given[k]
      invariant notes + NotesOf(given[i..]) == NotesOf(given)
    {
      var m, note := NormaliseModel(models[i]);
      models := models[i := m];
      NotesFrom(given, i);
      ListedFirst(notes, note, NotesOf(given[i + 1..]));
      if note.Some? {
        notes := notes + [note.value];
      }
    }
  }

  /** Folds an older document into today's shape, with a note for every id that moved. */
  method Normalise(config: AppConfig, drawn: nat -> string) returns (c: AppConfig, notes: seq<Note>)
    ensures c == Normalised(config, drawn) && notes == NotesOf(config.models)
  {
    var routing := ApplyLegacy(config.routing);
    var models;
    models, notes := NormaliseModels(config.models);
    var budgetIds := config.budgetIds;
    for i := 0 to |budgetIds|
      invariant |budgetIds| == |config.budgetIds|
      invariant forall k :: 0 <= k < i ==> budgetIds[k] == TidyBudgets(config.budgetIds, drawn)[k]
      invariant forall k :: i <= k < |budgetIds| ==> budgetIds[k] == config.budgetIds[k]
    {
      if Blank(budgetIds[i]) {
        budgetIds := budgetIds[i := "budget_" + drawn(i)];
      }
    }
    assert budgetIds == TidyBudgets(config.budgetIds, drawn);
    c := AppConfig(config.server, routing, config.keepInTray, config.providers, models, budgetIds);
  }

  // ---- counting ids ---------------------------------------------------------------------------------------

  function Times(id: string, ids: seq<string>): nat {
    if ids == [] then 0 else (if ids[0] == id then 1 else 0) + Times(id, ids[1..])
  }

  function IdsOf(m: ModelEntry): seq<string> {
    [ExposedId(m)] + m.aliases
  }

  /** How many times an id is claimed. */
  function Claims(models: seq<ModelEntry>, id: string): nat {
    if models == [] then 0 else Times(id, IdsOf(models[0])) + Claims(models[1..], id)
  }

  /** No id is reported as a duplicate. */
  ghost predicate NoDuplicates(models: seq<ModelEntry>) {
    forall id :: Claims(models, id) <= 1
  }

  function Count(seen: map<string, nat>, id: string): nat {
    if id in seen then seen[id] else 0
  }

  method CountOnce(seen: map<string, nat>, id: string) returns (more: map<string, nat>)
    ensures forall x :: Count(more, x) == Count(seen, x) + if x == id then 1 else 0
  {
    more := seen[id := Count(seen, id) + 1];
  }

  /** The ids the validation reports as duplicates, with how often each is claimed. */
  method DuplicateIds(models: seq<ModelEntry>) returns (duplicates: map<string, nat>)
    ensures forall id :: id in duplicates <==> Claims(models, id) > 1
    ensures forall id :: id in duplicates ==> duplicates[id] == Claims(models, id)
  {
    var seen: map<string, nat> := map[];
    for i := 0 to |models|
      invariant forall id :: Count(seen, id) + Claims(models[i..], id) == Claims(models, id)
    {
      var m := models[i];
      assert models[i..][1..] == models[i + 1..];
      ghost var before := seen;
      seen := CountOnce(seen, ExposedId(m));
      assert IdsOf(m)[1..] == m.aliases;
      for k := 0 to |m.aliases|
        invariant forall id :: Count(seen, id) + Times(id, m.aliases[k..]) == Count(before, id) + Times(id, IdsOf(m))
      {
        assert m.aliases[k..][1..] == m.aliases[k + 1..];
        seen := CountOnce(seen, m.aliases[k]);
      }
    }
    duplicates := map id | id in seen && seen[id] > 1 :: seen[id];
    assert forall id :: Count(seen, id) == Claims(models, id);
  }
}
