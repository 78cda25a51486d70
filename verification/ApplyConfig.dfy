/** Changing the configuration of the running application: document, memory, window rules and listener together.
    What the network, the disk and the key store answer are parameters. */
module ApplyConfig {
  import opened Config
  import opened Wrappers

  /** A listener and the settings that were built into it. */
  datatype Listener = Listener(host: string, port: nat, allowCors: bool, corsOrigins: seq<string>, maxBodyMib: nat)

  /** A bind attempt: refused, or done, with the port the system would pick for port 0. */
  type Bind = Option<nat>

  function Listen(s: Server, free: nat): Listener {
    Listener(s.host, if s.port == 0 then free else s.port, s.allowCors, s.corsOrigins, s.maxBodyMib)
  }

  /** The listener is what the settings ask for; port 0 asks for any port. */
  predicate Serves(l: Listener, s: Server) {
    && l.host == s.host && (s.port != 0 ==> l.port == s.port)
    && l.allowCors == s.allowCors && l.corsOrigins == s.corsOrigins && l.maxBodyMib == s.maxBodyMib
  }

  predicate NeedsRebind(a: Server, b: Server) {
    || a.host != b.host
    || a.port != b.port
    || a.allowCors != b.allowCors
    || a.corsOrigins != b.corsOrigins
    || a.maxBodyMib != b.maxBodyMib
  }

  datatype ApplyError =
    | Invalid(message: string)
    | AddressRefused(wasRunning: bool)
    | NotSaved
    | Reverted(restored: bool)

  datatype Warning = RefusedAddress(wasRunning: bool) | RevertedChange(restored: bool) | KeyNotRemoved(providerId: string)

  datatype RemoveError = UnknownProvider | RemovalNotSaved

  /** What the environment answers during one change. */
  datatype Answers = Answers(
    problem: AppConfig -> Option<string>,
    drawn: nat -> string,
    probe: bool,
    save: bool,
    undoSave: bool,
    bind: Bind,
    rebind: Bind,
    pinnedBind: Bind)

  /** The settings that take effect: normalised, and an empty token means the old one. */
  function Effective(next: AppConfig, previous: AppConfig, drawn: nat -> string): AppConfig {
    var n := Normalised(next, drawn);
    if Blank(n.server.authToken) then n.(server := n.server.(authToken := previous.server.authToken)) else n
  }

  /** How a change ends, from what the environment answers. */
  function Outcome(effective: AppConfig, previous: AppConfig, running: bool, a: Answers): Result<bool, ApplyError> {
    var moved := NeedsRebind(previous.server, effective.server);
    if a.problem(effective).Some? then Failure(Invalid(a.problem(effective).value))
    else if moved && effective.server.port != 0 && !a.probe then Failure(AddressRefused(running))
    else if !a.save then Failure(NotSaved)
    else if moved && running && a.bind.None? then Failure(Reverted(a.rebind.Some? || a.pinnedBind.Some?))
    else Success(moved)
  }

  /** The change got as far as memory, even if it was taken back. */
  predicate TookEffect(result: Result<bool, ApplyError>) {
    result.Success? || result.error.Reverted?
  }

  function SavedAfter(result: Result<bool, ApplyError>, effective: AppConfig, previous: AppConfig, saved: AppConfig, undoSave: bool): AppConfig {
    if !TookEffect(result) then saved
    else if result.Failure? && undoSave then previous
    else effective
  }

  function WarningAfter(result: Result<bool, ApplyError>, warning: Option<Warning>): Option<Warning> {
    match result
    case Success(_) => None
    case Failure(AddressRefused(running)) => Some(RefusedAddress(running))
    case Failure(Reverted(restored)) => Some(RevertedChange(restored))
    case Failure(_) => warning
  }

  method Prepare(next: AppConfig, previous: AppConfig, drawn: nat -> string) returns (effective: AppConfig)
    ensures effective == Effective(next, previous, drawn)
  {
    var n, _ := Normalise(next, drawn);
    effective := n;
    if Blank(effective.server.authToken) {
      effective := effective.(server := effective.server.(authToken := previous.server.authToken));
    }
  }

  function FindProvider(providers: seq<Provider>, id: string): Option<Provider> {
    if providers == [] then None
    else if providers[0].id == id then Some(providers[0])
    else FindProvider(providers[1..], id)
  }

  function OtherProviders(providers: seq<Provider>, id: string): seq<Provider> {
    if providers == [] then []
    else (if providers[0].id != id then [providers[0]] else []) + OtherProviders(providers[1..], id)
  }

  function OtherModels(models: seq<ModelEntry>, id: string): seq<ModelEntry> {
    if models == [] then []
    else (if models[0].providerId != id then [models[0]] else []) + OtherModels(models[1..], id)
  }

  predicate Holds(providers: seq<Provider>, keyRef: string) {
    exists i :: 0 <= i < |providers| && providers[i].keyRef == keyRef
  }

  /** The provider's key is nobody else's. */
  predicate HasSpareKey(providers: seq<Provider>, id: string) {
    var found := FindProvider(providers, id);
    found.Some? && !Blank(found.value.keyRef) && !Holds(OtherProviders(providers, id), found.value.keyRef)
  }

  /** Every provider listed that had its key stored still has it. */
  ghost predicate KeysKept(providers: seq<Provider>, before: set<string>, after: set<string>) {
    forall i :: 0 <= i < |providers| && providers[i].keyRef in before ==> providers[i].keyRef in after
  }

  lemma {:induction false} FoundIsListed(providers: seq<Provider>, id: string)
    requires FindProvider(providers, id).Some?
    ensures FindProvider(providers, id).value in providers
    decreases providers
  {
    if providers[0].id != id {
      FoundIsListed(providers[1..], id);
    }
  }

  lemma RemovalKeepsKeys(providers: seq<Provider>, id: string, keys: set<string>)
    requires FindProvider(providers, id).Some?
    ensures var keyRef := FindProvider(providers, id).value.keyRef;
            && (HasSpareKey(providers, id) ==> KeysKept(OtherProviders(providers, id), keys, keys - {keyRef}))
            && (KeysKept(providers, keys, keys - {keyRef}) <==> keyRef !in keys)
  {
    var found := FindProvider(providers, id).value;
    FoundIsListed(providers, id);
    var i :| 0 <= i < |providers| && providers[i] == found;
    assert providers[i].keyRef == found.keyRef;
  }

  class Desktop {
    var config: AppConfig
    var saved: AppConfig
    var keepInTray: bool
    var bypassing: bool
    var listener: Option<Listener>
    var warning: Option<Warning>
    var keys: set<string>

    /** The window layer and the running listener agree with the configuration in memory. */
    ghost predicate Valid()
      reads this
    {
      && keepInTray == config.keepInTray
      && (listener.Some? ==> Serves(listener.value, config.server))
    }

    constructor (config: AppConfig, keys: set<string>)
      ensures Valid() && this.config == config && saved == config && listener == None && warning == None
      ensures bypassing == config.server.bypassProxy && this.keys == keys
    {
      this.config := config;
      saved := config;
      keepInTray := config.keepInTray;
      bypassing := config.server.bypassProxy;
      listener := None;
      warning := None;
      this.keys := keys;
    }

    /** Starts the listener on the configuration in memory, unless one runs. */
    method Start(bind: Bind) returns (started: bool)
      modifies this`listener
      ensures started <==> old(listener).Some? || bind.Some?
      ensures listener == if old(listener).Some? then old(listener)
                          else if bind.Some? then Some(Listen(config.server, bind.value)) else None
    {
      if listener.Some? {
        return true;
      }
      if bind.None? {
        return false;
      }
      listener := Some(Listen(config.server, bind.value));
      started := true;
    }

    method StopListener()
      modifies this`listener
      ensures listener == None
    {
      listener := None;
    }

    /** Moves a running listener to the configuration in memory, or back to the previous one. */
    method MigrateListener(previous: AppConfig, needsRebind: bool, a: Answers) returns (result: Result<(), bool>)
      requires listener.Some? ==> Serves(listener.value, previous.server)
      modifies this`listener, this`config
      ensures result == (if !needsRebind || old(listener).None? || a.bind.Some? then Success(())
                         else Failure(a.rebind.Some? || a.pinnedBind.Some?))
      ensures result.Success? ==> config == old(config)
      ensures result.Success? ==> listener == if needsRebind && old(listener).Some?
                                              then Some(Listen(config.server, a.bind.value)) else old(listener)
      ensures result.Failure? ==> (listener.Some? <==> result.error)
      ensures result.Failure? && listener.Some? ==> Serves(listener.value, previous.server)
      ensures result.Failure? && a.rebind.None? && a.pinnedBind.Some? ==>
                listener.value.port == if old(listener).value.port == 0 then a.pinnedBind.value else old(listener).value.port
    {
      if !needsRebind {
        return Success(());
      }
      if listener.Some? {
        var served := listener;
        StopListener();
        var moved := Start(a.bind);
        if !moved {
          config := previous;
          var restored := Start(a.rebind);
          if !restored {
            if served.Some? {
              config := previous.(server := previous.server.(port := served.value.port));
              restored := Start(a.pinnedBind);
            }
          }
          return Failure(restored);
        }
      }
      result := Success(());
    }

    /** Saves and puts into effect a new configuration, or leaves the previous one in effect. Returns whether the
        listener settings changed. */
    method Apply(next: AppConfig, a: Answers) returns (result: Result<bool, ApplyError>)
      requires Valid()
      modifies this
      ensures Valid() && keys == old(keys)
      ensures var effective := Effective(next, old(config), a.drawn);
              && result == Outcome(effective, old(config), old(listener).Some?, a)
              && config == (if result.Success? then effective else old(config))
              && saved == SavedAfter(result, effective, old(config), old(saved), a.undoSave)
              && warning == WarningAfter(result, old(warning))
              && bypassing == (if TookEffect(result) && effective.server.bypassProxy != old(config).server.bypassProxy
                               then effective.server.bypassProxy else old(bypassing))
      ensures result == Success(true) && old(listener).Some? ==> listener == Some(Listen(config.server, a.bind.value))
      ensures result.Failure? && result.error.Reverted? ==> (listener.Some? <==> result.error.restored)
      ensures !(result == Success(true) && old(listener).Some?) && !(result.Failure? && result.error.Reverted?) ==>
                listener == old(listener)
    {
      var effective := Prepare(next, config, a.drawn);
      result := PutIntoEffect(effective, a);
    }

    method PutIntoEffect(effective: AppConfig, a: Answers) returns (result: Result<bool, ApplyError>)
      requires Valid()
      modifies this
      ensures Valid() && keys == old(keys)
      ensures result == Outcome(effective, old(config), old(listener).Some?, a)
      ensures config == if result.Success? then effective else old(config)
      ensures saved == SavedAfter(result, effective, old(config), old(saved), a.undoSave)
      ensures warning == WarningAfter(result, old(warning))
      ensures bypassing == if TookEffect(result) && effective.server.bypassProxy != old(config).server.bypassProxy
                           then effective.server.bypassProxy else old(bypassing)
      ensures result == Success(true) && old(listener).Some? ==> listener == Some(Listen(config.server, a.bind.value))
      ensures result.Failure? && result.error.Reverted? ==> (listener.Some? <==> result.error.restored)
      ensures !(result == Success(true) && old(listener).Some?) && !(result.Failure? && result.error.Reverted?) ==>
                listener == old(listener)
    {
      var previous := config;
      var problem := a.problem(effective);
      if problem.Some? {
        return Failure(Invalid(problem.value));
      }
      var needsRebind := NeedsRebind(previous.server, effective.server);
      var running := listener.Some?;
      if needsRebind && effective.server.port != 0 && !a.probe {
        warning := Some(RefusedAddress(running));
        return Failure(AddressRefused(running));
      }
      if !a.save {
        return Failure(NotSaved);
      }
      result := Commit(effective, needsRebind, a);
    }

    /** The part of a change after its document was saved. */
    method Commit(effective: AppConfig, needsRebind: bool, a: Answers) returns (result: Result<bool, ApplyError>)
      requires Valid() && needsRebind == NeedsRebind(config.server, effective.server)
      modifies this
      ensures Valid() && keys == old(keys)
      ensures result == if needsRebind && old(listener).Some? && a.bind.None?
                        then Failure(Reverted(a.rebind.Some? || a.pinnedBind.Some?)) else Success(needsRebind)
      ensures config == if result.Success? then effective else old(config)
      ensures saved == if result.Failure? && a.undoSave then old(config) else effective
      ensures warning == if result.Success? then None else Some(RevertedChange(result.error.restored))
      ensures bypassing == if effective.server.bypassProxy != old(config).server.bypassProxy
                           then effective.server.bypassProxy else old(bypassing)
      ensures result.Success? ==> listener == if needsRebind && old(listener).Some?
                                              then Some(Listen(config.server, a.bind.value)) else old(listener)
      ensures result.Failure? ==> (listener.Some? <==> result.error.restored)
    {
      var previous := config;
      Adopt(effective);
      var migrated := MigrateListener(previous, needsRebind, a);
      if migrated.Failure? {
        TakeBack(previous, migrated.error, a.undoSave);
        return Failure(Reverted(migrated.error));
      }
      warning := None;
      result := Success(needsRebind);
    }

    method Adopt(effective: AppConfig)
      modifies this`saved, this`config, this`keepInTray, this`bypassing
      ensures saved == effective && config == effective && keepInTray == effective.keepInTray
      ensures bypassing == if effective.server.bypassProxy != old(config).server.bypassProxy
                           then effective.server.bypassProxy else old(bypassing)
    {
      saved := effective;
      if config.server.bypassProxy != effective.server.bypassProxy {
        bypassing := effective.server.bypassProxy;
      }
      keepInTray := effective.keepInTray;
      config := effective;
    }

    method TakeBack(previous: AppConfig, restored: bool, undoSave: bool)
      modifies this`saved, this`config, this`keepInTray, this`warning
      ensures config == previous && keepInTray == previous.keepInTray && warning == Some(RevertedChange(restored))
      ensures saved == if undoSave then previous else old(saved)
    {
      if undoSave {
        saved := previous;
      }
      config := previous;
      keepInTray := previous.keepInTray;
      warning := Some(RevertedChange(restored));
    }

    /** Removes a provider, its models and the key only it used. */
    method RemoveProvider(id: string, deleteKey: bool, save: bool) returns (result: Result<Option<Warning>, RemoveError>)
      requires Valid()
      modifies this
      ensures Valid() && listener == old(listener) && bypassing == old(bypassing)
      ensures result.Failure? ==> config == old(config) && saved == old(saved) && warning == old(warning)
      ensures result == Failure(UnknownProvider) <==> FindProvider(old(config).providers, id).None?
      ensures result == Failure(RemovalNotSaved) <==> FindProvider(old(config).providers, id).Some? && !save
      ensures result.Success? ==>
                && config == old(config).(providers := OtherProviders(old(config).providers, id),
                                          models := OtherModels(old(config).models, id))
                && saved == config
                && warning == (if result.value.Some? then result.value else old(warning))
      ensures var found, spare := FindProvider(old(config).providers, id), HasSpareKey(old(config).providers, id);
              && keys == (if spare && deleteKey then old(keys) - {found.value.keyRef} else old(keys))
              && (result.Success? ==> result.value == if spare && !deleteKey then Some(KeyNotRemoved(id)) else None)
              // the key goes before the document is saved
              && (KeysKept(config.providers, old(keys), keys) <==>
                  !(result == Failure(RemovalNotSaved) && spare && deleteKey && found.value.keyRef in old(keys)))
    {
      var previous := config;
      var provider := FindProvider(previous.providers, id);
      if provider.None? {
        return Failure(UnknownProvider);
      }
      var keyRef := provider.value.keyRef;
      RemovalKeepsKeys(previous.providers, id, keys);
      var next := previous.(providers := OtherProviders(previous.providers, id), models := OtherModels(previous.models, id));
      var orphaned: Option<Warning> := None;
      if Blank(keyRef) {
        // no key to look after
      } else if Holds(next.providers, keyRef) {
        // another provider needs it
      } else if deleteKey {
        keys := keys - {keyRef};
      } else {
        orphaned := Some(KeyNotRemoved(id));
      }
      if !save {
        return Failure(RemovalNotSaved);
      }
      saved := next;
      keepInTray := next.keepInTray;
      config := next;
      if orphaned.Some? {
        warning := orphaned;
      }
      result := Success(orphaned);
    }
  }

  /** The test for a rebind is exact: a listener that serves the old settings serves the new ones exactly when no
      rebind is needed, but for a port 0 that is given up or asked for. */
  lemma RebindIsNeededExactly(l: Listener, a: Server, b: Server)
    requires Serves(l, a)
    ensures !NeedsRebind(a, b) ==> Serves(l, b)
    ensures a.port != 0 && b.port != 0 ==> (Serves(l, b) <==> !NeedsRebind(a, b))
  {
  }

  // ---- whole sessions -------------------------------------------------------------------------------------

  datatype Operation =
    | StartIt(bind: Bind)
    | StopIt
    | ApplyIt(next: AppConfig, answers: Answers)
    | RemoveIt(id: string, deleteKey: bool, save: bool)

  /** The last answer to a save; a change that fails to undo its own save is the one that leaves the document behind. */
  predicate Undone(op: Operation) {
    op.ApplyIt? ==> op.answers.undoSave
  }

  /** In every session, whatever the environment answers, the window layer and the listener follow the configuration
      in memory; and as long as no undoing save fails, so does the document. */
  method Session(config: AppConfig, keys: set<string>, operations: seq<Operation>) returns (d: Desktop)
    ensures fresh(d) && d.Valid()
    ensures (forall i :: 0 <= i < |operations| ==> Undone(operations[i])) ==> d.saved == d.config
  {
    d := new Desktop(config, keys);
    for i := 0 to |operations|
      invariant fresh(d) && d.Valid()
      invariant (forall k :: 0 <= k < i ==> Undone(operations[k])) ==> d.saved == d.config
    {
      match operations[i] {
        case StartIt(bind) =>
          var _ := d.Start(bind);
        case StopIt => d.StopListener();
        case ApplyIt(next, answers) =>
          assert Undone(operations[i]) <==> answers.undoSave;
          var _ := d.Apply(next, answers);
        case RemoveIt(id, deleteKey, save) =>
          var _ := d.RemoveProvider(id, deleteKey, save);
      }
    }
  }

  lemma {:induction false} OtherProvidersStay(providers: seq<Provider>, id: string)
    ensures FindProvider(OtherProviders(providers, id), id).None?
    ensures forall other :: other != id ==> FindProvider(OtherProviders(providers, id), other) == FindProvider(providers, other)
    decreases providers
  {
    if providers != [] {
      OtherProvidersStay(providers[1..], id);
      var rest := OtherProviders(providers[1..], id);
      if providers[0].id != id {
        assert ([providers[0]] + rest)[1..] == rest;
      } else {
        assert [] + rest == rest;
      }
    }
  }
}
