/** Patching a client's configuration file and giving it back: restored fields, untouched neighbours. */
module TakeoverRestore {
  import opened ConfigTree
  import opened Json
  import opened ManagedFields
  import opened Takeover
  import opened TomlDocument
  import opened TomlValue
  import opened Wrappers

  // ---- the file -------------------------------------------------------------------------------------------

  datatype DiskError =
    | Unreadable
    | Unwritable
    | Disappeared
    | Changed
    | BadSyntax(syntax: LineError)
    | BadField(field: SetError)
    | BadFormat(format: FormatError)

  /** A parsed configuration and the version it was parsed from. The hash is modelled by the text itself. */
  datatype Snapshot = Snapshot(raw: Value, version: Option<string>)

  /** The order in which each tree's keys are walked when it is printed. */
  type Layout = Value -> KeyOrder

  ghost predicate Walkable(layout: Layout) {
    forall v :: Walks(layout(v), [], v)
  }

  function ParseFile(file: Option<string>): Result<Value, LineError> {
    match file
    case None => Success(Obj(map[]))
    case Some(text) => ParseToml(text)
  }

  /** The text a patch leaves behind. */
  ghost function PatchedText(file: Option<string>, fields: seq<ManagedField>, layout: Layout): Result<string, DiskError>
    requires Walkable(layout)
  {
    match ParseFile(file)
    case Failure(e) => Failure(BadSyntax(e))
    case Success(raw) =>
      match ApplyFields(raw, fields)
      case Failure(e) => Failure(BadField(e))
      case Success(next) =>
        match PrintToml(next, layout(next))
        case Failure(e) => Failure(BadFormat(e))
        case Success(text) => Success(text)
  }

  ghost function RestoredText(raw: Value, m: Manifest, layout: Layout): Result<string, DiskError>
    requires Walkable(layout)
  {
    match RestoreFields(raw, m, m.managedFields)
    case Failure(e) => Failure(BadField(e))
    case Success(next) =>
      match PrintToml(next, layout(next))
      case Failure(e) => Failure(BadFormat(e))
      case Success(text) => Success(text)
  }

  /** The configuration file of one client. Whether a read or a write succeeds is up to the environment. */
  class ConfigFile {
    var content: Option<string>

    constructor (content: Option<string>)
      ensures this.content == content
    {
      this.content := content;
    }

    method ReadConfig(readable: bool) returns (r: Result<Snapshot, DiskError>)
      ensures r.Success? ==> ParseFile(content) == Success(r.value.raw) && r.value.version == content
      ensures readable ==> (r.Success? <==> ParseFile(content).Success?)
    {
      if content.None? {
        return Success(Snapshot(Obj(map[]), None));
      }
      if !readable {
        return Failure(Unreadable);
      }
      var parsed := ParseTomlSubset(content.value);
      if parsed.Failure? {
        return Failure(BadSyntax(parsed.error));
      }
      r := Success(Snapshot(parsed.value, content));
    }

    /** Patches the file, unless it is no longer the version the caller read. */
    method ApplyPatch(snapshot: Snapshot, fields: seq<ManagedField>, layout: Layout, readable: bool, writable: bool)
      returns (r: Result<Snapshot, DiskError>)
      requires Walkable(layout)
      modifies this
      ensures r.Failure? ==> content == old(content)
      ensures snapshot.version != old(content) ==> r.Failure?
      ensures r.Success? ==>
                && PatchedText(old(content), fields, layout).Success?
                && content == Some(PatchedText(old(content), fields, layout).value) && r.value.version == content
                && ApplyFields(ParseFile(old(content)).value, fields) == Success(r.value.raw)
      ensures readable && writable && snapshot.version == old(content) ==>
                (r.Success? <==> PatchedText(old(content), fields, layout).Success?)
    {
      if content.None? {
        if snapshot.version.Some? {
          return Failure(Disappeared);
        }
      } else {
        if !readable {
          return Failure(Unreadable);
        }
        if snapshot.version != content {
          return Failure(Changed);
        }
      }
      var current := ReadConfig(readable);
      if current.Failure? {
        return Failure(current.error);
      }
      var doc := new Document(current.value.raw);
      var applied := ApplyFieldsTo(doc, fields);
      if applied.Failure? {
        return Failure(BadField(applied.error));
      }
      r := WriteTree(doc.raw, layout, writable);
    }

    /** Writes the manifest's original values into the snapshot's tree and the result over the file. */
    method ReleaseToDisk(snapshot: Snapshot, manifest: Manifest, layout: Layout, writable: bool)
      returns (r: Result<Snapshot, DiskError>)
      requires Walkable(layout)
      modifies this
      ensures r.Failure? ==> content == old(content)
      ensures r.Success? ==>
                && RestoredText(snapshot.raw, manifest, layout).Success?
                && content == Some(RestoredText(snapshot.raw, manifest, layout).value)
      ensures writable ==> (r.Success? <==> RestoredText(snapshot.raw, manifest, layout).Success?)
    {
      var doc := new Document(snapshot.raw);
      var restored := RestoreFieldsIn(doc, manifest);
      if restored.Failure? {
        return Failure(BadField(restored.error));
      }
      r := WriteTree(doc.raw, layout, writable);
    }

    method WriteTree(raw: Value, layout: Layout, writable: bool) returns (r: Result<Snapshot, DiskError>)
      requires Walkable(layout)
      modifies this
      ensures r.Failure? ==> content == old(content)
      ensures r.Success? ==>
                PrintToml(raw, layout(raw)).Success? && content == Some(PrintToml(raw, layout(raw)).value)
                && r.value == Snapshot(raw, content)
      ensures writable ==> (r.Success? <==> PrintToml(raw, layout(raw)).Success?)
    {
      var text := SerializeTomlSubset(raw, layout(raw));
      if text.Failure? {
        return Failure(BadFormat(text.error));
      }
      if !writable {
        return Failure(Unwritable);
      }
      content := Some(text.value);
      r := Success(Snapshot(raw, content));
    }
  }

  method ApplyFieldsTo(doc: Document, fields: seq<ManagedField>) returns (r: Result<(), SetError>)
    modifies doc
    ensures match ApplyFields(old(doc.raw), fields)
            case Success(next) => r == Success(()) && doc.raw == next
            case Failure(e) => r == Failure(e)
  {
    for i := 0 to |fields|
      invariant ApplyFields(doc.raw, fields[i..]) == ApplyFields(old(doc.raw), fields)
    {
      assert fields[i..][1..] == fields[i + 1..];
      var done :- doc.SetField(Parts(fields[i].path), fields[i].value);
    }
    r := Success(());
  }

  method RestoreFieldsIn(doc: Document, manifest: Manifest) returns (r: Result<(), SetError>)
    modifies doc
    ensures match RestoreFields(old(doc.raw), manifest, manifest.managedFields)
            case Success(next) => r == Success(()) && doc.raw == next
            case Failure(e) => r == Failure(e)
  {
    var fields := manifest.managedFields;
    for i := 0 to |fields|
      invariant RestoreFields(doc.raw, manifest, fields[i..]) == RestoreFields(old(doc.raw), manifest, fields)
    {
      assert fields[i..][1..] == fields[i + 1..];
      if fields[i] in manifest.absentFields {
        doc.RemoveField(Parts(fields[i]));
      } else if fields[i] in manifest.fieldSnapshots {
        var done :- doc.SetField(Parts(fields[i]), manifest.fieldSnapshots[fields[i]]);
      }
    }
    r := Success(());
  }

  /** A restoring release with nobody interfering: on any failure the store and the file are as they were. */
  method ReleaseWithRestore(store: TakeoverStore, file: ConfigFile, layout: Layout, readable: bool, writable: bool, now: int)
    returns (r: Result<Manifest, Option<DiskError>>)
    requires Sound(store.View()) && Walkable(layout)
    modifies store, file
    ensures Sound(store.View())
    ensures r.Failure? ==> file.content == old(file.content) && store.View() == old(store.View())
    ensures r.Success? ==>
              && old(store.View()).state == Adopted
              && store.View() == Relinquished(old(store.View()), now) && r.value == store.View().manifest.value
              && ParseFile(old(file.content)).Success?
              && var text := RestoredText(ParseFile(old(file.content)).value, old(store.View()).manifest.value, layout);
                 text.Success? && file.content == Some(text.value)
    ensures r == Failure(None) <==> old(store.View()).state != Adopted
  {
    var claim := store.ClaimRelease();
    if claim.Failure? {
      return Failure(None);
    }
    var (manifest, expected) := claim.value;
    var current := file.ReadConfig(readable);
    if current.Failure? {
      store.AbortRelease();
      return Failure(Some(current.error));
    }
    var written := file.ReleaseToDisk(current.value, manifest, layout, writable);
    if written.Failure? {
      store.AbortRelease();
      return Failure(Some(written.error));
    }
    var committed := store.CommitRelease(expected, now);
    r := Success(committed.value);
  }

  /** After a crash: an adoption that was never released is released with its restore. */
  method RecoverOrphaned(store: TakeoverStore, file: ConfigFile, layout: Layout, readable: bool, writable: bool, now: int)
    returns (r: Result<Manifest, Option<DiskError>>)
    requires Sound(store.View()) && Walkable(layout)
    modifies store, file
    ensures Sound(store.View())
    ensures r == Failure(None) <==> old(store.View()).state != Adopted
    ensures r.Failure? ==> file.content == old(file.content) && store.View() == old(store.View())
    ensures r.Success? ==>
              && store.View() == Relinquished(old(store.View()), now) && ParseFile(old(file.content)).Success?
              && var text := RestoredText(ParseFile(old(file.content)).value, old(store.View()).manifest.value, layout);
                 text.Success? && file.content == Some(text.value)
  {
    var orphaned := store.CheckOrphanedState();
    if !orphaned {
      return Failure(None);
    }
    r := ReleaseWithRestore(store, file, layout, readable, writable, now);
  }
}
