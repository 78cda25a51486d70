/** A restoring release through the file: adoption, patches, edits by others, and what is there in the end. */
module TakeoverRestoreLaws {
  import opened ConfigTree
  import opened Json
  import opened ManagedFields
  import opened RestoreLaws
  import opened Takeover
  import opened TakeoverRestore
  import opened Text
  import opened TomlDocument
  import opened TomlLineLaws
  import opened TomlPrintable
  import opened TomlRoundTrip
  import opened TomlText
  import opened Wrappers

  // ---- trees that survive the trip through the file -------------------------------------------------------

  /** Printable, with clean keys: what is written is what is read back. */
  ghost predicate Durable(v: Value) {
    PrintableItem(v) && CleanKeys(v)
  }

  ghost predicate CleanPath(path: Path) {
    forall i :: 0 <= i < |path| ==> path[i] != [] && Unescaped(path[i])
  }

  lemma {:induction false} SetKeepsKeysClean(root: Table, path: Path, value: Value)
    requires path != [] && CleanPath(path) && CleanKeys(Obj(root)) && CleanKeys(value) && SetIn(root, path, value).Success?
    ensures CleanKeys(Obj(SetIn(root, path, value).value))
    decreases path
  {
    if |path| > 1 {
      assert CleanKeys(Obj(Child(root, path[0])));
      SetKeepsKeysClean(Child(root, path[0]), path[1..], value);
    }
  }

  lemma {:induction false} SetKeepsPrintable(root: Table, path: Path, value: Value)
    requires path != [] && PrintableTable(Obj(root)) && PrintableItem(value) && SetIn(root, path, value).Success?
    ensures PrintableTable(Obj(SetIn(root, path, value).value))
    decreases path
  {
    if |path| > 1 {
      assert PrintableTable(Obj(Child(root, path[0])));
      SetKeepsPrintable(Child(root, path[0]), path[1..], value);
    }
  }

  lemma {:induction false} RemoveKeepsDurable(root: Table, path: Path)
    requires path != [] && Durable(Obj(root))
    ensures Durable(Obj(RemoveIn(root, path)))
    decreases path
  {
    if |path| > 1 && path[0] in root && root[path[0]].Obj? {
      RemoveKeepsDurable(root[path[0]].fields, path[1..]);
    }
  }

  lemma {:induction false} PartIsDurable(root: Value, path: Path)
    requires Durable(root) && Get(root, path).Some?
    ensures Durable(Get(root, path).value)
    decreases path
  {
    if path != [] {
      PartIsDurable(root.fields[path[0]], path[1..]);
    }
  }

  lemma {:induction false} PatchKeepsKeysClean(now: Value, patch: seq<ManagedField>)
    requires CleanKeys(now) && ApplyFields(now, patch).Success?
    requires forall i :: 0 <= i < |patch| ==> CleanPath(Parts(patch[i].path)) && CleanKeys(patch[i].value)
    ensures CleanKeys(ApplyFields(now, patch).value)
    decreases patch
  {
    if patch != [] {
      SetKeepsKeysClean(now.fields, Parts(patch[0].path), patch[0].value);
      PatchKeepsKeysClean(SetDotted(now, patch[0].path, patch[0].value).value, patch[1..]);
    }
  }

  lemma {:induction false} RestoreKeepsDurable(now: Value, m: Manifest, todo: seq<string>)
    requires now.Obj? && Durable(now) && RestoreFields(now, m, todo).Success?
    requires forall f :: f in todo ==> CleanPath(Parts(f))
    requires forall f :: f in m.fieldSnapshots ==> Durable(m.fieldSnapshots[f])
    ensures Durable(RestoreFields(now, m, todo).value) && RestoreFields(now, m, todo).value.Obj?
    decreases todo
  {
    if todo != [] {
      var f := todo[0];
      var next := now;
      if f in m.absentFields {
        RemoveKeepsDurable(now.fields, Parts(f));
        next := RemoveNested(now, Parts(f));
      } else if f in m.fieldSnapshots {
        SetKeepsKeysClean(now.fields, Parts(f), m.fieldSnapshots[f]);
        SetKeepsPrintable(now.fields, Parts(f), m.fieldSnapshots[f]);
        next := SetDotted(now, f, m.fieldSnapshots[f]).value;
      }
      RestoreKeepsDurable(next, m, todo[1..]);
    }
  }

  // ---- one patch through the file -------------------------------------------------------------------------

  lemma WrittenIsReadBack(v: Value, layout: Layout)
    requires Walkable(layout) && v.Obj? && CleanKeys(v) && PrintToml(v, layout(v)).Success?
    ensures ParseToml(PrintToml(v, layout(v)).value) == Success(v) && Durable(v)
  {
    RoundTripExactlyWhenClean(v, layout(v));
  }

  lemma ParsedIsDurable(file: Option<string>)
    requires ParseFile(file).Success? && CleanKeys(ParseFile(file).value)
    ensures Durable(ParseFile(file).value) && ParseFile(file).value.Obj?
  {
    if file.Some? {
      LinesArePrintable(START, Lines(file.value), 1);
    }
  }

  /** A patch of one dotted field, its path given as its parts, is written exactly when no value stands in its way; the
      file then reads with the value at that path, and with everything else as it was. */
  lemma PatchIsReadBack(file: Option<string>, parts: Path, value: Value, layout: Layout, other: Path)
    requires ParseFile(file).Success? && CleanKeys(ParseFile(file).value) && Walkable(layout) && Durable(value)
    requires parts != [] && CleanPath(parts) && forall i :: 0 <= i < |parts| ==> '.' !in parts[i]
    ensures var raw, text := ParseFile(file).value, PatchedText(file, [ManagedField(Join(parts, "."), value)], layout);
            && (text.Success? <==> Unobstructed(raw, parts))
            && (text.Success? ==> ParseToml(text.value).Success? && Get(ParseToml(text.value).value, parts) == Some(value))
            && (text.Success? && !Comparable(parts, other) ==> Get(ParseToml(text.value).value, other) == Get(raw, other))
  {
    var raw := ParseFile(file).value;
    ParsedIsDurable(file);
    PatchOfOne(raw, parts, value);
    SetSucceedsIff(raw.fields, parts, value);
    if SetNested(raw, parts, value).Success? {
      SetIsWritten(raw, parts, value, layout);
      SetNestedLaws(raw, parts, value, other);
    }
  }

  lemma PatchOfOne(raw: Value, parts: Path, value: Value)
    requires parts != [] && forall i :: 0 <= i < |parts| ==> '.' !in parts[i]
    ensures ApplyFields(raw, [ManagedField(Join(parts, "."), value)]) == SetNested(raw, parts, value)
  {
    PartsUndoesJoin(parts);
    assert [ManagedField(Join(parts, "."), value)][1..] == [];
  }

  lemma SetIsWritten(raw: Value, parts: Path, value: Value, layout: Layout)
    requires raw.Obj? && Durable(raw) && Durable(value) && Walkable(layout) && CleanPath(parts)
    requires SetNested(raw, parts, value).Success?
    ensures var next := SetNested(raw, parts, value).value;
            PrintToml(next, layout(next)).Success? && ParseToml(PrintToml(next, layout(next)).value) == Success(next)
  {
    var next := SetNested(raw, parts, value).value;
    SetKeepsKeysClean(raw.fields, parts, value);
    SetKeepsPrintable(raw.fields, parts, value);
    RoundTripExactlyWhenClean(next, layout(next));
  }

  // ---- end to end -----------------------------------------------------------------------------------------

  /** A patch of managed fields by us, or anything anybody else does to the file. */
  datatype Action = Patching(fields: seq<ManagedField>, layout: Layout) | Editing(content: Option<string>)

  /** Successful patches of managed fields and edits by others, one after another. An edit leaves a file that can be
      parsed and printed, and puts nothing in the way of a managed field; it may well change managed fields. */
  ghost predicate ActionRun(original: Value, file: Option<string>, actions: seq<Action>, fields: seq<string>, end: Option<string>)
    decreases actions
  {
    if actions == [] then
      file == end
    else
      match actions[0]
      case Patching(patch, layout) =>
        && Walkable(layout)
        && (forall i :: 0 <= i < |patch| ==> patch[i].path in fields && CleanKeys(patch[i].value))
        && PatchedText(file, patch, layout).Success?
        && ActionRun(original, Some(PatchedText(file, patch, layout).value), actions[1..], fields, end)
      case Editing(content) =>
        && ParseFile(content).Success? && CleanKeys(ParseFile(content).value)
        && WayFree(original, ParseFile(content).value, fields)
        && ActionRun(original, content, actions[1..], fields, end)
  }

  /** The last state of the file that somebody else left, or the original. */
  ghost function LastForeign(base: Value, actions: seq<Action>): Value
    decreases actions
  {
    if actions == [] then base
    else if actions[0].Editing? && ParseFile(actions[0].content).Success? then
      LastForeign(ParseFile(actions[0].content).value, actions[1..])
    else LastForeign(base, actions[1..])
  }

  /** The file parses to a durable tree that differs from `base` at or below managed fields only. */
  ghost predicate InCustody(original: Value, base: Value, file: Option<string>, fields: seq<string>) {
    && ParseFile(file).Success? && Durable(ParseFile(file).value)
    && Kept(original, base, ParseFile(file).value, fields)
  }

  lemma PatchStaysInCustody(original: Value, base: Value, file: Option<string>, patch: seq<ManagedField>, layout: Layout, fields: seq<string>)
    requires forall f :: f in fields ==> CleanPath(Parts(f))
    requires forall i :: 0 <= i < |patch| ==> patch[i].path in fields && CleanKeys(patch[i].value)
    requires InCustody(original, base, file, fields) && Walkable(layout) && PatchedText(file, patch, layout).Success?
    ensures InCustody(original, base, Some(PatchedText(file, patch, layout).value), fields)
  {
    var raw := ParseFile(file).value;
    var next := ApplyFields(raw, patch).value;
    PatchKeeps(original, base, raw, fields, patch);
    PatchKeepsKeysClean(raw, patch);
    WrittenIsReadBack(next, layout);
  }

  lemma {:induction false} ActionsStayInCustody(original: Value, base: Value, file: Option<string>, actions: seq<Action>, fields: seq<string>, end: Option<string>)
    requires forall f :: f in fields ==> CleanPath(Parts(f))
    requires InCustody(original, base, file, fields) && ActionRun(original, file, actions, fields, end)
    ensures InCustody(original, LastForeign(base, actions), end, fields)
    decreases actions
  {
    if actions != [] {
      match actions[0] {
        case Patching(patch, layout) =>
          PatchStaysInCustody(original, base, file, patch, layout, fields);
          ActionsStayInCustody(original, base, Some(PatchedText(file, patch, layout).value), actions[1..], fields, end);
        case Editing(content) =>
          ParsedIsDurable(content);
          ActionsStayInCustody(original, ParseFile(content).value, content, actions[1..], fields, end);
      }
    }
  }

  lemma SnapshotsAreDurable(original: Value, fields: seq<string>)
    requires Durable(original)
    ensures forall f :: f in FieldValues(original, fields) ==> Durable(FieldValues(original, fields)[f])
  {
    forall f | f in FieldValues(original, fields)
      ensures Durable(FieldValues(original, fields)[f])
    {
      PartIsDurable(original, Parts(f));
    }
  }

  lemma RestoredTree(original: Value, base: Value, raw: Value, fields: seq<string>, m: Manifest) returns (restored: Value)
    requires Durable(original) && Durable(raw) && Kept(original, base, raw, fields) && Records(m, original, fields)
    requires Manageable(fields) && forall f :: f in fields ==> CleanPath(Parts(f))
    ensures RestoreFields(raw, m, fields) == Success(restored) && Durable(restored) && restored.Obj?
    ensures Returned(original, restored, fields, |fields|) && SameBeside(base, restored, fields)
  {
    RestoreReturns(original, base, raw, fields, m, 0);
    assert fields[0..] == fields;
    SnapshotsAreDurable(original, fields);
    RestoreKeepsDurable(raw, m, fields);
    restored := RestoreFields(raw, m, fields).value;
  }

  /** What a restoring release writes for a tree it read while the file was in custody. */
  lemma ReleaseRestores(original: Value, base: Value, read: Option<string>, fields: seq<string>, generation: nat, now: int, layout: Layout)
    requires original.Obj? && Durable(original) && InCustody(original, base, read, fields) && Walkable(layout)
    requires Manageable(fields) && forall f :: f in fields ==> CleanPath(Parts(f))
    ensures var text := RestoredText(ParseFile(read).value, NewManifest(fields, FieldValues(original, fields), generation, now), layout);
            && text.Success? && ParseToml(text.value).Success?
            && var after := ParseToml(text.value).value;
            Returned(original, after, fields, |fields|) && SameBeside(base, after, fields)
  {
    var m := NewManifest(fields, FieldValues(original, fields), generation, now);
    var raw := ParseFile(read).value;
    var restored := RestoredTree(original, base, raw, fields, m);
    RoundTripExactlyWhenClean(restored, layout(restored));
  }

  /** Adopting fields of a file, any number of our patches and of edits by others, and a restoring release, which
      succeeds: then every managed field reads as it did originally, its absence included, and every path beside them
      as the last edit left it, or as it was if there was none. */
  lemma AdoptPatchRelease(
    file: Option<string>, fields: seq<string>, generation: nat, now: int, actions: seq<Action>, patched: Option<string>, layout: Layout)
    requires ParseFile(file).Success? && CleanKeys(ParseFile(file).value)
    requires Manageable(fields) && forall f :: f in fields ==> CleanPath(Parts(f))
    requires ActionRun(ParseFile(file).value, file, actions, fields, patched) && Walkable(layout)
    ensures var original := ParseFile(file).value;
            var m := NewManifest(fields, FieldValues(original, fields), generation, now);
            && ParseFile(patched).Success?
            && var text := RestoredText(ParseFile(patched).value, m, layout);
            && text.Success? && ParseToml(text.value).Success?
            && var after := ParseToml(text.value).value;
            Returned(original, after, fields, |fields|) && SameBeside(LastForeign(original, actions), after, fields)
  {
    var original := ParseFile(file).value;
    ParsedIsDurable(file);
    KeptAtStart(original, fields);
    ActionsStayInCustody(original, original, file, actions, fields, patched);
    ReleaseRestores(original, LastForeign(original, actions), patched, fields, generation, now, layout);
  }

  /** Between its read and its write a release does not look at the file again: an edit made then is lost beside the
      managed fields exactly where it changed what had been read. */
  lemma EditDuringReleaseIsLostExactly(
    original: Value, base: Value, read: Option<string>, edited: Option<string>, fields: seq<string>, generation: nat, now: int, layout: Layout, q: Path)
    requires original.Obj? && Durable(original) && InCustody(original, base, read, fields) && Walkable(layout)
    requires Manageable(fields) && forall f :: f in fields ==> CleanPath(Parts(f))
    requires ParseFile(edited).Success? && Beside(fields, q)
    ensures var text := RestoredText(ParseFile(read).value, NewManifest(fields, FieldValues(original, fields), generation, now), layout);
            && text.Success? && ParseToml(text.value).Success?
            && (Get(ParseToml(text.value).value, q) == Get(ParseFile(edited).value, q)
                <==> Get(ParseFile(edited).value, q) == Get(ParseFile(read).value, q))
  {
    ReleaseRestores(original, base, read, fields, generation, now, layout);
  }

  // ---- a layout there is ----------------------------------------------------------------------------------

  lemma {:induction false} KeysExist(table: Table) returns (keys: seq<string>)
    ensures Enumerates(keys, table)
    decreases |table|
  {
    keys := [];
    if table != map[] {
      var key :| key in table;
      var rest := table - {key};
      assert |rest| < |table| by {
        assert table.Keys == rest.Keys + {key};
      }
      var others := KeysExist(rest);
      keys := [key] + others;
      assert forall k :: k in table ==> k == key || k in rest;
    }
  }

  lemma EnumerationExists(table: Table)
    ensures exists keys :: Enumerates(keys, table)
  {
    var keys := KeysExist(table);
  }

  ghost function SomeKeys(table: Table): (keys: seq<string>)
    ensures Enumerates(keys, table)
  {
    EnumerationExists(table);
    var found :| Enumerates(found, table);
    found
  }

  ghost function KeysAt(v: Value, path: Path): seq<string> {
    var here := Get(v, path);
    if here.Some? && here.value.Obj? then SomeKeys(here.value.fields) else []
  }

  ghost function OrderOf(root: Value): KeyOrder {
    path => KeysAt(root, path)
  }

  lemma {:induction false} GetDeeper(root: Value, path: Path, key: string)
    requires Get(root, path).Some? && Get(root, path).value.Obj? && key in Get(root, path).value.fields
    ensures Get(root, path + [key]) == Some(Get(root, path).value.fields[key])
    decreases path
  {
    if path == [] {
      assert ([] + [key])[1..] == [];
    } else {
      assert (path + [key])[1..] == path[1..] + [key];
      GetDeeper(root.fields[path[0]], path[1..], key);
    }
  }

  lemma {:induction false} KeysAtWalks(root: Value, path: Path, v: Value)
    requires Get(root, path) == Some(v)
    ensures Walks(OrderOf(root), path, v)
    decreases v
  {
    if v.Obj? {
      forall key | key in v.fields
        ensures Walks(OrderOf(root), path + [key], v.fields[key])
      {
        GetDeeper(root, path, key);
        KeysAtWalks(root, path + [key], v.fields[key]);
      }
    }
  }

  /** Every tree can be printed in some order. */
  lemma LayoutExists() returns (layout: Layout)
    ensures Walkable(layout)
  {
    layout := v => OrderOf(v);
    forall v
      ensures Walks(layout(v), [], v)
    {
      KeysAtWalks(v, [], v);
    }
  }
}
