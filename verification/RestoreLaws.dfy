/** Restoring gives every managed field back and leaves everything beside them untouched: when, and exactly when. */
module RestoreLaws {
  import opened ConfigTree
  import opened Json
  import opened ManagedFields
  import opened Takeover
  import opened Wrappers

  // ---- what a path's neighbours see -----------------------------------------------------------------------

  lemma {:induction false} PrefixOfGet(root: Value, path: Path, i: nat)
    requires i <= |path|
    ensures Get(root, path).Some? ==> Get(root, path[..i]).Some?
    ensures Get(root, path).Some? && i < |path| ==> Get(root, path[..i]).value.Obj?
    decreases i
  {
    if i > 0 && Get(root, path).Some? {
      assert path[..i][1..] == path[1..][..i - 1];
      PrefixOfGet(root.fields[path[0]], path[1..], i - 1);
    }
  }

  lemma PresentIsUnobstructed(root: Value, path: Path)
    requires Get(root, path).Some?
    ensures Unobstructed(root, path)
  {
    forall i | 0 < i < |path|
      ensures Get(root, path[..i]).Some? ==> Get(root, path[..i]).value.Obj?
    {
      PrefixOfGet(root, path, i);
    }
  }

  lemma {:induction false} RemoveKeepsTablesAbove(root: Table, path: Path, above: Path)
    requires path != [] && above < path
    ensures var before, after := Get(Obj(root), above), Get(Obj(RemoveIn(root, path)), above);
            (after.Some? ==> before.Some?) && (before.Some? && before.value.Obj? && after.Some? ==> after.value.Obj?)
    decreases path
  {
    if above != [] {
      assert |path| > 1 && above[0] == path[0];
      if path[0] in root && root[path[0]].Obj? {
        assert above[1..] < path[1..];
        RemoveKeepsTablesAbove(root[path[0]].fields, path[1..], above[1..]);
      }
    }
  }

  /** `inner` is properly inside `outer`. */
  predicate Inside(inner: Path, outer: Path) {
    outer <= inner && outer != inner
  }

  /** Setting or removing one field never puts a value in the way of another that is not inside it. */
  lemma SetKeepsWayFree(root: Value, path: Path, value: Value, other: Path)
    requires SetNested(root, path, value).Success? && Unobstructed(root, other) && !Inside(other, path)
    ensures Unobstructed(SetNested(root, path, value).value, other)
  {
    var next := SetNested(root, path, value).value;
    forall i | 0 < i < |other|
      ensures Get(next, other[..i]).Some? ==> Get(next, other[..i]).value.Obj?
    {
      var above := other[..i];
      if !Comparable(path, above) {
        SetNestedLaws(root, path, value, above);
      } else {
        SetNestedLaws(root, path, value, []);
        PrefixOfGet(next, path, i);
        assert path[..i] == above;
      }
    }
  }

  lemma RemoveKeepsWayFree(root: Value, path: Path, other: Path)
    requires path != [] && Unobstructed(root, other) && !Inside(other, path)
    ensures Unobstructed(RemoveNested(root, path), other)
  {
    var next := RemoveNested(root, path);
    if root.Obj? {
      forall i | 0 < i < |other|
        ensures Get(next, other[..i]).Some? ==> Get(next, other[..i]).value.Obj?
      {
        var above := other[..i];
        if !Comparable(path, above) {
          RemoveNestedLaws(root, path, above);
        } else {
          RemoveKeepsTablesAbove(root.fields, path, above);
        }
      }
    }
  }

  lemma {:induction false} GetThrough(root: Value, path: Path, i: nat)
    requires i <= |path|
    ensures Get(root, path) == if Get(root, path[..i]).Some? then Get(Get(root, path[..i]).value, path[i..]) else None
    decreases i
  {
    if i > 0 && root.Obj? && path[0] in root.fields {
      assert path[..i][1..] == path[1..][..i - 1] && path[i..] == path[1..][i - 1..];
      GetThrough(root.fields[path[0]], path[1..], i - 1);
    }
  }

  lemma SameBelow(a: Value, b: Value, outer: Path, path: Path)
    requires outer <= path && Get(a, outer) == Get(b, outer)
    ensures Get(a, path) == Get(b, path)
  {
    assert path[..|outer|] == outer;
    GetThrough(a, path, |outer|);
    GetThrough(b, path, |outer|);
  }

  lemma {:induction false} SetSameIn(root: Table, path: Path, value: Value)
    requires path != [] && Get(Obj(root), path) == Some(value)
    ensures SetIn(root, path, value) == Success(root)
    decreases path
  {
    assert root[path[0] := root[path[0]]] == root;
    if |path| > 1 {
      SetSameIn(Child(root, path[0]), path[1..], value);
    } else {
      assert path[1..] == [];
    }
  }

  lemma {:induction false} RemoveAbsentIn(root: Table, path: Path)
    requires path != [] && Get(Obj(root), path).None?
    ensures RemoveIn(root, path) == root
    decreases path
  {
    if |path| > 1 && path[0] in root && root[path[0]].Obj? {
      RemoveAbsentIn(Child(root, path[0]), path[1..]);
      assert root[path[0] := root[path[0]]] == root;
    } else if |path| == 1 {
      assert path[1..] == [];
    }
  }

  // ---- patch and restore ----------------------------------------------------------------------------------

  ghost predicate WellFormed(fields: seq<string>) {
    forall i :: 0 <= i < |fields| ==> [] !in Parts(fields[i])
  }

  /** One of the first `n` fields is `path` or holds it. */
  ghost predicate Covered(fields: seq<string>, n: nat, path: Path)
    requires n <= |fields|
  {
    exists i :: 0 <= i < n && Parts(fields[i]) <= path
  }

  /** Well-formed paths, and where one is inside another, the outer one or one that holds it comes first. In
      particular lists of which no path is inside another are manageable in any order. */
  ghost predicate Manageable(fields: seq<string>) {
    && WellFormed(fields)
    && (forall inner, outer :: 0 <= inner < |fields| && 0 <= outer < |fields| && Inside(Parts(fields[inner]), Parts(fields[outer])) ==>
          Covered(fields, inner, Parts(fields[outer])))
  }

  lemma PrefixFreeIsManageable(fields: seq<string>)
    requires WellFormed(fields)
    requires forall f, g :: f in fields && g in fields && Comparable(Parts(f), Parts(g)) ==> f == g
    ensures Manageable(fields)
  {
  }

  /** No managed path holds this one. */
  ghost predicate Outermost(fields: seq<string>, path: Path) {
    forall i :: 0 <= i < |fields| ==> !Inside(path, Parts(fields[i]))
  }

  /** The values of the fields that exist. */
  ghost function FieldValues(root: Value, fields: seq<string>): map<string, Value> {
    map f | f in fields && Get(root, Parts(f)).Some? :: Get(root, Parts(f)).value
  }

  ghost predicate Beside(fields: seq<string>, q: Path) {
    forall i :: 0 <= i < |fields| ==> !Comparable(Parts(fields[i]), q)
  }

  /** No value blocks the way to an outermost managed field that existed. */
  ghost predicate WayFree(original: Value, now: Value, fields: seq<string>) {
    && now.Obj?
    && (forall i :: 0 <= i < |fields| && Outermost(fields, Parts(fields[i])) && Get(original, Parts(fields[i])).Some? ==>
          Unobstructed(now, Parts(fields[i])))
  }

  ghost predicate SameBeside(base: Value, now: Value, fields: seq<string>) {
    forall q: Path :: Beside(fields, q) ==> Get(now, q) == Get(base, q)
  }

  /** `now` differs from `base` at or below managed paths only, and the managed fields that existed in `original` can
      be set. */
  ghost predicate Kept(original: Value, base: Value, now: Value, fields: seq<string>) {
    WayFree(original, now, fields) && SameBeside(base, now, fields)
  }

  lemma KeptAtStart(original: Value, fields: seq<string>)
    requires original.Obj?
    ensures Kept(original, original, original, fields)
  {
    forall i | 0 <= i < |fields| && Get(original, Parts(fields[i])).Some?
      ensures Unobstructed(original, Parts(fields[i]))
    {
      PresentIsUnobstructed(original, Parts(fields[i]));
    }
  }

  lemma SetKeeps(original: Value, base: Value, now: Value, fields: seq<string>, n: nat, value: Value)
    requires Kept(original, base, now, fields) && n < |fields| && SetDotted(now, fields[n], value).Success?
    ensures Kept(original, base, SetDotted(now, fields[n], value).value, fields)
  {
    var path := Parts(fields[n]);
    var next := SetDotted(now, fields[n], value).value;
    forall i | 0 <= i < |fields| && Outermost(fields, Parts(fields[i])) && Get(original, Parts(fields[i])).Some?
      ensures Unobstructed(next, Parts(fields[i]))
    {
      SetKeepsWayFree(now, path, value, Parts(fields[i]));
    }
    forall q: Path | Beside(fields, q)
      ensures Get(next, q) == Get(base, q)
    {
      SetNestedLaws(now, path, value, q);
    }
  }

  lemma RemoveKeeps(original: Value, base: Value, now: Value, fields: seq<string>, n: nat)
    requires Kept(original, base, now, fields) && n < |fields|
    ensures Kept(original, base, RemoveNested(now, Parts(fields[n])), fields)
  {
    var path := Parts(fields[n]);
    var next := RemoveNested(now, path);
    forall i | 0 <= i < |fields| && Outermost(fields, Parts(fields[i])) && Get(original, Parts(fields[i])).Some?
      ensures Unobstructed(next, Parts(fields[i]))
    {
      RemoveKeepsWayFree(now, path, Parts(fields[i]));
    }
    forall q: Path | Beside(fields, q)
      ensures Get(next, q) == Get(base, q)
    {
      RemoveNestedLaws(now, path, q);
    }
  }

  lemma {:induction false} PatchKeeps(original: Value, base: Value, now: Value, fields: seq<string>, patch: seq<ManagedField>)
    requires Kept(original, base, now, fields)
    requires forall i :: 0 <= i < |patch| ==> patch[i].path in fields
    requires ApplyFields(now, patch).Success?
    ensures Kept(original, base, ApplyFields(now, patch).value, fields)
    decreases patch
  {
    if patch != [] {
      var n :| 0 <= n < |fields| && fields[n] == patch[0].path;
      SetKeeps(original, base, now, fields, n, patch[0].value);
      PatchKeeps(original, base, SetDotted(now, patch[0].path, patch[0].value).value, fields, patch[1..]);
    }
  }

  /** The first `n` fields are back to what they were. */
  ghost predicate Returned(original: Value, now: Value, fields: seq<string>, n: nat)
    requires n <= |fields|
  {
    forall i :: 0 <= i < n ==> Get(now, Parts(fields[i])) == Get(original, Parts(fields[i]))
  }

  ghost predicate Records(m: Manifest, original: Value, fields: seq<string>) {
    && m.managedFields == fields && m.fieldSnapshots == FieldValues(original, fields)
    && m.absentFields == Missing(fields, FieldValues(original, fields))
  }

  /** Restoring one field turns `now` into `next`. */
  predicate Restores(now: Value, m: Manifest, f: string, next: Value) {
    if f in m.absentFields then next == RemoveNested(now, Parts(f))
    else f in m.fieldSnapshots && SetDotted(now, f, m.fieldSnapshots[f]) == Success(next)
  }

  /** A field inside one that is back already is back with it: restoring it changes nothing. */
  lemma CoveredFieldReturns(original: Value, now: Value, fields: seq<string>, m: Manifest, n: nat)
    requires WellFormed(fields) && now.Obj? && n < |fields| && Returned(original, now, fields, n)
    requires Records(m, original, fields) && Covered(fields, n, Parts(fields[n]))
    ensures Returned(original, now, fields, n + 1) && Restores(now, m, fields[n], now)
  {
    var path := Parts(fields[n]);
    var i :| 0 <= i < n && Parts(fields[i]) <= path;
    SameBelow(now, original, Parts(fields[i]), path);
    MissingExactly(fields, FieldValues(original, fields));
    if fields[n] in m.absentFields {
      RemoveAbsentIn(now.fields, path);
    } else {
      SetSameIn(now.fields, path, m.fieldSnapshots[fields[n]]);
    }
  }

  /** A field that no earlier one holds is neither inside nor around an earlier one. */
  lemma UncoveredStandsApart(fields: seq<string>, n: nat)
    requires Manageable(fields) && n < |fields| && !Covered(fields, n, Parts(fields[n]))
    ensures Outermost(fields, Parts(fields[n]))
    ensures forall i :: 0 <= i < n ==> !Comparable(Parts(fields[n]), Parts(fields[i]))
  {
  }

  lemma UncoveredFieldReturns(original: Value, base: Value, now: Value, fields: seq<string>, m: Manifest, n: nat) returns (next: Value)
    requires Manageable(fields) && Kept(original, base, now, fields) && n < |fields| && Returned(original, now, fields, n)
    requires Records(m, original, fields) && !Covered(fields, n, Parts(fields[n]))
    ensures Restores(now, m, fields[n], next)
    ensures Kept(original, base, next, fields) && Returned(original, next, fields, n + 1)
  {
    UncoveredStandsApart(fields, n);
    MissingExactly(fields, FieldValues(original, fields));
    if fields[n] in m.absentFields {
      next := RemoveNested(now, Parts(fields[n]));
      AbsentFieldReturns(original, base, now, fields, n);
    } else {
      next := PresentFieldReturns(original, base, now, fields, n);
    }
  }

  lemma AbsentFieldReturns(original: Value, base: Value, now: Value, fields: seq<string>, n: nat)
    requires Kept(original, base, now, fields) && n < |fields| && Returned(original, now, fields, n)
    requires forall i :: 0 <= i < n ==> !Comparable(Parts(fields[n]), Parts(fields[i]))
    requires Get(original, Parts(fields[n])).None?
    ensures var next := RemoveNested(now, Parts(fields[n])); Kept(original, base, next, fields) && Returned(original, next, fields, n + 1)
  {
    RemoveKeeps(original, base, now, fields, n);
    ReturnedAfterRemoval(original, now, fields, n);
  }

  lemma ReturnedAfterRemoval(original: Value, now: Value, fields: seq<string>, n: nat)
    requires n < |fields| && Returned(original, now, fields, n) && Get(original, Parts(fields[n])).None?
    requires forall i :: 0 <= i < n ==> !Comparable(Parts(fields[n]), Parts(fields[i]))
    ensures Returned(original, RemoveNested(now, Parts(fields[n])), fields, n + 1)
  {
    forall i | 0 <= i < n + 1
      ensures Get(RemoveNested(now, Parts(fields[n])), Parts(fields[i])) == Get(original, Parts(fields[i]))
    {
      RemoveNestedLaws(now, Parts(fields[n]), Parts(fields[i]));
    }
  }

  lemma PresentFieldReturns(original: Value, base: Value, now: Value, fields: seq<string>, n: nat) returns (next: Value)
    requires Kept(original, base, now, fields) && n < |fields| && Returned(original, now, fields, n)
    requires [] !in Parts(fields[n]) && Outermost(fields, Parts(fields[n]))
    requires forall i :: 0 <= i < n ==> !Comparable(Parts(fields[n]), Parts(fields[i]))
    requires Get(original, Parts(fields[n])).Some?
    ensures SetDotted(now, fields[n], Get(original, Parts(fields[n])).value) == Success(next)
    ensures Kept(original, base, next, fields) && Returned(original, next, fields, n + 1)
  {
    var path := Parts(fields[n]);
    var value := Get(original, path).value;
    SetSucceedsIff(now.fields, path, value);
    next := SetDotted(now, fields[n], value).value;
    SetKeeps(original, base, now, fields, n, value);
    ReturnedAfterSet(original, now, fields, n, value, next);
  }

  lemma ReturnedAfterSet(original: Value, now: Value, fields: seq<string>, n: nat, value: Value, next: Value)
    requires n < |fields| && Returned(original, now, fields, n) && Get(original, Parts(fields[n])) == Some(value)
    requires forall i :: 0 <= i < n ==> !Comparable(Parts(fields[n]), Parts(fields[i]))
    requires SetDotted(now, fields[n], value) == Success(next)
    ensures Returned(original, next, fields, n + 1)
  {
    forall i | 0 <= i < n + 1
      ensures Get(next, Parts(fields[i])) == Get(original, Parts(fields[i]))
    {
      SetNestedLaws(now, Parts(fields[n]), value, Parts(fields[i]));
    }
  }

  lemma FieldReturns(original: Value, base: Value, now: Value, fields: seq<string>, m: Manifest, n: nat) returns (next: Value)
    requires Manageable(fields) && Kept(original, base, now, fields) && n < |fields| && Returned(original, now, fields, n)
    requires Records(m, original, fields)
    ensures RestoreFields(now, m, fields[n..]) == RestoreFields(next, m, fields[n + 1..])
    ensures Kept(original, base, next, fields) && Returned(original, next, fields, n + 1)
  {
    if Covered(fields, n, Parts(fields[n])) {
      CoveredFieldReturns(original, now, fields, m, n);
      next := now;
    } else {
      next := UncoveredFieldReturns(original, base, now, fields, m, n);
    }
    RestoreNext(now, m, fields, n, next);
  }

  lemma RestoreNext(now: Value, m: Manifest, fields: seq<string>, n: nat, next: Value)
    requires n < |fields| && Restores(now, m, fields[n], next)
    ensures RestoreFields(now, m, fields[n..]) == RestoreFields(next, m, fields[n + 1..])
  {
  }

  /** Restoring a manageable list never meets a type conflict and returns every field. */
  lemma {:induction false} RestoreReturns(original: Value, base: Value, now: Value, fields: seq<string>, m: Manifest, n: nat)
    requires Manageable(fields) && Kept(original, base, now, fields) && n <= |fields| && Returned(original, now, fields, n)
    requires Records(m, original, fields)
    ensures var r := RestoreFields(now, m, fields[n..]);
            r.Success? && Kept(original, base, r.value, fields) && Returned(original, r.value, fields, |fields|)
    decreases |fields| - n
  {
    if n < |fields| {
      var next := FieldReturns(original, base, now, fields, m, n);
      RestoreReturns(original, base, next, fields, m, n + 1);
    }
  }

  // ---- why the outer field has to come first --------------------------------------------------------------

  /** A tree with nothing but `value` at `path`. */
  function Only(path: Path, value: Value): Value {
    if path == [] then value else Obj(map[path[0] := Only(path[1..], value)])
  }

  lemma {:induction false} OnlyHolds(path: Path, value: Value)
    ensures Get(Only(path, value), path) == Some(value)
  {
    if path != [] {
      OnlyHolds(path[1..], value);
    }
  }

  lemma BlockedBelow(now: Value, outer: Path, inner: Path, value: Value)
    requires now.Obj? && outer != [] && [] !in inner && Inside(inner, outer)
    requires Get(now, outer).Some? && !Get(now, outer).value.Obj?
    ensures SetNested(now, inner, value).Failure? && RemoveNested(now, inner) == now
  {
    assert inner[..|outer|] == outer && 0 < |outer| < |inner|;
    SetSucceedsIff(now.fields, inner, value);
    GetThrough(now, inner, |outer|);
    RemoveAbsentIn(now.fields, inner);
  }

  lemma {:induction false} BlockedRestore(now: Value, original: Value, fields: seq<string>, m: Manifest, n: nat, inner: nat, outer: Path)
    requires WellFormed(fields) && Records(m, original, fields) && n <= inner < |fields|
    requires outer != [] && Inside(Parts(fields[inner]), outer) && !Covered(fields, inner, outer)
    requires Get(original, Parts(fields[inner])).Some?
    requires now.Obj? && Get(now, outer).Some? && !Get(now, outer).value.Obj?
    ensures RestoreFields(now, m, fields[n..]).Failure?
    decreases inner - n
  {
    var f, path := fields[n], Parts(fields[n]);
    RecordedOrAbsent(original, fields, m, n);
    if n == inner {
      BlockedBelow(now, outer, path, m.fieldSnapshots[f]);
      RestoreFails(now, m, fields, n);
    } else if f !in m.absentFields && SetDotted(now, f, m.fieldSnapshots[f]).Failure? {
      RestoreFails(now, m, fields, n);
    } else {
      var next := StaysBlocked(now, m, f, outer);
      RestoreNext(now, m, fields, n, next);
      BlockedRestore(next, original, fields, m, n + 1, inner, outer);
    }
  }

  lemma StaysBlocked(now: Value, m: Manifest, f: string, outer: Path) returns (next: Value)
    requires now.Obj? && outer != [] && [] !in Parts(f) && !(Parts(f) <= outer)
    requires Get(now, outer).Some? && !Get(now, outer).value.Obj?
    requires f !in m.absentFields ==> f in m.fieldSnapshots && SetDotted(now, f, m.fieldSnapshots[f]).Success?
    ensures Restores(now, m, f, next) && next.Obj? && Get(next, outer) == Get(now, outer)
  {
    if f in m.absentFields {
      next := RemoveNested(now, Parts(f));
      StaysBlockedOnRemoval(now, outer, Parts(f));
    } else {
      next := SetDotted(now, f, m.fieldSnapshots[f]).value;
      StaysBlockedOnSet(now, outer, Parts(f), m.fieldSnapshots[f]);
    }
  }

  lemma StaysBlockedOnRemoval(now: Value, outer: Path, path: Path)
    requires now.Obj? && outer != [] && path != [] && [] !in path && !(path <= outer)
    requires Get(now, outer).Some? && !Get(now, outer).value.Obj?
    ensures RemoveNested(now, path).Obj? && Get(RemoveNested(now, path), outer) == Get(now, outer)
  {
    if Inside(path, outer) {
      BlockedBelow(now, outer, path, Null);
    } else {
      RemoveNestedLaws(now, path, outer);
    }
  }

  lemma StaysBlockedOnSet(now: Value, outer: Path, path: Path, value: Value)
    requires now.Obj? && outer != [] && path != [] && [] !in path && !(path <= outer)
    requires Get(now, outer).Some? && !Get(now, outer).value.Obj?
    ensures Inside(path, outer) ==> SetNested(now, path, value).Failure?
    ensures SetNested(now, path, value).Success? ==>
              SetNested(now, path, value).value.Obj? && Get(SetNested(now, path, value).value, outer) == Get(now, outer)
  {
    if Inside(path, outer) {
      BlockedBelow(now, outer, path, value);
    } else if SetNested(now, path, value).Success? {
      SetNestedLaws(now, path, value, outer);
    }
  }

  lemma RestoreFails(now: Value, m: Manifest, fields: seq<string>, n: nat)
    requires n < |fields| && fields[n] !in m.absentFields && fields[n] in m.fieldSnapshots
    requires SetDotted(now, fields[n], m.fieldSnapshots[fields[n]]).Failure?
    ensures RestoreFields(now, m, fields[n..]).Failure?
  {
  }

  lemma RecordedOrAbsent(original: Value, fields: seq<string>, m: Manifest, n: nat)
    requires Records(m, original, fields) && n < |fields|
    ensures fields[n] in m.absentFields <==> Get(original, Parts(fields[n])).None?
    ensures fields[n] !in m.absentFields ==>
              fields[n] in m.fieldSnapshots && Some(m.fieldSnapshots[fields[n]]) == Get(original, Parts(fields[n]))
  {
    MissingExactly(fields, FieldValues(original, fields));
    assert fields[n] in fields;
  }

  /** When a field is listed before the one it is inside, and before any other that holds that one, there are a file
      and a patch after which the restore fails. */
  lemma InnerFirstCanConflict(fields: seq<string>, inner: nat, outer: nat)
    requires WellFormed(fields) && inner < |fields| && outer < |fields|
    requires Inside(Parts(fields[inner]), Parts(fields[outer])) && !Covered(fields, inner, Parts(fields[outer]))
    ensures exists original: Value, patch: seq<ManagedField> :: RestoreConflicts(original, fields, patch)
  {
    var path, around := Parts(fields[inner]), Parts(fields[outer]);
    var original := Only(path, Int(1));
    var patch := [ManagedField(fields[outer], Int(5))];
    OnlyHolds(path, Int(1));
    PresentIsUnobstructed(original, path);
    assert path[..|around|] == around;
    PrefixOfGet(original, path, |around|);
    PresentIsUnobstructed(original, around);
    SetSucceedsIff(original.fields, around, Int(5));
    var now := SetDotted(original, fields[outer], Int(5)).value;
    assert patch[1..] == [];
    assert ApplyFields(original, patch) == Success(now);
    SetNestedLaws(original, around, Int(5), around);
    var m := NewManifest(fields, FieldValues(original, fields), 0, 0);
    BlockedRestore(now, original, fields, m, 0, inner, around);
    assert fields[0..] == fields;
    assert RestoreConflicts(original, fields, patch);
  }

  /** Every managed field goes back, whatever the tree was and whatever patches of managed fields did to it. */
  ghost predicate AlwaysRestores(fields: seq<string>) {
    forall original: Value, patch: seq<ManagedField> ::
      original.Obj? && OnlyManaged(patch, fields) && ApplyFields(original, patch).Success? ==>
        var m := NewManifest(fields, FieldValues(original, fields), 0, 0);
        var r := RestoreFields(ApplyFields(original, patch).value, m, fields);
        r.Success? && Returned(original, r.value, fields, |fields|)
  }

  ghost predicate OnlyManaged(patch: seq<ManagedField>, fields: seq<string>) {
    forall i :: 0 <= i < |patch| ==> patch[i].path in fields
  }

  ghost predicate RestoreConflicts(original: Value, fields: seq<string>, patch: seq<ManagedField>) {
    && original.Obj? && OnlyManaged(patch, fields) && ApplyFields(original, patch).Success?
    && RestoreFields(ApplyFields(original, patch).value, NewManifest(fields, FieldValues(original, fields), 0, 0), fields).Failure?
  }

  /** For well-formed fields the restore can be relied on exactly when outer fields come before inner ones. */
  lemma RestoreIsCleanExactly(fields: seq<string>)
    requires WellFormed(fields)
    ensures AlwaysRestores(fields) <==> Manageable(fields)
  {
    if Manageable(fields) {
      forall original: Value, patch: seq<ManagedField> |
        original.Obj? && OnlyManaged(patch, fields) && ApplyFields(original, patch).Success?
        ensures var m := NewManifest(fields, FieldValues(original, fields), 0, 0);
                var r := RestoreFields(ApplyFields(original, patch).value, m, fields);
                r.Success? && Returned(original, r.value, fields, |fields|)
      {
        var m := NewManifest(fields, FieldValues(original, fields), 0, 0);
        KeptAtStart(original, fields);
        PatchKeeps(original, original, original, fields, patch);
        RestoreReturns(original, original, ApplyFields(original, patch).value, fields, m, 0);
        assert fields[0..] == fields;
      }
    } else {
      var inner, outer :| 0 <= inner < |fields| && 0 <= outer < |fields|
        && Inside(Parts(fields[inner]), Parts(fields[outer])) && !Covered(fields, inner, Parts(fields[outer]));
      InnerFirstCanConflict(fields, inner, outer);
      var original: Value, patch: seq<ManagedField> :| RestoreConflicts(original, fields, patch);
    }
  }
}
