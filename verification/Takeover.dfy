/** Ownership of configuration fields: the store, its lock sections and their specification. */
module Takeover {
  import opened Json
  import opened Wrappers

  datatype OwnershipState = Verified | Adopted | Releasing | Released

  datatype Manifest = Manifest(
    state: OwnershipState,
    managedFields: seq<string>,
    fieldSnapshots: map<string, Value>,
    absentFields: seq<string>,
    adoptedAt: Option<int>,
    releasedAt: Option<int>,
    generation: nat)

  datatype StoreError = WrongState(state: OwnershipState) | OwnershipChanged(state: OwnershipState, generation: nat)

  /** The value behind the lock. */
  datatype Store = Store(
    state: OwnershipState,
    manifest: Option<Manifest>,
    lastApplied: map<string, Value>,
    generation: nat)

  const FRESH := Store(Verified, None, map[], 0)

  function Captured(fields: seq<string>, values: map<string, Value>): map<string, Value> {
    map f | f in fields && f in values :: values[f]
  }

  function Missing(fields: seq<string>, values: map<string, Value>): seq<string>
    decreases fields
  {
    if fields == [] then []
    else (if fields[0] in values then [] else [fields[0]]) + Missing(fields[1..], values)
  }

  function NewManifest(fields: seq<string>, values: map<string, Value>, generation: nat, now: int): Manifest {
    Manifest(Adopted, fields, Captured(fields, values), Missing(fields, values), Some(now), None, generation)
  }

  function AfterAdopt(s: Store, fields: seq<string>, values: map<string, Value>, now: int): Result<Store, StoreError> {
    if s.state != Verified && s.state != Released then
      Failure(WrongState(s.state))
    else
      Success(Store(Adopted, Some(NewManifest(fields, values, s.generation, now)), Captured(fields, values), s.generation))
  }

  /** The store once the ownership described by its manifest is given back. */
  function Relinquished(s: Store, now: int): Store
    requires s.manifest.Some?
  {
    var done := s.manifest.value.(state := Released, releasedAt := Some(now), generation := s.generation + 1);
    s.(state := Released, manifest := Some(done), generation := s.generation + 1)
  }

  function AfterRelease(s: Store, now: int): Result<Store, StoreError>
    requires s.state == Adopted ==> s.manifest.Some?
  {
    if s.state != Adopted then Failure(WrongState(s.state)) else Success(Relinquished(s, now))
  }

  function AfterClaim(s: Store): Result<Store, StoreError> {
    if s.state != Adopted then Failure(WrongState(s.state)) else Success(s.(state := Releasing))
  }

  function AfterAbort(s: Store): Store {
    if s.state == Releasing then s.(state := Adopted) else s
  }

  predicate CommitRefused(s: Store, expected: nat) {
    s.state != Releasing || s.generation != expected
  }

  function AfterCommit(s: Store, expected: nat, now: int): (Store, Result<Manifest, StoreError>)
    requires !CommitRefused(s, expected) ==> s.manifest.Some?
  {
    if CommitRefused(s, expected) then
      (AfterAbort(s), Failure(OwnershipChanged(s.state, s.generation)))
    else
      (Relinquished(s, now), Success(Relinquished(s, now).manifest.value))
  }

  /** What every reachable store satisfies between two lock sections. */
  ghost predicate Sound(s: Store) {
    && (s.state == Verified <==> s.manifest.None?)
    && (s.manifest.Some? ==>
          var m := s.manifest.value;
          && m.state == (if s.state == Released then Released else Adopted)
          && m.generation == s.generation
          && (m.releasedAt.Some? <==> s.state == Released) && m.adoptedAt.Some?
          && Splits(m))
  }

  /** Every managed field is either captured or recorded as absent, never both, and nothing else is. */
  ghost predicate Splits(m: Manifest) {
    forall f :: (f in m.managedFields <==> f in m.fieldSnapshots || f in m.absentFields)
             && !(f in m.fieldSnapshots && f in m.absentFields)
  }

  lemma {:induction false} MissingExactly(fields: seq<string>, values: map<string, Value>)
    ensures forall f :: f in Missing(fields, values) <==> f in fields && f !in values
    decreases fields
  {
    if fields != [] {
      MissingExactly(fields[1..], values);
      assert fields == [fields[0]] + fields[1..];
    }
  }

  lemma AdoptionSplits(fields: seq<string>, values: map<string, Value>, generation: nat, now: int)
    ensures Splits(NewManifest(fields, values, generation, now))
  {
    MissingExactly(fields, values);
  }

  /** The store. Each method is one section under its lock. */
  class TakeoverStore {
    var state: OwnershipState
    var manifest: Option<Manifest>
    var lastApplied: map<string, Value>
    var generation: nat

    constructor ()
      ensures View() == FRESH && Sound(View())
    {
      state, manifest, lastApplied, generation := Verified, None, map[], 0;
    }

    function View(): Store
      reads this
    {
      Store(state, manifest, lastApplied, generation)
    }

    method Adopt(managedFields: seq<string>, currentValues: map<string, Value>, now: int)
      returns (r: Result<Manifest, StoreError>)
      requires Sound(View())
      modifies this
      ensures Sound(View())
      ensures match AfterAdopt(old(View()), managedFields, currentValues, now)
              case Success(next) => View() == next && r == Success(next.manifest.value)
              case Failure(e) => View() == old(View()) && r == Failure(e)
    {
      if state != Verified && state != Released {
        return Failure(WrongState(state));
      }
      var fieldSnapshots: map<string, Value> := map[];
      var absentFields: seq<string> := [];
      for i := 0 to |managedFields|
        invariant View() == old(View())
        invariant fieldSnapshots == Captured(managedFields[..i], currentValues)
        invariant absentFields == Missing(managedFields[..i], currentValues)
      {
        var f := managedFields[i];
        assert managedFields[..i + 1] == managedFields[..i] + [f];
        MissingLast(managedFields[..i], currentValues, f);
        if f in currentValues {
          fieldSnapshots := fieldSnapshots[f := currentValues[f]];
        } else {
          absentFields := absentFields + [f];
        }
      }
      assert managedFields[..|managedFields|] == managedFields;
      lastApplied := fieldSnapshots;
      var adopted := Manifest(Adopted, managedFields, fieldSnapshots, absentFields, Some(now), None, generation);
      state := Adopted;
      manifest := Some(adopted);
      AdoptionSplits(managedFields, currentValues, generation, now);
      r := Success(adopted);
    }

    method Release(now: int) returns (r: Result<Manifest, StoreError>)
      requires Sound(View())
      modifies this
      ensures Sound(View())
      ensures match AfterRelease(old(View()), now)
              case Success(next) => View() == next && r == Success(next.manifest.value)
              case Failure(e) => View() == old(View()) && r == Failure(e)
    {
      if state != Adopted {
        return Failure(WrongState(state));
      }
      generation := generation + 1;
      var released := manifest.value.(state := Released, releasedAt := Some(now), generation := generation);
      manifest := Some(released);
      state := Released;
      r := Success(released);
    }

    /** The first section of a restoring release. */
    method ClaimRelease() returns (r: Result<(Manifest, nat), StoreError>)
      requires Sound(View())
      modifies this
      ensures Sound(View())
      ensures match AfterClaim(old(View()))
              case Success(next) => View() == next && r == Success((next.manifest.value, next.generation))
              case Failure(e) => View() == old(View()) && r == Failure(e)
    {
      if state != Adopted {
        return Failure(WrongState(state));
      }
      state := Releasing;
      r := Success((manifest.value, generation));
    }

    /** The last section of a restoring release. */
    method CommitRelease(expectedGeneration: nat, now: int) returns (r: Result<Manifest, StoreError>)
      requires Sound(View())
      modifies this
      ensures Sound(View())
      ensures (View(), r) == AfterCommit(old(View()), expectedGeneration, now)
    {
      if state != Releasing || generation != expectedGeneration {
        r := Failure(OwnershipChanged(state, generation));
        if state == Releasing {
          state := Adopted;
        }
        return;
      }
      generation := generation + 1;
      var released := manifest.value.(state := Released, releasedAt := Some(now), generation := generation);
      manifest := Some(released);
      state := Released;
      r := Success(released);
    }

    method AbortRelease()
      requires Sound(View())
      modifies this
      ensures Sound(View()) && View() == AfterAbort(old(View()))
    {
      if state == Releasing {
        state := Adopted;
      }
    }

    method CheckOrphanedState() returns (orphaned: bool)
      ensures orphaned == (state == Adopted)
    {
      orphaned := state == Adopted;
    }
  }

  lemma {:induction false} MissingLast(fields: seq<string>, values: map<string, Value>, last: string)
    ensures Missing(fields + [last], values) == Missing(fields, values) + if last in values then [] else [last]
    decreases fields
  {
    if fields == [] {
      assert [last][1..] == [];
    } else {
      assert (fields + [last])[1..] == fields[1..] + [last];
      MissingLast(fields[1..], values, last);
    }
  }
}
