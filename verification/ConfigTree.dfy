/** Dotted paths into a configuration tree: getting, setting and removing a field, and the laws between them. */
module ConfigTree {
  import opened Json
  import opened Wrappers

  type Table = map<string, Value>

  // ---- tables in a tree -----------------------------------------------------------------------------------

  function Child(root: Table, part: string): Table {
    if part in root && root[part].Obj? then root[part].fields else map[]
  }

  /** `path` leads through tables only. */
  predicate HasTable(root: Table, path: Path)
    decreases path
  {
    path == [] || (path[0] in root && root[path[0]].Obj? && HasTable(Child(root, path[0]), path[1..]))
  }

  function At(root: Table, path: Path): Table
    decreases path
  {
    if path == [] then root else At(Child(root, path[0]), path[1..])
  }

  /** `root` with `table` written at `path`. */
  function Put(root: Table, path: Path, table: Table): Table
    decreases path
  {
    if path == [] then table else root[path[0] := Obj(Put(Child(root, path[0]), path[1..], table))]
  }

  /** `root` with a table at `path`: missing tables are created; the error names a part that holds a value. */
  function EnsureTable(root: Table, path: Path): Result<Table, string>
    decreases path
  {
    if path == [] then
      Success(root)
    else if path[0] in root && !root[path[0]].Obj? then
      Failure(path[0])
    else
      var child :- EnsureTable(Child(root, path[0]), path[1..]);
      Success(root[path[0] := Obj(child)])
  }

  lemma Overwrite(m: Table, k: string, a: Value, b: Value)
    ensures m[k := a][k := b] == m[k := b]
  {
  }

  lemma {:induction false} EnsureExisting(root: Table, path: Path)
    requires HasTable(root, path)
    ensures EnsureTable(root, path) == Success(root)
    decreases path
  {
    if path != [] {
      EnsureExisting(Child(root, path[0]), path[1..]);
      assert root[path[0] := root[path[0]]] == root;
    }
  }

  lemma {:induction false} EnsureMakesTable(root: Table, path: Path)
    requires EnsureTable(root, path).Success?
    ensures HasTable(EnsureTable(root, path).value, path)
    decreases path
  {
    if path != [] {
      EnsureMakesTable(Child(root, path[0]), path[1..]);
    }
  }

  /** One step of the walk: from a table that exists to the part below it. */
  lemma {:induction false} WalkStep(root: Table, path: Path, part: string, rest: Path)
    requires HasTable(root, path) && part in At(root, path)
    ensures var table := At(root, path);
            if table[part].Obj? then
              HasTable(root, path + [part]) && At(root, path + [part]) == table[part].fields
            else
              EnsureTable(root, path + [part] + rest) == Failure(part)
    decreases path
  {
    var long := path + [part] + rest;
    if path == [] {
      assert long[1..] == rest && (path + [part])[1..] == [];
    } else {
      assert long[1..] == path[1..] + [part] + rest && (path + [part])[1..] == path[1..] + [part];
      WalkStep(Child(root, path[0]), path[1..], part, rest);
    }
  }

  /** Creating the next table does not change where the walk ends. */
  lemma {:induction false} WalkCreates(root: Table, path: Path, part: string, rest: Path)
    requires HasTable(root, path) && part !in At(root, path)
    ensures var next := Put(root, path, At(root, path)[part := Obj(map[])]);
            && HasTable(next, path + [part]) && At(next, path + [part]) == map[]
            && EnsureTable(next, path + [part] + rest) == EnsureTable(root, path + [part] + rest)
    decreases path
  {
    var long := path + [part] + rest;
    if path == [] {
      assert long[1..] == rest && (path + [part])[1..] == [];
      var end := EnsureTable(map[], rest);
      if end.Success? {
        Overwrite(root, part, Obj(map[]), Obj(end.value));
      }
    } else {
      assert long[1..] == path[1..] + [part] + rest && (path + [part])[1..] == path[1..] + [part];
      var child := Child(root, path[0]);
      WalkCreates(child, path[1..], part, rest);
      var end := EnsureTable(child, long[1..]);
      if end.Success? {
        Overwrite(root, path[0], Obj(Put(child, path[1..], At(child, path[1..])[part := Obj(map[])])), Obj(end.value));
      }
    }
  }

  lemma {:induction false} PutAt(root: Table, path: Path, table: Table)
    ensures HasTable(Put(root, path, table), path) && At(Put(root, path, table), path) == table
    ensures HasTable(root, path) ==> Put(root, path, At(root, path)) == root
    decreases path
  {
    if path != [] {
      PutAt(Child(root, path[0]), path[1..], table);
      assert HasTable(root, path) ==> root[path[0] := root[path[0]]] == root;
    }
  }

  lemma {:induction false} PutAgain(root: Table, path: Path, first: Table, second: Table)
    ensures Put(Put(root, path, first), path, second) == Put(root, path, second)
    decreases path
  {
    if path != [] {
      PutAgain(Child(root, path[0]), path[1..], first, second);
    }
  }

  /** Writing one level deeper is writing the enclosing table with that child. */
  lemma {:induction false} PutDeeper(root: Table, path: Path, table: Table, part: string, child: Table)
    ensures Put(Put(root, path, table), path + [part], child) == Put(root, path, table[part := Obj(child)])
    decreases path
  {
    if path == [] {
      assert ([] + [part])[1..] == [];
    } else {
      assert (path + [part])[1..] == path[1..] + [part];
      PutDeeper(Child(root, path[0]), path[1..], table, part, child);
    }
  }

  // ---- one field ------------------------------------------------------------------------------------------

  datatype SetError = InvalidPath | RootNotTable | TypeConflict(part: string)

  /** `root` with `value` at `path`. */
  function SetIn(root: Table, path: Path, value: Value): Result<Table, string>
    requires path != []
    decreases path
  {
    if |path| == 1 then
      Success(root[path[0] := value])
    else if path[0] in root && !root[path[0]].Obj? then
      Failure(path[0])
    else
      var child :- SetIn(Child(root, path[0]), path[1..], value);
      Success(root[path[0] := Obj(child)])
  }

  function RemoveIn(root: Table, path: Path): Table
    requires path != []
    decreases path
  {
    if |path| == 1 then
      root - {path[0]}
    else if path[0] in root && root[path[0]].Obj? then
      root[path[0] := Obj(RemoveIn(root[path[0]].fields, path[1..]))]
    else
      root
  }

  function Get(root: Value, path: Path): Option<Value>
    decreases path
  {
    if path == [] then Some(root)
    else if root.Obj? && path[0] in root.fields then Get(root.fields[path[0]], path[1..])
    else None
  }

  function SetNested(root: Value, path: Path, value: Value): Result<Value, SetError> {
    if path == [] || [] in path then
      Failure(InvalidPath)
    else if !root.Obj? then
      Failure(RootNotTable)
    else
      match SetIn(root.fields, path, value)
      case Success(fields) => Success(Obj(fields))
      case Failure(part) => Failure(TypeConflict(part))
  }

  function RemoveNested(root: Value, path: Path): Value {
    if path != [] && root.Obj? then Obj(RemoveIn(root.fields, path)) else root
  }

  /** Setting a leaf is opening its parent table and writing there. */
  lemma {:induction false} SetThroughParent(root: Table, parents: Path, leaf: string, value: Value)
    ensures SetIn(root, parents + [leaf], value) ==
            match EnsureTable(root, parents)
            case Failure(part) => Failure(part)
            case Success(tree) => Success(Put(tree, parents, At(tree, parents)[leaf := value]))
    decreases parents
  {
    if parents == [] {
      assert [] + [leaf] == [leaf];
    } else {
      assert (parents + [leaf])[1..] == parents[1..] + [leaf];
      SetThroughParent(Child(root, parents[0]), parents[1..], leaf, value);
      var down := EnsureTable(Child(root, parents[0]), parents[1..]);
      if down.Success? {
        var table := At(down.value, parents[1..])[leaf := value];
        Overwrite(root, parents[0], Obj(down.value), Obj(Put(down.value, parents[1..], table)));
      }
    }
  }

  lemma {:induction false} RemoveThroughParent(root: Table, parents: Path, leaf: string)
    ensures RemoveIn(root, parents + [leaf]) ==
            if HasTable(root, parents) then Put(root, parents, At(root, parents) - {leaf}) else root
    decreases parents
  {
    if parents == [] {
      assert [] + [leaf] == [leaf];
    } else {
      assert (parents + [leaf])[1..] == parents[1..] + [leaf];
      RemoveThroughParent(Child(root, parents[0]), parents[1..], leaf);
      if parents[0] in root && root[parents[0]].Obj? {
        assert root[parents[0]] == Obj(Child(root, parents[0]));
        assert root[parents[0] := root[parents[0]]] == root;
      }
    }
  }

  /** A configuration held in memory and edited in place. */
  class Document {
    var raw: Value

    constructor (raw: Value)
      ensures this.raw == raw
    {
      this.raw := raw;
    }

    /** Walks down `path`, creating tables on the way, and returns the one it reached. */
    method OpenTable(path: Path) returns (r: Result<Table, string>)
      requires raw.Obj?
      modifies this
      ensures raw.Obj?
      ensures match EnsureTable(old(raw).fields, path)
              case Success(tree) => raw == Obj(tree) && HasTable(tree, path) && r == Success(At(tree, path))
              case Failure(part) => raw == old(raw) && r == Failure(part)
    {
      var current := raw.fields;
      for i := 0 to |path|
        invariant raw.Obj? && HasTable(raw.fields, path[..i]) && current == At(raw.fields, path[..i])
        invariant raw == old(raw) || current == map[]
        invariant EnsureTable(raw.fields, path) == EnsureTable(old(raw).fields, path)
      {
        var part := path[i];
        assert path[..i] + [part] + path[i + 1..] == path && path[..i] + [part] == path[..i + 1];
        if part !in current {
          WalkCreates(raw.fields, path[..i], part, path[i + 1..]);
          raw := Obj(Put(raw.fields, path[..i], current[part := Obj(map[])]));
          current := map[];
        } else {
          WalkStep(raw.fields, path[..i], part, path[i + 1..]);
          if !current[part].Obj? {
            return Failure(part);
          }
          current := current[part].fields;
        }
      }
      assert path[..|path|] == path;
      EnsureExisting(raw.fields, path);
      r := Success(current);
    }

    /** Sets a field; on failure the configuration is untouched. */
    method SetField(path: Path, value: Value) returns (r: Result<(), SetError>)
      modifies this
      ensures match SetNested(old(raw), path, value)
              case Success(next) => r == Success(()) && raw == next
              case Failure(e) => r == Failure(e) && raw == old(raw)
    {
      if path == [] || [] in path {
        return Failure(InvalidPath);
      }
      if !raw.Obj? {
        return Failure(RootNotTable);
      }
      var parents, leaf := path[..|path| - 1], path[|path| - 1];
      assert parents + [leaf] == path;
      SetThroughParent(raw.fields, parents, leaf, value);
      var found := OpenTable(parents);
      if found.Failure? {
        return Failure(TypeConflict(found.error));
      }
      raw := Obj(Put(raw.fields, parents, found.value[leaf := value]));
      r := Success(());
    }

    /** Removes a field, leaving everything else (its parent tables included) in place. */
    method RemoveField(path: Path)
      modifies this
      ensures raw == RemoveNested(old(raw), path)
    {
      if path == [] || !raw.Obj? {
        return;
      }
      var parents, leaf := path[..|path| - 1], path[|path| - 1];
      assert parents + [leaf] == path;
      RemoveThroughParent(raw.fields, parents, leaf);
      var current := raw.fields;
      for i := 0 to |parents|
        invariant raw.Obj? && HasTable(raw.fields, parents[..i]) && current == At(raw.fields, parents[..i])
        invariant raw == old(raw)
      {
        assert parents[..i] + [parents[i]] + parents[i + 1..] == parents;
        assert parents[..i] + [parents[i]] == parents[..i + 1];
        if parents[i] !in current || !current[parents[i]].Obj? {
          NoTableBelow(raw.fields, parents, i);
          return;
        }
        WalkStep(raw.fields, parents[..i], parents[i], parents[i + 1..]);
        current := current[parents[i]].fields;
      }
      assert parents[..|parents|] == parents;
      raw := Obj(Put(raw.fields, parents, current - {leaf}));
    }

    method GetField(path: Path) returns (v: Option<Value>)
      ensures v == Get(raw, path)
    {
      var current := raw;
      for i := 0 to |path|
        invariant Get(raw, path) == Get(current, path[i..])
      {
        assert path[i..][1..] == path[i + 1..];
        if !current.Obj? || path[i] !in current.fields {
          return None;
        }
        current := current.fields[path[i]];
      }
      v := Some(current);
    }
  }

  lemma {:induction false} NoTableBelow(root: Table, path: Path, i: nat)
    requires i < |path| && HasTable(root, path[..i])
    requires var table := At(root, path[..i]); path[i] !in table || !table[path[i]].Obj?
    ensures !HasTable(root, path)
    decreases i
  {
    if i > 0 {
      assert path[..i][1..] == path[1..][..i - 1];
      NoTableBelow(Child(root, path[0]), path[1..], i - 1);
    }
  }

  // ---- laws -----------------------------------------------------------------------------------------------

  predicate Comparable(p: Path, q: Path) {
    p <= q || q <= p
  }

  /** Every proper prefix of `path` is absent or a table. */
  ghost predicate Unobstructed(root: Value, path: Path) {
    forall i :: 0 < i < |path| && Get(root, path[..i]).Some? ==> Get(root, path[..i]).value.Obj?
  }

  lemma {:induction false} UnobstructedBelow(root: Table, path: Path)
    requires |path| > 1
    ensures Unobstructed(Obj(root), path) <==>
            (path[0] in root ==> root[path[0]].Obj?) && Unobstructed(Obj(Child(root, path[0])), path[1..])
  {
    var child := Obj(Child(root, path[0]));
    assert path[..1][1..] == [];
    assert Get(Obj(root), path[..1]) == if path[0] in root then Some(root[path[0]]) else None;
    forall i | 0 < i < |path| - 1
      ensures path[0] in root && root[path[0]].Obj? ==> Get(Obj(root), path[..i + 1]) == Get(child, path[1..][..i])
      ensures path[0] !in root ==> Get(Obj(root), path[..i + 1]).None? && Get(child, path[1..][..i]).None?
    {
      assert path[..i + 1][1..] == path[1..][..i];
    }
    if Unobstructed(Obj(root), path) {
      forall i | 0 < i < |path| - 1 && Get(child, path[1..][..i]).Some?
        ensures Get(child, path[1..][..i]).value.Obj?
      {
        assert Get(Obj(root), path[..i + 1]).Some?;
      }
    }
    if (path[0] in root ==> root[path[0]].Obj?) && Unobstructed(child, path[1..]) {
      forall i | 0 < i < |path| && Get(Obj(root), path[..i]).Some?
        ensures Get(Obj(root), path[..i]).value.Obj?
      {
        if i > 1 {
          assert Get(child, path[1..][..i - 1]).Some?;
        }
      }
    }
  }

  /** A set fails exactly when a value stands where it needs a table. */
  lemma {:induction false} SetSucceedsIff(root: Table, path: Path, value: Value)
    requires path != []
    ensures SetIn(root, path, value).Success? <==> Unobstructed(Obj(root), path)
    decreases path
  {
    if |path| > 1 {
      UnobstructedBelow(root, path);
      SetSucceedsIff(Child(root, path[0]), path[1..], value);
    }
  }

  lemma {:induction false} SetThenGetIn(root: Table, path: Path, value: Value)
    requires path != [] && SetIn(root, path, value).Success?
    ensures Get(Obj(SetIn(root, path, value).value), path) == Some(value)
    decreases path
  {
    if |path| > 1 {
      SetThenGetIn(Child(root, path[0]), path[1..], value);
    }
  }

  lemma {:induction false} SetKeepsOthersIn(root: Table, path: Path, value: Value, other: Path)
    requires path != [] && SetIn(root, path, value).Success? && !Comparable(path, other)
    ensures Get(Obj(SetIn(root, path, value).value), other) == Get(Obj(root), other)
    decreases path
  {
    assert |path| == 1 && path[0] == other[0] ==> path <= other;
    if |path| > 1 && path[0] == other[0] {
      assert path == [path[0]] + path[1..] && other == [other[0]] + other[1..];
      SetKeepsOthersIn(Child(root, path[0]), path[1..], value, other[1..]);
      if path[0] !in root {
        assert other[1..] != [];
      }
    }
  }

  /** A successful set is read back, and paths that neither contain nor are contained in it keep their value. */
  lemma SetNestedLaws(root: Value, path: Path, value: Value, other: Path)
    requires SetNested(root, path, value).Success?
    ensures var next := SetNested(root, path, value).value;
            && Get(next, path) == Some(value)
            && (!Comparable(path, other) ==> Get(next, other) == Get(root, other))
  {
    SetThenGetIn(root.fields, path, value);
    if !Comparable(path, other) {
      SetKeepsOthersIn(root.fields, path, value, other);
    }
  }

  lemma {:induction false} RemoveLawsIn(root: Table, path: Path, other: Path)
    requires path != []
    ensures Get(Obj(RemoveIn(root, path)), path).None?
    ensures !Comparable(path, other) ==> Get(Obj(RemoveIn(root, path)), other) == Get(Obj(root), other)
    decreases path
  {
    if |path| > 1 {
      RemoveLawsIn(Child(root, path[0]), path[1..], if other != [] then other[1..] else []);
      if other != [] && other[0] == path[0] && !Comparable(path, other) {
        assert path == [path[0]] + path[1..] && other == [other[0]] + other[1..];
      }
    } else if other != [] && other[0] == path[0] {
      assert path <= other;
    }
  }

  /** A removed field is gone, and incomparable paths keep their value. */
  lemma RemoveNestedLaws(root: Value, path: Path, other: Path)
    requires path != []
    ensures var next := RemoveNested(root, path);
            && Get(next, path).None?
            && (!Comparable(path, other) ==> Get(next, other) == Get(root, other))
  {
    if root.Obj? {
      RemoveLawsIn(root.fields, path, other);
    }
  }

  /** Sets on incomparable paths do not disturb each other and commute. */
  lemma {:induction false} SetsCommuteIn(root: Table, p: Path, v: Value, q: Path, w: Value)
    requires p != [] && q != [] && !Comparable(p, q)
    requires SetIn(root, p, v).Success? && SetIn(root, q, w).Success?
    ensures var first, second := SetIn(root, p, v).value, SetIn(root, q, w).value;
            SetIn(first, q, w).Success? && SetIn(first, q, w) == SetIn(second, p, v)
    decreases p
  {
    if p[0] == q[0] {
      assert p == [p[0]] + p[1..] && q == [q[0]] + q[1..];
      assert |p| > 1 && |q| > 1 by {
        assert |p| == 1 ==> p <= q;
        assert |q| == 1 ==> q <= p;
      }
      var child := Child(root, p[0]);
      SetsCommuteIn(child, p[1..], v, q[1..], w);
      SetTwiceBelow(root, p, v, q, w);
      SetTwiceBelow(root, q, w, p, v);
    } else {
      SetsApart(root, p, v, q, w);
    }
  }

  lemma SetsApart(root: Table, p: Path, v: Value, q: Path, w: Value)
    requires p != [] && q != [] && p[0] != q[0]
    requires SetIn(root, p, v).Success? && SetIn(root, q, w).Success?
    ensures SetIn(SetIn(root, p, v).value, q, w).Success?
    ensures SetIn(SetIn(root, p, v).value, q, w) == SetIn(SetIn(root, q, w).value, p, v)
  {
    var first, second := SetIn(root, p, v).value, SetIn(root, q, w).value;
    SetTouchesHead(root, second, p, v);
    SetTouchesHead(root, first, q, w);
    assert root[p[0] := first[p[0]]][q[0] := second[q[0]]] == root[q[0] := second[q[0]]][p[0] := first[p[0]]];
  }

  /** Two sets below the same entry act on the table in that entry. */
  lemma SetTwiceBelow(root: Table, p: Path, v: Value, q: Path, w: Value)
    requires |p| > 1 && |q| > 1 && p[0] == q[0]
    requires SetIn(root, p, v).Success?
    requires SetIn(SetIn(Child(root, p[0]), p[1..], v).value, q[1..], w).Success?
    ensures var child := SetIn(Child(root, p[0]), p[1..], v).value;
            SetIn(SetIn(root, p, v).value, q, w) == Success(root[p[0] := Obj(SetIn(child, q[1..], w).value)])
  {
    var child := SetIn(Child(root, p[0]), p[1..], v).value;
    Overwrite(root, p[0], Obj(child), Obj(SetIn(child, q[1..], w).value));
  }

  /** A set changes the entry named by the path's first part only, and depends on no other. */
  lemma SetTouchesHead(root: Table, other: Table, path: Path, value: Value)
    requires path != [] && SetIn(root, path, value).Success?
    ensures var next := SetIn(root, path, value).value;
            && path[0] in next && next == root[path[0] := next[path[0]]]
            && ((path[0] in root <==> path[0] in other) && (path[0] in root ==> root[path[0]] == other[path[0]]) ==>
                  SetIn(other, path, value) == Success(other[path[0] := next[path[0]]]))
  {
  }

  lemma SetsCommute(root: Value, p: Path, v: Value, q: Path, w: Value)
    requires !Comparable(p, q)
    requires SetNested(root, p, v).Success? && SetNested(root, q, w).Success?
    ensures var first, second := SetNested(root, p, v).value, SetNested(root, q, w).value;
            SetNested(first, q, w).Success? && SetNested(first, q, w) == SetNested(second, p, v)
  {
    SetsCommuteIn(root.fields, p, v, q, w);
  }
}
