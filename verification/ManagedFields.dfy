/** The fields of a foreign configuration that are taken over: setting them and setting them back. */
module ManagedFields {
  import opened ConfigTree
  import opened Json
  import opened Takeover
  import opened Text
  import opened Wrappers

  /** The parts of a dotted path; there is always at least one. */
  function Parts(field: string): (parts: Path)
    ensures parts != []
  {
    var n := IndexOf(field, '.');
    if n == |field| then [field] else [field[..n]] + Parts(field[n + 1..])
  }

  /** Splitting undoes joining, and joining undoes splitting: a field is its parts with dots between them. */
  lemma {:induction false} PartsUndoesJoin(parts: Path)
    requires parts != [] && forall i :: 0 <= i < |parts| ==> '.' !in parts[i]
    ensures Parts(Join(parts, ".")) == parts
    decreases parts
  {
    var first, rest := parts[0], parts[1..];
    if |parts| == 1 {
      assert parts == [first];
    } else {
      var joined := Join(rest, ".");
      PartsUndoesJoin(rest);
      assert parts == [first] + rest;
      JoinMore(first, rest);
      IndexOfConcat(first, "." + joined, '.');
      var field := first + ("." + joined);
      assert field == first + "." + joined;
      assert field[..|first|] == first && field[|first| + 1..] == joined;
    }
  }

  lemma {:induction false} JoinUndoesParts(field: string)
    ensures Join(Parts(field), ".") == field
    ensures forall i :: 0 <= i < |Parts(field)| ==> '.' !in Parts(field)[i]
    decreases |field|
  {
    var n := IndexOf(field, '.');
    if n < |field| {
      var first, rest := field[..n], field[n + 1..];
      JoinUndoesParts(rest);
      CutAtDot(field, n);
      JoinMore(first, Parts(rest));
    }
  }

  lemma CutAtDot(field: string, n: nat)
    requires n < |field| && field[n] == '.'
    ensures field == field[..n] + "." + field[n + 1..]
  {
  }

  lemma JoinMore(first: string, rest: Path)
    requires rest != []
    ensures Join([first] + rest, ".") == first + "." + Join(rest, ".")
  {
    assert ([first] + rest)[1..] == rest;
  }

  datatype ManagedField = ManagedField(path: string, value: Value)

  function SetDotted(raw: Value, field: string, value: Value): Result<Value, SetError> {
    SetNested(raw, Parts(field), value)
  }

  function ApplyFields(raw: Value, fields: seq<ManagedField>): Result<Value, SetError>
    decreases fields
  {
    if fields == [] then Success(raw)
    else
      var next :- SetDotted(raw, fields[0].path, fields[0].value);
      ApplyFields(next, fields[1..])
  }

  function RestoreFields(raw: Value, m: Manifest, fields: seq<string>): Result<Value, SetError>
    decreases fields
  {
    if fields == [] then
      Success(raw)
    else if fields[0] in m.absentFields then
      RestoreFields(RemoveNested(raw, Parts(fields[0])), m, fields[1..])
    else if fields[0] in m.fieldSnapshots then
      var next :- SetDotted(raw, fields[0], m.fieldSnapshots[fields[0]]);
      RestoreFields(next, m, fields[1..])
    else
      RestoreFields(raw, m, fields[1..])
  }
}
