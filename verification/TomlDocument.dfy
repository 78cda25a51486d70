/** Whole documents of the supported TOML subset: reading line by line into a tree and printing a tree back. */
module TomlDocument {
  import opened ConfigTree
  import opened Json
  import opened Text
  import opened TomlText
  import opened TomlValue
  import opened TomlValueParser
  import opened Wrappers

  datatype LineError = LineError(line: nat, error: TomlError)

  // ---- reading --------------------------------------------------------------------------------------------

  /** What the reader knows between two lines: the tree so far and the table the last header opened. */
  datatype Parsing = Parsing(root: Table, table: Path)

  const START := Parsing(map[], [])

  function OpenHeader(root: Table, path: Path): Result<Parsing, TomlError> {
    match EnsureTable(root, path)
    case Success(next) => Success(Parsing(next, path))
    case Failure(part) => Failure(NotATable(part))
  }

  /** `root` with a new entry behind `parents`; a key that is already there is refused. */
  function InsertValue(root: Table, parents: Path, last: string, value: Value): Result<Table, TomlError> {
    match EnsureTable(root, parents)
    case Failure(part) => Failure(NotATable(part))
    case Success(next) =>
      if last in At(next, parents) then Failure(DuplicateKey(last))
      else Success(Put(next, parents, At(next, parents)[last := value]))
  }

  function ParseHeader(st: Parsing, inner: string): Result<Parsing, TomlError> {
    if inner == [] || inner[|inner| - 1] != ']' then
      Failure(UnterminatedHeader)
    else
      var path :- ParseKey(Trim(inner[..|inner| - 1]));
      OpenHeader(st.root, path)
  }

  function AddEntry(st: Parsing, key: Path, value: Value): Result<Parsing, TomlError>
    requires key != []
  {
    var root :- InsertValue(st.root, st.table + key[..|key| - 1], key[|key| - 1], value);
    Success(Parsing(root, st.table))
  }

  function ParseEntry(st: Parsing, line: string): Result<Parsing, TomlError> {
    match FirstUnquoted(Plain, line, '=')
    case None => Failure(ExpectedKeyValue)
    case Some(split) =>
      var key :- ParseKey(line[..split]);
      var value :- ParseValue(Trim(line[split + 1..]));
      AddEntry(st, key, value)
  }

  function ParseLine(st: Parsing, raw: string): Result<Parsing, TomlError> {
    var line := Trim(StripComment(raw));
    if line == [] then Success(st)
    else if "[[" <= line then Failure(ArraysOfTables)
    else if line[0] == '[' then ParseHeader(st, line[1..])
    else ParseEntry(st, line)
  }

  function ParseLines(st: Parsing, lines: seq<string>, number: nat): Result<Parsing, LineError>
    decreases lines
  {
    if lines == [] then
      Success(st)
    else
      match ParseLine(st, lines[0])
      case Failure(e) => Failure(LineError(number, e))
      case Success(next) => ParseLines(next, lines[1..], number + 1)
  }

  function ParseToml(text: string): Result<Value, LineError> {
    var end :- ParseLines(START, Lines(text), 1);
    Success(Obj(end.root))
  }

  /** The tree under construction; headers and entries change it in place. */
  class Builder {
    const tree: Document
    var table: Path

    constructor ()
      ensures Valid() && State() == START && fresh(tree)
    {
      tree := new Document(Obj(map[]));
      table := [];
    }

    ghost predicate Valid()
      reads this, tree
    {
      tree.raw.Obj?
    }

    ghost function State(): Parsing
      requires Valid()
      reads this, tree
    {
      Parsing(tree.raw.fields, table)
    }

    method ReadLine(raw: string) returns (r: Result<(), TomlError>)
      requires Valid()
      modifies this, tree
      ensures Valid()
      ensures match ParseLine(old(State()), raw)
              case Success(st) => r == Success(()) && State() == st
              case Failure(e) => r == Failure(e)
    {
      var kept := StripTomlComment(raw);
      var line := Trim(kept);
      if line == [] {
        return Success(());
      }
      if "[[" <= line {
        return Failure(ArraysOfTables);
      }
      if line[0] == '[' {
        r := ReadHeader(line[1..]);
      } else {
        r := ReadEntry(line);
      }
    }

    method ReadHeader(inner: string) returns (r: Result<(), TomlError>)
      requires Valid()
      modifies this, tree
      ensures Valid()
      ensures match ParseHeader(old(State()), inner)
              case Success(st) => r == Success(()) && State() == st
              case Failure(e) => r == Failure(e)
    {
      if inner == [] || inner[|inner| - 1] != ']' {
        return Failure(UnterminatedHeader);
      }
      var path :- ParseTomlKey(Trim(inner[..|inner| - 1]));
      var reached := tree.OpenTable(path);
      if reached.Failure? {
        return Failure(NotATable(reached.error));
      }
      table := path;
      r := Success(());
    }

    method ReadEntry(line: string) returns (r: Result<(), TomlError>)
      requires Valid()
      modifies this, tree
      ensures Valid()
      ensures match ParseEntry(old(State()), line)
              case Success(st) => r == Success(()) && State() == st
              case Failure(e) => r == Failure(e)
    {
      var split := FindUnquoted(line, '=');
      if split.None? {
        return Failure(ExpectedKeyValue);
      }
      var key :- ParseTomlKey(line[..split.value]);
      var value :- ParseTomlValue(Trim(line[split.value + 1..]));
      r := InsertTomlValue(table + key[..|key| - 1], key[|key| - 1], value);
    }

    method InsertTomlValue(parents: Path, last: string, value: Value) returns (r: Result<(), TomlError>)
      requires Valid()
      modifies tree
      ensures Valid()
      ensures match InsertValue(old(tree.raw).fields, parents, last, value)
              case Success(next) => r == Success(()) && tree.raw == Obj(next)
              case Failure(e) => r == Failure(e)
    {
      var reached := tree.OpenTable(parents);
      if reached.Failure? {
        return Failure(NotATable(reached.error));
      }
      if last in reached.value {
        return Failure(DuplicateKey(last));
      }
      tree.raw := Obj(Put(tree.raw.fields, parents, reached.value[last := value]));
      r := Success(());
    }
  }

  /** Reads a document. */
  method ParseTomlSubset(text: string) returns (r: Result<Value, LineError>)
    ensures r == ParseToml(text)
  {
    var builder := new Builder();
    var lines := Lines(text);
    for i := 0 to |lines|
      invariant builder.Valid() && fresh(builder) && fresh(builder.tree)
      invariant ParseLines(builder.State(), lines[i..], i + 1) == ParseLines(START, lines, 1)
    {
      assert lines[i..][1..] == lines[i + 1..];
      var step := builder.ReadLine(lines[i]);
      if step.Failure? {
        return Failure(LineError(i + 1, step.error));
      }
    }
    r := Success(builder.tree.raw);
  }

  // ---- printing -------------------------------------------------------------------------------------------

  /** The order in which the keys of the table at a path are walked. */
  type KeyOrder = Path -> seq<string>

  predicate AllIn(fields: Table, keys: seq<string>) {
    forall i :: 0 <= i < |keys| ==> keys[i] in fields
  }

  ghost predicate Enumerates(keys: seq<string>, table: Table) {
    && AllIn(table, keys)
    && (forall i, j :: 0 <= i < j < |keys| ==> keys[i] != keys[j])
    && (forall key :: key in table ==> key in keys)
  }

  /** `order` walks every table of `v` exactly once, `v` itself standing at `path`. */
  ghost predicate Walks(order: KeyOrder, path: Path, v: Value)
    decreases v
  {
    v.Obj? ==>
      && Enumerates(order(path), v.fields)
      && forall key :: key in v.fields ==> Walks(order, path + [key], v.fields[key])
  }

  function QuoteKeys(path: Path): seq<string> {
    if path == [] then [] else [QuoteKey(path[0])] + QuoteKeys(path[1..])
  }

  function HeaderLine(path: Path): string {
    "[" + Join(QuoteKeys(path), ".") + "]"
  }

  function RenderHeader(out: string, path: Path): string {
    if path == [] then out else (if out == [] then out else out + "\n") + (HeaderLine(path) + "\n")
  }

  function EntryLine(key: string, text: string): string {
    QuoteKey(key) + " = " + text
  }

  /** The entries that are not tables, in key order. */
  function RenderEntries(out: string, fields: Table, keys: seq<string>): Result<string, FormatError>
    requires AllIn(fields, keys)
    decreases keys
  {
    if keys == [] then
      Success(out)
    else if fields[keys[0]].Obj? then
      RenderEntries(out, fields, keys[1..])
    else
      var text :- FormatValue(fields[keys[0]]);
      RenderEntries(out + (EntryLine(keys[0], text) + "\n"), fields, keys[1..])
  }

  /** The keys that hold tables, in key order. */
  function Nested(fields: Table, keys: seq<string>): (nested: seq<string>)
    requires AllIn(fields, keys)
    ensures forall i :: 0 <= i < |nested| ==> nested[i] in keys && fields[nested[i]].Obj?
    decreases keys
  {
    if keys == [] then []
    else (if fields[keys[0]].Obj? then [keys[0]] else []) + Nested(fields, keys[1..])
  }

  ghost predicate AllTables(v: Value, keys: seq<string>)
    requires v.Obj?
  {
    forall i :: 0 <= i < |keys| ==> keys[i] in v.fields && v.fields[keys[i]].Obj?
  }

  /** A table: its header unless it is the root, its plain entries, then its child tables. */
  ghost function RenderTable(out: string, path: Path, v: Value, order: KeyOrder): Result<string, FormatError>
    requires v.Obj? && Walks(order, path, v)
    decreases v, 1, 0
  {
    var entries :- RenderEntries(RenderHeader(out, path), v.fields, order(path));
    RenderChildren(entries, path, v, order, Nested(v.fields, order(path)))
  }

  ghost function RenderChildren(out: string, path: Path, v: Value, order: KeyOrder, keys: seq<string>)
    : Result<string, FormatError>
    requires v.Obj? && Walks(order, path, v)
    requires AllTables(v, keys)
    decreases v, 0, |keys|
  {
    if keys == [] then
      Success(out)
    else
      var child :- RenderTable(out, path + [keys[0]], v.fields[keys[0]], order);
      RenderChildren(child, path, v, order, keys[1..])
  }

  /** The text being printed; tables are appended to it. */
  class Printer {
    var out: string

    constructor ()
      ensures out == []
    {
      out := [];
    }

    method WriteTomlTable(path: Path, v: Value, order: KeyOrder) returns (r: Result<(), FormatError>)
      requires v.Obj? && Walks(order, path, v)
      modifies this
      ensures match RenderTable(old(out), path, v, order)
              case Success(text) => r == Success(()) && out == text
              case Failure(e) => r == Failure(e)
      decreases v, 1
    {
      if path != [] {
        if out != [] {
          out := out + "\n";
        }
        out := out + (HeaderLine(path) + "\n");
      }
      var nested :- WriteEntries(v.fields, order(path));
      r := WriteNested(path, v, order, nested);
    }

    method WriteNested(path: Path, v: Value, order: KeyOrder, nested: seq<string>) returns (r: Result<(), FormatError>)
      requires v.Obj? && Walks(order, path, v)
      requires AllTables(v, nested)
      modifies this
      ensures match RenderChildren(old(out), path, v, order, nested)
              case Success(text) => r == Success(()) && out == text
              case Failure(e) => r == Failure(e)
      decreases v, 0
    {
      ghost var all := RenderChildren(out, path, v, order, nested);
      assert nested[0..] == nested;
      for i := 0 to |nested|
        invariant RenderChildren(out, path, v, order, nested[i..]) == all
      {
        NextChild(out, path, v, order, nested, i);
        var child :- WriteTomlTable(path + [nested[i]], v.fields[nested[i]], order);
      }
      r := Success(());
    }

    /** Writes the plain entries and collects the keys that hold tables. */
    method WriteEntries(fields: Table, keys: seq<string>) returns (r: Result<seq<string>, FormatError>)
      requires AllIn(fields, keys)
      modifies this
      ensures match RenderEntries(old(out), fields, keys)
              case Success(text) => r == Success(Nested(fields, keys)) && out == text
              case Failure(e) => r == Failure(e)
    {
      var nested: seq<string> := [];
      ghost var all := RenderEntries(out, fields, keys);
      assert keys[0..] == keys;
      for i := 0 to |keys|
        invariant RenderEntries(out, fields, keys[i..]) == all
        invariant nested == Nested(fields, keys[..i])
      {
        NextEntry(out, fields, keys, i);
        NestedUpto(fields, keys, i);
        if fields[keys[i]].Obj? {
          nested := nested + [keys[i]];
        } else {
          var text :- FormatTomlValue(fields[keys[i]]);
          out := out + (EntryLine(keys[i], text) + "\n");
        }
      }
      assert keys[..|keys|] == keys;
      r := Success(nested);
    }
  }

  lemma {:induction false} NextChild(out: string, path: Path, v: Value, order: KeyOrder, nested: seq<string>, i: nat)
    requires v.Obj? && Walks(order, path, v) && i < |nested|
    requires AllTables(v, nested)
    ensures var child := RenderTable(out, path + [nested[i]], v.fields[nested[i]], order);
            RenderChildren(out, path, v, order, nested[i..]) ==
            if child.Failure? then child else RenderChildren(child.value, path, v, order, nested[i + 1..])
  {
    assert nested[i..][1..] == nested[i + 1..];
  }

  lemma {:induction false} NextEntry(out: string, fields: Table, keys: seq<string>, i: nat)
    requires i < |keys| && AllIn(fields, keys)
    ensures var text := FormatValue(fields[keys[i]]);
            RenderEntries(out, fields, keys[i..]) ==
            if fields[keys[i]].Obj? then RenderEntries(out, fields, keys[i + 1..])
            else if text.Failure? then text
            else RenderEntries(out + (EntryLine(keys[i], text.value) + "\n"), fields, keys[i + 1..])
  {
    assert keys[i..][1..] == keys[i + 1..];
  }

  lemma NestedUpto(fields: Table, keys: seq<string>, i: nat)
    requires i < |keys| && AllIn(fields, keys)
    ensures Nested(fields, keys[..i + 1]) == Nested(fields, keys[..i]) + if fields[keys[i]].Obj? then [keys[i]] else []
  {
    assert keys[..i + 1] == keys[..i] + [keys[i]];
    NestedLast(fields, keys[..i], keys[i]);
  }

  lemma {:induction false} NestedLast(fields: Table, keys: seq<string>, last: string)
    requires last in fields && AllIn(fields, keys)
    ensures Nested(fields, keys + [last]) == Nested(fields, keys) + if fields[last].Obj? then [last] else []
  {
    if keys == [] {
      assert [last][1..] == [];
    } else {
      assert (keys + [last])[1..] == keys[1..] + [last];
      NestedLast(fields, keys[1..], last);
    }
  }

  ghost function PrintToml(v: Value, order: KeyOrder): Result<string, FormatError>
    requires Walks(order, [], v)
  {
    if v.Obj? then RenderTable([], [], v, order) else Failure(NotTable)
  }

  /** Prints a document. */
  method SerializeTomlSubset(v: Value, order: KeyOrder) returns (r: Result<string, FormatError>)
    requires Walks(order, [], v)
    ensures r == PrintToml(v, order)
  {
    if !v.Obj? {
      return Failure(NotTable);
    }
    var printer := new Printer();
    var written :- printer.WriteTomlTable([], v, order);
    r := Success(printer.out);
  }
}
