/** Printing a table and reading the text back: what comes back, for every table and every key order. */
module TomlRoundTrip {
  import opened ConfigTree
  import opened Json
  import opened TomlDocument
  import opened TomlLineLaws
  import opened Text
  import opened TomlText
  import opened TomlValue
  import opened Wrappers

  // ---- what a table means -----------------------------------------------------------------------------

  /** Every leaf is a value the printer accepts. */
  ghost predicate PrintableTable(v: Value)
    decreases v
  {
    v.Obj? && forall key :: key in v.fields ==>
      if v.fields[key].Obj? then PrintableTable(v.fields[key]) else Printable(v.fields[key])
  }

  /** No table has the empty key. */
  ghost predicate NamedKeys(v: Value)
    decreases v
  {
    v.Obj? ==> forall key :: key in v.fields ==> key != [] && NamedKeys(v.fields[key])
  }

  /** No key is empty and none contains a double quote, a backslash or a control character. */
  ghost predicate CleanKeys(v: Value)
    decreases v
  {
    v.Obj? ==> forall key :: key in v.fields ==> key != [] && Unescaped(key) && CleanKeys(v.fields[key])
  }

  ghost function RawNames(fields: Table): set<string> {
    set key | key in fields :: RawKey(key)
  }

  /** The key behind a raw name; there is only one. */
  ghost function Original(fields: Table, raw: string): (key: string)
    requires raw in RawNames(fields)
    ensures key in fields && RawKey(key) == raw
  {
    var key :| key in fields && RawKey(key) == raw;
    key
  }

  lemma OriginalOf(fields: Table, key: string)
    requires key in fields
    ensures RawKey(key) in RawNames(fields) && Original(fields, RawKey(key)) == key
  {
    RawKeyInjective(Original(fields, RawKey(key)), key);
  }

  /** The table with every key in the form it is read back in. */
  ghost function RawKeys(v: Value): (raw: Value)
    ensures raw.Obj? <==> v.Obj?
    decreases v
  {
    if v.Obj? then
      Obj(map raw | raw in RawNames(v.fields) :: RawKeys(v.fields[Original(v.fields, raw)]))
    else
      v
  }

  /** The part of the read-back table that stems from the keys in `done`. */
  ghost function RawTable(v: Value, done: set<string>): Table
    requires v.Obj?
  {
    map raw | raw in RawNames(v.fields) && Original(v.fields, raw) in done :: RawKeys(v).fields[raw]
  }

  lemma RawTableGrows(v: Value, done: set<string>, key: string)
    requires v.Obj? && key in v.fields && key !in done
    ensures RawKey(key) !in RawTable(v, done)
    ensures RawTable(v, done)[RawKey(key) := RawKeys(v.fields[key])] == RawTable(v, done + {key})
  {
    OriginalOf(v.fields, key);
  }

  lemma RawTableWhole(v: Value, done: set<string>)
    requires v.Obj? && forall key :: key in v.fields ==> key in done
    ensures RawTable(v, done) == RawKeys(v).fields
  {
  }

  // ---- text as a growing sequence of lines ------------------------------------------------------------

  ghost predicate Complete(out: string) {
    out == [] || out[|out| - 1] == '\n'
  }

  ghost function ReadBack(out: string): Result<Parsing, LineError> {
    ParseLines(START, Lines(out), 1)
  }

  lemma OneLine(line: string)
    requires SingleLine(line)
    ensures Lines(line + "\n") == [line]
  {
    assert Unlines([line]) == line + "\n" by {
      assert [line][1..] == [];
      assert Unlines([]) == [];
    }
    LinesUndoesUnlines([line]);
  }

  lemma FirstLineOf(out: string, more: string) returns (first: string, rest: string)
    requires Complete(out) && out != []
    ensures Complete(rest) && |rest| < |out|
    ensures Lines(out) == [first] + Lines(rest) && Lines(out + more) == [first] + Lines(rest + more)
  {
    var n := IndexOf(out, '\n');
    assert n < |out|;
    first, rest := DropCarriageReturn(out[..n]), out[n + 1..];
    IndexOfConcat(out, more, '\n');
    CutPrefix(out, more, n);
    FirstOfLines(out, first, rest);
    FirstOfLines(out + more, first, rest + more);
  }

  lemma {:induction false} LinesConcat(out: string, more: string)
    requires Complete(out)
    ensures Lines(out + more) == Lines(out) + Lines(more)
    decreases |out|
  {
    if out == [] {
      assert out + more == more;
    } else {
      var first, rest := FirstLineOf(out, more);
      LinesConcat(rest, more);
      ConcatAssociates([first], Lines(rest), Lines(more));
    }
  }

  lemma LinesAppend(out: string, line: string)
    requires Complete(out) && SingleLine(line)
    ensures Lines(out + (line + "\n")) == Lines(out) + [line]
  {
    LinesConcat(out, line + "\n");
    OneLine(line);
  }

  /** Reading `line`, which has this number, behind what was read so far. */
  function ReadFurther(r: Result<Parsing, LineError>, line: string, number: nat): Result<Parsing, LineError> {
    match r
    case Failure(e) => Failure(e)
    case Success(st) =>
      match ParseLine(st, line)
      case Failure(e) => Failure(LineError(number, e))
      case Success(next) => Success(next)
  }

  lemma {:induction false} ParseLinesAppend(st: Parsing, lines: seq<string>, line: string, number: nat)
    ensures ParseLines(st, lines + [line], number) == ReadFurther(ParseLines(st, lines, number), line, number + |lines|)
    decreases lines
  {
    if lines == [] {
      assert lines + [line] == [line] && [line][1..] == [];
    } else {
      match ParseLine(st, lines[0])
      case Failure(e) => FirstFails(st, lines, line, number, e);
      case Success(next) =>
        ParseLinesAppend(next, lines[1..], line, number + 1);
        FirstReads(st, lines, line, number, next);
    }
  }

  lemma {:induction false} FirstFails(st: Parsing, lines: seq<string>, line: string, number: nat, e: TomlError)
    requires lines != [] && ParseLine(st, lines[0]) == Failure(e)
    ensures ParseLines(st, lines + [line], number) == ParseLines(st, lines, number) == Failure(LineError(number, e))
  {
  }

  lemma {:induction false} FirstReads(st: Parsing, lines: seq<string>, line: string, number: nat, next: Parsing)
    requires lines != [] && ParseLine(st, lines[0]) == Success(next)
    ensures ParseLines(st, lines + [line], number) == ParseLines(next, lines[1..] + [line], number + 1)
    ensures ParseLines(st, lines, number) == ParseLines(next, lines[1..], number + 1)
  {
    assert (lines + [line])[1..] == lines[1..] + [line];
  }

  /** Appending a line makes the reader take one more step. */
  lemma WriteLine(out: string, line: string)
    requires Complete(out) && SingleLine(line)
    ensures var next := out + (line + "\n");
            && Complete(next)
            && (ReadBack(out).Failure? ==> ReadBack(next).Failure?)
            && (ReadBack(out).Success? ==>
                  match ParseLine(ReadBack(out).value, line)
                  case Failure(_) => ReadBack(next).Failure?
                  case Success(st) => ReadBack(next) == Success(st))
  {
    LinesAppend(out, line);
    ParseLinesAppend(START, Lines(out), line, 1);
  }

  lemma WriteBlank(out: string)
    requires Complete(out)
    ensures Complete(out + "\n")
    ensures ReadBack(out).Success? ==> ReadBack(out + "\n") == ReadBack(out)
    ensures ReadBack(out).Failure? ==> ReadBack(out + "\n").Failure?
  {
    WriteLine(out, []);
    assert [] + "\n" == "\n";
    assert forall st :: ParseLine(st, []) == Success(st);
  }

  lemma WriteHeader(out: string, path: Path)
    requires Complete(out) && path != []
    ensures var next := RenderHeader(out, path);
            && Complete(next)
            && (ReadBack(out).Failure? || [] in path ==> ReadBack(next).Failure?)
            && (ReadBack(out).Success? && [] !in path ==>
                  match OpenHeader(ReadBack(out).value.root, RawPath(path))
                  case Failure(_) => ReadBack(next).Failure?
                  case Success(st) => ReadBack(next) == Success(st))
  {
    WriteBlank(out);
    var spaced := if out == [] then out else out + "\n";
    HeaderLineScans(path);
    WriteLine(spaced, HeaderLine(path));
    if ReadBack(spaced).Success? {
      HeaderLineParses(ReadBack(spaced).value, path);
    }
  }

  lemma WriteEntry(out: string, key: string, v: Value)
    requires Complete(out) && Printable(v)
    ensures var next := out + (EntryLine(key, FormatValue(v).value) + "\n");
            && Complete(next)
            && (ReadBack(out).Failure? || key == [] ==> ReadBack(next).Failure?)
            && (ReadBack(out).Success? && key != [] ==>
                  match AddEntry(ReadBack(out).value, [RawKey(key)], v)
                  case Failure(_) => ReadBack(next).Failure?
                  case Success(st) => ReadBack(next) == Success(st))
  {
    var line := EntryLine(key, FormatValue(v).value);
    EntryLineScans(key, v);
    WriteLine(out, line);
    if ReadBack(out).Success? {
      EntryLineParses(ReadBack(out).value, key, v);
    }
  }

  // ---- the tree grows as the text does ----------------------------------------------------------------

  ghost predicate Distinct(keys: seq<string>) {
    forall i, j :: 0 <= i < j < |keys| ==> keys[i] != keys[j]
  }

  lemma AddFreshEntry(root: Table, rp: Path, table: Table, raw: string, v: Value)
    requires raw !in table
    ensures AddEntry(Parsing(Put(root, rp, table), rp), [raw], v) ==
            Success(Parsing(Put(root, rp, table[raw := v]), rp))
  {
    var st := Parsing(Put(root, rp, table), rp);
    PutAt(root, rp, table);
    EnsureExisting(st.root, rp);
    PutAgain(root, rp, table, table[raw := v]);
    assert [raw][..0] == [] && rp + [] == rp;
  }

  lemma OpenFreshTable(root: Table, parents: Path, raw: string)
    requires HasTable(root, parents) && raw !in At(root, parents)
    ensures OpenHeader(root, parents + [raw]) ==
            Success(Parsing(Put(root, parents + [raw], map[]), parents + [raw]))
  {
    var next := Put(root, parents, At(root, parents)[raw := Obj(map[])]);
    WalkCreates(root, parents, raw, []);
    assert parents + [raw] + [] == parents + [raw];
    EnsureExisting(next, parents + [raw]);
    PutAt(root, parents, map[]);
    PutDeeper(root, parents, At(root, parents), raw, map[]);
  }

  lemma {:induction false} RawPathLast(path: Path, key: string)
    ensures RawPath(path + [key]) == RawPath(path) + [RawKey(key)]
  {
    if path == [] {
      assert [key][1..] == [];
    } else {
      assert (path + [key])[1..] == path[1..] + [key];
      RawPathLast(path[1..], key);
    }
  }

  ghost predicate Plain(v: Value, key: string)
    requires v.Obj?
  {
    key in v.fields && !v.fields[key].Obj?
  }

  /** The reader stands in the table at `rp`, which holds what stems from `done`. */
  ghost predicate Holds(out: string, root: Table, rp: Path, v: Value, done: set<string>)
    requires v.Obj?
  {
    Complete(out) && ReadBack(out) == Success(Parsing(Put(root, rp, RawTable(v, done)), rp))
  }

  lemma EntryRead(out: string, v: Value, key: string, done: set<string>, root: Table, rp: Path)
    requires v.Obj? && Plain(v, key) && Printable(v.fields[key]) && key != [] && key !in done
    requires Holds(out, root, rp, v, done)
    ensures Holds(out + (EntryLine(key, FormatValue(v.fields[key]).value) + "\n"), root, rp, v, done + {key})
  {
    WriteEntry(out, key, v.fields[key]);
    RawTableGrows(v, done, key);
    AddFreshEntry(root, rp, RawTable(v, done), RawKey(key), v.fields[key]);
  }

  /** Writing the plain entries adds exactly those to the table the reader is in. */
  /** Different keys of `v`, none of them read yet. */
  ghost predicate ToRead(v: Value, keys: seq<string>, done: set<string>)
    requires v.Obj?
  {
    Distinct(keys) && forall i :: 0 <= i < |keys| ==> keys[i] in v.fields && keys[i] !in done
  }

  lemma FirstToRead(v: Value, keys: seq<string>, done: set<string>) returns (key: string, rest: seq<string>)
    requires v.Obj? && ToRead(v, keys, done) && keys != []
    ensures key == keys[0] && rest == keys[1..] && keys == [key] + rest
    ensures key in v.fields && key !in done && ToRead(v, rest, done) && ToRead(v, rest, done + {key})
  {
    key, rest := keys[0], keys[1..];
  }

  lemma {:induction false} EntriesRead(out: string, v: Value, keys: seq<string>, done: set<string>, root: Table, rp: Path)
    returns (after: set<string>)
    requires PrintableTable(v) && NamedKeys(v) && ToRead(v, keys, done) && Holds(out, root, rp, v, done)
    ensures forall key :: key in after <==> key in done || (key in keys && Plain(v, key))
    ensures var r := RenderEntries(out, v.fields, keys); r.Success? && Holds(r.value, root, rp, v, after)
    decreases keys
  {
    if keys == [] {
      after := done;
    } else {
      var key, rest := FirstToRead(v, keys, done);
      if Plain(v, key) {
        EntryRead(out, v, key, done, root, rp);
        after := EntriesRead(out + (EntryLine(key, FormatValue(v.fields[key]).value) + "\n"), v, rest, done + {key}, root, rp);
      } else {
        after := EntriesRead(out, v, rest, done, root, rp);
      }
    }
  }

  lemma {:induction false} NestedEnumerates(fields: Table, keys: seq<string>)
    requires AllIn(fields, keys)
    requires Distinct(keys)
    ensures var nested := Nested(fields, keys);
            Distinct(nested) && forall key :: key in nested <==> key in keys && fields[key].Obj?
    decreases keys
  {
    if keys != [] {
      NestedEnumerates(fields, keys[1..]);
      assert forall key :: key in keys <==> key == keys[0] || key in keys[1..];
    }
  }

  /** The text so far reads as `root`. */
  ghost predicate Stands(out: string, root: Table) {
    Complete(out) && ReadBack(out).Success? && ReadBack(out).value.root == root
  }

  /** The reader's tree, with nothing yet where the next table goes. */
  ghost predicate Ready(out: string, path: Path, root: Table) {
    && Stands(out, root) && [] !in path
    && if path == [] then out == [] && root == map[]
       else var parents := RawPath(path[..|path| - 1]);
            HasTable(root, parents) && RawKey(path[|path| - 1]) !in At(root, parents)
  }

  lemma HeaderRead(out: string, path: Path, root: Table)
    requires Ready(out, path, root)
    ensures var next := RenderHeader(out, path);
            Complete(next) && ReadBack(next) == Success(Parsing(Put(root, RawPath(path), map[]), RawPath(path)))
  {
    if path != [] {
      var parents, last := path[..|path| - 1], path[|path| - 1];
      assert path == parents + [last];
      InnerHeaderRead(out, parents, last, root);
    } else {
      NoHeaderRead(out, root);
    }
  }

  lemma NoHeaderRead(out: string, root: Table)
    requires Ready(out, [], root)
    ensures Complete(out) && ReadBack(out) == Success(Parsing(map[], []))
  {
  }

  lemma InnerHeaderRead(out: string, parents: Path, last: string, root: Table)
    requires Stands(out, root) && [] !in parents + [last]
    requires HasTable(root, RawPath(parents)) && RawKey(last) !in At(root, RawPath(parents))
    ensures var path := parents + [last];
            var next := RenderHeader(out, path);
            Complete(next) && ReadBack(next) == Success(Parsing(Put(root, RawPath(path), map[]), RawPath(path)))
  {
    var path := parents + [last];
    WriteHeader(out, path);
    RawPathLast(parents, last);
    OpenFreshTable(root, RawPath(parents), RawKey(last));
  }

  /** Writing a table puts exactly that table, keys in raw form, into the reader's tree. */
  lemma {:induction false} TableRead(out: string, path: Path, v: Value, order: KeyOrder, root: Table)
    requires PrintableTable(v) && NamedKeys(v) && Walks(order, path, v) && Ready(out, path, root)
    ensures var r := RenderTable(out, path, v, order);
            r.Success? && Stands(r.value, Put(root, RawPath(path), RawKeys(v).fields))
    decreases v, 1, 0
  {
    var nested := Nested(v.fields, order(path));
    var done, entries := HeadRead(out, path, v, order(path), root);
    NestedEnumerates(v.fields, order(path));
    var all := ChildrenRead(entries, path, v, order, nested, done, root);
    RawTableWhole(v, all);
  }

  /** The header and the plain entries of a table. */
  lemma HeadRead(out: string, path: Path, v: Value, keys: seq<string>, root: Table) returns (done: set<string>, entries: string)
    requires PrintableTable(v) && NamedKeys(v) && Enumerates(keys, v.fields) && Ready(out, path, root)
    ensures RenderEntries(RenderHeader(out, path), v.fields, keys) == Success(entries)
    ensures forall key :: key in done <==> key in keys && Plain(v, key)
    ensures Stands(entries, Put(root, RawPath(path), RawTable(v, done)))
  {
    HeaderRead(out, path, root);
    assert RawTable(v, {}) == map[];
    done := EntriesRead(RenderHeader(out, path), v, keys, {}, root, RawPath(path));
    entries := RenderEntries(RenderHeader(out, path), v.fields, keys).value;
  }

  lemma {:induction false} ChildrenRead(out: string, path: Path, v: Value, order: KeyOrder, keys: seq<string>, done: set<string>, root: Table)
    returns (after: set<string>)
    requires PrintableTable(v) && NamedKeys(v) && Walks(order, path, v) && [] !in path
    requires ToRead(v, keys, done) && AllTables(v, keys)
    requires Stands(out, Put(root, RawPath(path), RawTable(v, done)))
    ensures forall key :: key in after <==> key in done || key in keys
    ensures var r := RenderChildren(out, path, v, order, keys);
            r.Success? && Stands(r.value, Put(root, RawPath(path), RawTable(v, after)))
    decreases v, 0, |keys|
  {
    if keys == [] {
      after := done;
    } else {
      var key, rest := FirstToRead(v, keys, done);
      var next := ChildRead(out, path, v, order, key, done, root);
      RenderFirstChild(out, path, v, order, key, rest, next);
      after := ChildrenRead(next, path, v, order, rest, done + {key}, root);
    }
  }

  lemma RenderFirstChild(out: string, path: Path, v: Value, order: KeyOrder, key: string, rest: seq<string>, next: string)
    requires v.Obj? && Walks(order, path, v) && key in v.fields && v.fields[key].Obj? && AllTables(v, rest)
    requires RenderTable(out, path + [key], v.fields[key], order) == Success(next)
    ensures RenderChildren(out, path, v, order, [key] + rest) == RenderChildren(next, path, v, order, rest)
  {
    assert ([key] + rest)[1..] == rest;
  }

  lemma ChildRead(out: string, path: Path, v: Value, order: KeyOrder, key: string, done: set<string>, root: Table)
    returns (next: string)
    requires PrintableTable(v) && NamedKeys(v) && Walks(order, path, v) && [] !in path
    requires key in v.fields && v.fields[key].Obj? && key !in done
    requires Stands(out, Put(root, RawPath(path), RawTable(v, done)))
    ensures RenderTable(out, path + [key], v.fields[key], order) == Success(next)
    ensures Stands(next, Put(root, RawPath(path), RawTable(v, done + {key})))
    decreases v, 0, 0
  {
    ChildReady(out, path, v, key, done, root);
    TableRead(out, path + [key], v.fields[key], order, Put(root, RawPath(path), RawTable(v, done)));
    ChildAdded(path, v, key, done, root);
    next := RenderTable(out, path + [key], v.fields[key], order).value;
  }

  lemma ChildReady(out: string, path: Path, v: Value, key: string, done: set<string>, root: Table)
    requires v.Obj? && key in v.fields && key !in done && key != [] && [] !in path
    requires Stands(out, Put(root, RawPath(path), RawTable(v, done)))
    ensures Ready(out, path + [key], Put(root, RawPath(path), RawTable(v, done)))
  {
    RawTableGrows(v, done, key);
    PutAt(root, RawPath(path), RawTable(v, done));
    assert (path + [key])[..|path|] == path;
  }

  lemma ChildAdded(path: Path, v: Value, key: string, done: set<string>, root: Table)
    requires v.Obj? && key in v.fields && key !in done && v.fields[key].Obj?
    ensures Put(Put(root, RawPath(path), RawTable(v, done)), RawPath(path + [key]), RawKeys(v.fields[key]).fields) ==
            Put(root, RawPath(path), RawTable(v, done + {key}))
  {
    RawTableGrows(v, done, key);
    RawPathLast(path, key);
    PutDeeper(root, RawPath(path), RawTable(v, done), RawKey(key), RawKeys(v.fields[key]).fields);
  }

  // ---- an empty key is never read back ----------------------------------------------------------------

  lemma {:induction false} EntriesFail(out: string, v: Value, keys: seq<string>)
    requires PrintableTable(v) && Complete(out)
    requires AllIn(v.fields, keys)
    ensures var r := RenderEntries(out, v.fields, keys);
            && r.Success? && Complete(r.value)
            && (ReadBack(out).Failure? || ([] in keys && Plain(v, [])) ==> ReadBack(r.value).Failure?)
    decreases keys
  {
    if keys != [] {
      var key := keys[0];
      if Plain(v, key) {
        WriteEntry(out, key, v.fields[key]);
        EntriesFail(out + (EntryLine(key, FormatValue(v.fields[key]).value) + "\n"), v, keys[1..]);
      } else {
        EntriesFail(out, v, keys[1..]);
      }
    }
  }

  lemma {:induction false} TableFails(out: string, path: Path, v: Value, order: KeyOrder)
    requires PrintableTable(v) && Walks(order, path, v) && Complete(out)
    ensures var r := RenderTable(out, path, v, order);
            && r.Success? && Complete(r.value)
            && (ReadBack(out).Failure? || [] in path || !NamedKeys(v) ==> ReadBack(r.value).Failure?)
    decreases v, 1, 0
  {
    var keys := order(path);
    if path != [] {
      WriteHeader(out, path);
    }
    var headed := RenderHeader(out, path);
    EntriesFail(headed, v, keys);
    NestedEnumerates(v.fields, keys);
    ChildrenFail(RenderEntries(headed, v.fields, keys).value, path, v, order, Nested(v.fields, keys));
    if !NamedKeys(v) {
      UnnamedKey(v, keys);
    }
  }

  /** A missing name shows among the plain entries or among the tables. */
  lemma UnnamedKey(v: Value, keys: seq<string>)
    requires v.Obj? && !NamedKeys(v) && Enumerates(keys, v.fields)
    ensures ([] in keys && Plain(v, [])) ||
            exists key :: key in Nested(v.fields, keys) && (key == [] || !NamedKeys(v.fields[key]))
  {
    NestedEnumerates(v.fields, keys);
    var key :| key in v.fields && !(key != [] && NamedKeys(v.fields[key]));
    assert v.fields[key].Obj? ==> key in Nested(v.fields, keys);
  }

  lemma {:induction false} ChildrenFail(out: string, path: Path, v: Value, order: KeyOrder, keys: seq<string>)
    requires PrintableTable(v) && Walks(order, path, v) && Complete(out)
    requires AllTables(v, keys)
    ensures var r := RenderChildren(out, path, v, order, keys);
            && r.Success? && Complete(r.value)
            && (ReadBack(out).Failure? || (exists key :: key in keys && (key == [] || !NamedKeys(v.fields[key]))) ==>
                  ReadBack(r.value).Failure?)
    decreases v, 0, |keys|
  {
    if keys != [] {
      var child := path + [keys[0]];
      TableFails(out, child, v.fields[keys[0]], order);
      assert keys[0] in child;
      ChildrenFail(RenderTable(out, child, v.fields[keys[0]], order).value, path, v, order, keys[1..]);
    }
  }

  // ---- main results -----------------------------------------------------------------------------------

  /** What a printed table reads back as: the table with its keys in raw form, or an error when a key is empty. */
  lemma PrintedTableReadsBack(v: Value, order: KeyOrder)
    requires PrintableTable(v) && Walks(order, [], v)
    ensures PrintToml(v, order).Success?
    ensures NamedKeys(v) ==> ParseToml(PrintToml(v, order).value) == Success(RawKeys(v))
    ensures !NamedKeys(v) ==> ParseToml(PrintToml(v, order).value).Failure?
  {
    TableFails([], [], v, order);
    if NamedKeys(v) {
      TableRead([], [], v, order, map[]);
    }
  }

  lemma {:induction false} Longest(keys: set<string>) returns (longest: string)
    requires keys != {}
    ensures longest in keys && forall k :: k in keys ==> |k| <= |longest|
    decreases keys
  {
    longest :| longest in keys;
    if keys != {longest} {
      var other := Longest(keys - {longest});
      longest := if |other| > |longest| then other else longest;
    }
  }

  /** The raw form of the longest key that needs escapes is longer still, so it is none of the keys. */
  lemma EscapedKeyMoves(fields: Table, key: string) returns (raw: string)
    requires key in fields && !Unescaped(key)
    ensures raw in RawNames(fields) && raw !in fields
  {
    var dirty := set k | k in fields && !Unescaped(k);
    assert key in dirty;
    var longest := Longest(dirty);
    EscapeGrows(longest);
    assert !IsBareKey(longest);
    raw := RawKey(longest);
    var i :| 0 <= i < |raw| && raw[i] == '\\';
    assert NeedsEscape(raw[i]) && raw !in dirty;
    OriginalOf(fields, longest);
  }

  /** The raw form is the table itself exactly when every key is clean. */
  lemma {:induction false} RawKeysFixed(v: Value)
    requires NamedKeys(v)
    ensures RawKeys(v) == v <==> CleanKeys(v)
    decreases v
  {
    if v.Obj? {
      if key :| key in v.fields && !Unescaped(key) {
        var raw := EscapedKeyMoves(v.fields, key);
      } else {
        forall key | key in v.fields
          ensures RawKey(key) == key
          ensures RawKeys(v.fields[key]) == v.fields[key] <==> CleanKeys(v.fields[key])
        {
          RawKeyFixed(key);
          RawKeysFixed(v.fields[key]);
        }
        if key :| key in v.fields && !CleanKeys(v.fields[key]) {
          OriginalOf(v.fields, key);
          assert RawKeys(v).fields[key] != v.fields[key];
        }
      }
    }
  }

  lemma {:induction false} PrintsExactlyPrintable(out: string, path: Path, v: Value, order: KeyOrder)
    requires v.Obj? && Walks(order, path, v)
    ensures RenderTable(out, path, v, order).Success? ==> PrintableTable(v)
    decreases v, 1, 0
  {
    var keys := order(path);
    if RenderTable(out, path, v, order).Success? {
      EntriesPrintable(RenderHeader(out, path), v.fields, keys);
      NestedEnumerates(v.fields, keys);
      ChildrenPrintable(RenderEntries(RenderHeader(out, path), v.fields, keys).value, path, v, order, Nested(v.fields, keys));
    }
  }

  lemma {:induction false} EntriesPrintable(out: string, fields: Table, keys: seq<string>)
    requires AllIn(fields, keys)
    requires RenderEntries(out, fields, keys).Success?
    ensures forall key :: key in keys && !fields[key].Obj? ==> Printable(fields[key])
    decreases keys
  {
    if keys != [] {
      var key := keys[0];
      if fields[key].Obj? {
        EntriesPrintable(out, fields, keys[1..]);
      } else {
        EntriesPrintable(out + (EntryLine(key, FormatValue(fields[key]).value) + "\n"), fields, keys[1..]);
      }
    }
  }

  lemma {:induction false} ChildrenPrintable(out: string, path: Path, v: Value, order: KeyOrder, keys: seq<string>)
    requires v.Obj? && Walks(order, path, v)
    requires AllTables(v, keys)
    requires RenderChildren(out, path, v, order, keys).Success?
    ensures forall key :: key in keys ==> PrintableTable(v.fields[key])
    decreases v, 0, |keys|
  {
    if keys != [] {
      PrintsExactlyPrintable(out, path + [keys[0]], v.fields[keys[0]], order);
      var child := RenderTable(out, path + [keys[0]], v.fields[keys[0]], order).value;
      ChildrenPrintable(child, path, v, order, keys[1..]);
    }
  }

  /** Printing succeeds exactly on tables with printable leaves. The text then reads back as the same table
      exactly when every key is clean, whatever order the keys were printed in. */
  lemma RoundTripExactlyWhenClean(v: Value, order: KeyOrder)
    requires Walks(order, [], v)
    ensures PrintToml(v, order).Success? <==> PrintableTable(v)
    ensures PrintableTable(v) ==> (ParseToml(PrintToml(v, order).value) == Success(v) <==> CleanKeys(v))
  {
    if PrintToml(v, order).Success? {
      PrintsExactlyPrintable([], [], v, order);
    }
    if PrintableTable(v) {
      PrintedTableReadsBack(v, order);
      if NamedKeys(v) {
        RawKeysFixed(v);
      } else if CleanKeys(v) {
        CleanKeysAreNamed(v);
      }
    }
  }

  lemma {:induction false} CleanKeysAreNamed(v: Value)
    requires CleanKeys(v)
    ensures NamedKeys(v)
    decreases v
  {
    if v.Obj? {
      forall key | key in v.fields
        ensures NamedKeys(v.fields[key])
      {
        CleanKeysAreNamed(v.fields[key]);
      }
    }
  }
}
