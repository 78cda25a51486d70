/** What entry lines mean: where a dotted key puts its value, when the line is refused, and how keys can be written. */
module TomlEntries {
  import opened ConfigTree
  import opened Json
  import opened TomlAccepted
  import opened TomlDocument
  import opened TomlKeys
  import opened TomlLineLaws
  import opened TomlRoundTrip
  import opened Text
  import opened TomlText
  import opened TomlValue
  import opened Wrappers

  // ---- where the value goes -------------------------------------------------------------------------------

  lemma LastPart(table: Path, key: Path)
    requires key != []
    ensures table + key == (table + key[..|key| - 1]) + [key[|key| - 1]]
  {
  }

  lemma {:induction false} LeafInTable(root: Table, parents: Path, leaf: string)
    requires EnsureTable(root, parents).Success?
    ensures var table := At(EnsureTable(root, parents).value, parents);
            Get(Obj(root), parents + [leaf]) == if leaf in table then Some(table[leaf]) else None
    decreases parents
  {
    if parents == [] {
      assert ([] + [leaf])[1..] == [];
    } else {
      assert (parents + [leaf])[1..] == parents[1..] + [leaf];
      LeafInTable(Child(root, parents[0]), parents[1..], leaf);
      if parents[0] !in root {
        LeafOfNothing(parents[1..], leaf);
      }
    }
  }

  lemma LeafOfNothing(parents: Path, leaf: string)
    ensures Get(Obj(map[]), parents + [leaf]).None?
  {
  }

  /** The error of a walk names a part of the path that holds a value. */
  lemma {:induction false} BlockedAt(root: Table, parents: Path) returns (i: nat)
    requires EnsureTable(root, parents).Failure?
    ensures i < |parents| && EnsureTable(root, parents) == Failure(parents[i])
    ensures Get(Obj(root), parents[..i + 1]).Some? && !Get(Obj(root), parents[..i + 1]).value.Obj?
    decreases parents
  {
    if parents[0] in root && !root[parents[0]].Obj? {
      i := 0;
      assert parents[..1][1..] == [];
    } else {
      var j := BlockedAt(Child(root, parents[0]), parents[1..]);
      i := j + 1;
      assert parents[..i + 1][1..] == parents[1..][..j + 1];
    }
  }

  /** An entry is refused exactly when a value stands in the way of its full path or something is there already;
      otherwise it is a set of that path: the table the last header opened, then every part of the key. */
  lemma EntryIsSet(st: Parsing, key: Path, value: Value)
    requires key != []
    ensures var path, r := st.table + key, AddEntry(st, key, value);
            && (r.Success? <==> Unobstructed(Obj(st.root), path) && Get(Obj(st.root), path).None?)
            && (r.Success? ==> r.value.table == st.table && SetIn(st.root, path, value) == Success(r.value.root))
            && (r == Failure(DuplicateKey(key[|key| - 1])) <==> Unobstructed(Obj(st.root), path) && Get(Obj(st.root), path).Some?)
  {
    var path, parents, leaf := st.table + key, st.table + key[..|key| - 1], key[|key| - 1];
    LastPart(st.table, key);
    SetThroughParent(st.root, parents, leaf, value);
    SetSucceedsIff(st.root, path, value);
    if EnsureTable(st.root, parents).Success? {
      LeafInTable(st.root, parents, leaf);
    }
  }

  /** Otherwise the refusal names a part of the path that holds a value. */
  lemma RefusalNamesThePart(st: Parsing, key: Path, value: Value) returns (i: nat)
    requires key != [] && !Unobstructed(Obj(st.root), st.table + key)
    ensures var path := st.table + key;
            && i + 1 < |path| && AddEntry(st, key, value) == Failure(NotATable(path[i]))
            && Get(Obj(st.root), path[..i + 1]).Some? && !Get(Obj(st.root), path[..i + 1]).value.Obj?
  {
    var path, parents, leaf := st.table + key, st.table + key[..|key| - 1], key[|key| - 1];
    LastPart(st.table, key);
    SetThroughParent(st.root, parents, leaf, value);
    SetSucceedsIff(st.root, path, value);
    i := BlockedAt(st.root, parents);
    assert path[..i + 1] == parents[..i + 1];
  }

  /** An accepted entry is found under its full path, and every path that neither holds it nor is inside it reads as
      before. */
  lemma EntryIsRead(st: Parsing, key: Path, value: Value, other: Path)
    requires key != [] && AddEntry(st, key, value).Success?
    ensures var path, next := st.table + key, AddEntry(st, key, value).value;
            && Get(Obj(next.root), path) == Some(value)
            && (!Comparable(path, other) ==> Get(Obj(next.root), other) == Get(Obj(st.root), other))
  {
    EntryIsSet(st, key, value);
    SetThenGetIn(st.root, st.table + key, value);
    if !Comparable(st.table + key, other) {
      SetKeepsOthersIn(st.root, st.table + key, value, other);
    }
  }

  // ---- whole lines ----------------------------------------------------------------------------------------

  /** The key before the first unquoted separator and the value behind it, if both can be read. */
  function EntryOn(line: string): Option<(Path, Value)> {
    match FirstUnquoted(Plain, line, '=')
    case None => None
    case Some(split) =>
      var key, value := ParseKey(line[..split]), ParseValue(Trim(line[split + 1..]));
      if key.Success? && value.Success? then Some((key.value, value.value)) else None
  }

  /** A line is an entry if and only if what stands before its first unquoted separator spells the key and what stands
      behind it spells the value. */
  lemma EntryOnExactly(line: string, key: Path, value: Value)
    ensures EntryOn(line) == Some((key, value)) <==>
            var split := FirstUnquoted(Plain, line, '=');
            split.Some? && SpellsEntry(line[..split.value], Trim(line[split.value + 1..]), key, value)
  {
    var split := FirstUnquoted(Plain, line, '=');
    if split.Some? {
      EntryOnParts(line, split.value, key, value);
      SidesAreReadExactly(line[..split.value], Trim(line[split.value + 1..]), key, value);
    }
  }

  ghost predicate SpellsEntry(front: string, back: string, key: Path, value: Value) {
    SpellsKey(front, key) && Spells(back, value)
  }

  lemma SidesAreReadExactly(front: string, back: string, key: Path, value: Value)
    ensures ParseKey(front) == Success(key) && ParseValue(back) == Success(value) <==> SpellsEntry(front, back, key, value)
  {
    KeysAreReadExactly(front, key);
    ValuesAreReadExactly(back, value);
  }

  lemma EntryOnParts(line: string, split: nat, key: Path, value: Value)
    requires split < |line| && FirstUnquoted(Plain, line, '=') == Some(split)
    ensures EntryOn(line) == Some((key, value)) <==>
            ParseKey(line[..split]) == Success(key) && ParseValue(Trim(line[split + 1..])) == Success(value)
  {
  }

  lemma EntryIsAdded(st: Parsing, line: string)
    ensures EntryOn(line).Some? ==> EntryOn(line).value.0 != []
                                    && ParseEntry(st, line) == AddEntry(st, EntryOn(line).value.0, EntryOn(line).value.1)
    ensures EntryOn(line).None? ==> ParseEntry(st, line).Failure?
  {
  }

  /** An accepted entry line puts its value under its key, of any length, in the table the last header opened, and
      leaves every path that neither holds that one nor is inside it. */
  lemma EntryLineIsSet(st: Parsing, line: string, other: Path)
    requires ParseEntry(st, line).Success?
    ensures EntryOn(line).Some?
    ensures var path, next := st.table + EntryOn(line).value.0, ParseEntry(st, line).value;
            && next.table == st.table && Get(Obj(next.root), path) == Some(EntryOn(line).value.1)
            && (!Comparable(path, other) ==> Get(Obj(next.root), other) == Get(Obj(st.root), other))
  {
    EntryIsAdded(st, line);
    var e := EntryOn(line).value;
    EntryIsSet(st, e.0, e.1);
    EntryIsRead(st, e.0, e.1, other);
  }

  /** A line is refused as an entry exactly when it is none, or a value stands in the way of its path, or its path is
      taken. */
  lemma EntryLineRefusedExactly(st: Parsing, line: string)
    ensures ParseEntry(st, line).Failure? <==>
            || EntryOn(line).None?
            || var path := st.table + EntryOn(line).value.0; !Unobstructed(Obj(st.root), path) || Get(Obj(st.root), path).Some?
  {
    EntryIsAdded(st, line);
    if EntryOn(line).Some? {
      EntryIsSet(st, EntryOn(line).value.0, EntryOn(line).value.1);
    }
  }

  function DottedKey(key: Path): string {
    Join(QuoteKeys(key), ".")
  }

  lemma DottedKeyScans(key: Path)
    requires key != []
    ensures Solid(DottedKey(key)) && DottedKey(key)[0] != '[' && Inert(DottedKey(key))
  {
    JoinedKeysSolid(key);
    InertKeys(key);
    InertPlain(".");
    InertJoin(QuoteKeys(key), ".");
  }

  /** A comment behind a line that leaves no string open is not part of it. */
  lemma CommentIsDropped(line: string, comment: string)
    requires Solid(line) && FirstUnquoted(Plain, line, '#').None? && After(Plain, line) == Plain
    ensures Trim(StripComment(line + (" #" + comment))) == line == Trim(StripComment(line))
  {
    InertPlain(" ");
    AfterConcat(Plain, line, " ");
    FirstUnquotedSkips(Plain, line, " ", '#');
    CommentIsFound(line + " ", comment);
    assert line + (" #" + comment) == (line + " ") + ("#" + comment);
    TrimTrailing(line);
  }

  lemma CommentIsFound(front: string, comment: string)
    requires FirstUnquoted(Plain, front, '#').None? && After(Plain, front) == Plain
    ensures StripComment(front + ("#" + comment)) == front
  {
    FirstUnquotedSkips(Plain, front, "#" + comment, '#');
    assert (front + ("#" + comment))[..|front|] == front;
  }

  lemma TrimTrailing(s: string)
    requires Solid(s)
    ensures Trim(s + " ") == s && Trim(s) == s
  {
    assert (s + " ")[..|s|] == s;
    TrimSolid(s);
  }

  lemma SeparatedLeavesNothingOpen(name: string, text: string)
    requires Inert(name) && Inert(text)
    ensures FirstUnquoted(Plain, name + " = " + text, '#').None? && After(Plain, name + " = " + text) == Plain
  {
    var front, behind := name + " ", "=" + (" " + text);
    SeparatorScan(name, text);
    InertPlain(" ");
    InertConcat(name, " ");
    AfterSeparator(text);
    AfterConcat(Plain, front, behind);
    SeparatorShape(name, text);
  }

  lemma AfterSeparator(text: string)
    requires Inert(text)
    ensures After(Plain, "=" + (" " + text)) == Plain
  {
    var behind := "=" + (" " + text);
    InertPlain(" ");
    InertConcat(" ", text);
    assert behind[0] == '=' && behind[1..] == " " + text;
  }

  lemma SeparatorShape(name: string, text: string)
    ensures name + " = " + text == (name + " ") + ("=" + (" " + text)) == name + (" " + ("=" + (" " + text)))
  {
  }

  /** A written entry line, its key of any length, adds that entry, with or without a comment behind it. */
  lemma DottedLineParses(st: Parsing, key: Path, v: Value, comment: string)
    requires key != [] && Printable(v)
    ensures var line := DottedKey(key) + " = " + FormatValue(v).value;
            && ParseLine(st, line) == (if [] in key then Failure(EmptySegment) else AddEntry(st, RawPath(key), v))
            && ParseLine(st, line + (" #" + comment)) == ParseLine(st, line)
            && SingleLine(line)
  {
    var name, text := DottedKey(key), FormatValue(v).value;
    var line := name + " = " + text;
    DottedKeyScans(key);
    FormatStarts(v);
    InertValue(v);
    EntryLineShape(name, text);
    SeparatedLeavesNothingOpen(name, text);
    CommentIsDropped(line, comment);
    LineOfText(st, line, line);
    LineOfText(st, line + (" #" + comment), line);
    DottedEntryParses(st, key, v);
  }

  lemma LineOfText(st: Parsing, raw: string, line: string)
    requires Trim(StripComment(raw)) == line && line != [] && line[0] != '['
    ensures ParseLine(st, raw) == ParseEntry(st, line)
  {
  }

  lemma DottedEntryParses(st: Parsing, key: Path, v: Value)
    requires key != [] && Printable(v)
    ensures ParseEntry(st, DottedKey(key) + " = " + FormatValue(v).value) ==
            if [] in key then Failure(EmptySegment) else AddEntry(st, RawPath(key), v)
  {
    var name, text := DottedKey(key), FormatValue(v).value;
    var line := name + " = " + text;
    DottedKeyScans(key);
    FormatStarts(v);
    InertValue(v);
    EntryLineShape(name, text);
    SeparatorScan(name, text);
    ParsedValueRoundTrip(v);
    EntrySlices(name, text);
    TrimSolid(text);
    ParseSplitEntry(st, line, |name| + 1, v);
    PrintedKeysParse(key, " ");
  }

  // ---- headers --------------------------------------------------------------------------------------------

  lemma {:induction false} TablesKeepValues(root: Table, path: Path, other: Path)
    requires EnsureTable(root, path).Success?
    ensures var next := Obj(EnsureTable(root, path).value);
            && (Get(Obj(root), other).Some? && !Get(Obj(root), other).value.Obj? ==> Get(next, other) == Get(Obj(root), other))
            && (Get(Obj(root), other).None? && Get(next, other).Some? ==> other <= path && Get(next, other).value.Obj?)
    decreases path
  {
    if path != [] && other != [] && path[0] == other[0] {
      var child := Child(root, path[0]);
      TablesKeepValues(child, path[1..], other[1..]);
      assert other == [other[0]] + other[1..] && path == [path[0]] + path[1..];
      if path[0] !in root && other[1..] != [] {
        assert Get(Obj(child), other[1..]).None?;
      }
    }
  }

  /** A header makes room for its table and nothing else: every value stays where it was, and what is new is a table on
      the way. It is refused exactly when a value stands on that way, its end included. */
  lemma HeaderMakesRoom(root: Table, path: Path, other: Path)
    ensures var r := OpenHeader(root, path);
            && (r.Success? <==> forall i :: 0 < i <= |path| && Get(Obj(root), path[..i]).Some? ==> Get(Obj(root), path[..i]).value.Obj?)
            && (r.Success? ==> r.value.table == path && HasTable(r.value.root, path))
            && (r.Success? && Get(Obj(root), other).Some? && !Get(Obj(root), other).value.Obj? ==>
                  Get(Obj(r.value.root), other) == Get(Obj(root), other))
            && (r.Success? && Get(Obj(root), other).None? && Get(Obj(r.value.root), other).Some? ==>
                  other <= path && Get(Obj(r.value.root), other).value.Obj?)
  {
    RoomExactly(root, path);
    if EnsureTable(root, path).Success? {
      EnsureMakesTable(root, path);
      TablesKeepValues(root, path, other);
    }
  }

  lemma RoomExactly(root: Table, path: Path)
    ensures EnsureTable(root, path).Success? <==>
            forall i :: 0 < i <= |path| && Get(Obj(root), path[..i]).Some? ==> Get(Obj(root), path[..i]).value.Obj?
  {
    var leaf := "leaf";
    var long := path + [leaf];
    SetThroughParent(root, path, leaf, Null);
    SetSucceedsIff(root, long, Null);
    assert forall i :: 0 <= i <= |path| ==> long[..i] == path[..i];
    if Unobstructed(Obj(root), long) {
      forall i | 0 < i <= |path| && Get(Obj(root), path[..i]).Some?
        ensures Get(Obj(root), path[..i]).value.Obj?
      {
        assert Get(Obj(root), long[..i]).Some?;
      }
    }
  }

  /** Arrays of tables are refused, whatever follows the brackets. */
  lemma ArraysOfTablesAreRefused(st: Parsing, raw: string)
    requires "[[" <= Trim(StripComment(raw))
    ensures ParseLine(st, raw) == Failure(ArraysOfTables)
  {
  }

  /** A header stands on a line of its own, with a blank line before it unless it is the first. */
  lemma HeaderStandsAlone(out: string, path: Path)
    requires Complete(out) && path != []
    ensures Lines(RenderHeader(out, path)) == Lines(out) + (if out == [] then [] else [""]) + [HeaderLine(path)]
  {
    HeaderLineScans(path);
    if out == [] {
      LinesAppend([], HeaderLine(path));
      assert [] + (HeaderLine(path) + "\n") == HeaderLine(path) + "\n";
      assert Lines([]) + [] + [HeaderLine(path)] == Lines([]) + [HeaderLine(path)];
    } else {
      LinesAppend(out, "");
      assert [] + "\n" == "\n";
      LinesAppend(out + "\n", HeaderLine(path));
    }
  }

  // ---- documents ------------------------------------------------------------------------------------------

  /** One more entry line at the end of a document that reads: it is refused exactly when a value stands in the way of
      its path or the path is taken, and otherwise the path reads as the value and its surroundings as before. */
  lemma EntryInDocument(out: string, key: Path, v: Value, other: Path)
    requires Complete(out) && ReadBack(out).Success? && key != [] && [] !in key && Printable(v)
    ensures ParseToml(out) == Success(Obj(ReadBack(out).value.root))
    ensures var st := ReadBack(out).value;
            var path := st.table + RawPath(key);
            var r := ParseToml(out + (DottedKey(key) + " = " + FormatValue(v).value + "\n"));
            && (r.Success? <==> Unobstructed(Obj(st.root), path) && Get(Obj(st.root), path).None?)
            && (r.Success? ==> Get(r.value, path) == Some(v))
            && (r.Success? && !Comparable(path, other) ==> Get(r.value, other) == Get(ParseToml(out).value, other))
  {
    var st, line := ReadBack(out).value, DottedKey(key) + " = " + FormatValue(v).value;
    DottedLineParses(st, key, v, []);
    WriteLine(out, line);
    EntryIsSet(st, RawPath(key), v);
    if AddEntry(st, RawPath(key), v).Success? {
      EntryIsRead(st, RawPath(key), v, other);
    }
  }

  /** Line `n` is the one `lines` fail at: everything before it reads and it does not. */
  ghost predicate FailsAt(st: Parsing, lines: seq<string>, n: nat, e: TomlError) {
    && n < |lines| && ParseLines(st, lines[..n], 1).Success?
    && ParseLine(ParseLines(st, lines[..n], 1).value, lines[n]) == Failure(e)
  }

  lemma {:induction false} NumbersDoNotMatter(st: Parsing, lines: seq<string>, a: nat, b: nat)
    ensures ParseLines(st, lines, a).Success? <==> ParseLines(st, lines, b).Success?
    ensures ParseLines(st, lines, a).Success? ==> ParseLines(st, lines, a) == ParseLines(st, lines, b)
    decreases lines
  {
    if lines != [] {
      match ParseLine(st, lines[0])
      case Failure(first) =>
        StopsFirst(st, lines, a, first);
        StopsFirst(st, lines, b, first);
      case Success(next) =>
        ReadsFirst(st, lines, a, next);
        ReadsFirst(st, lines, b, next);
        NumbersDoNotMatter(next, lines[1..], a + 1, b + 1);
    }
  }

  lemma FailsFurther(st: Parsing, lines: seq<string>, next: Parsing, n: nat, e: TomlError)
    requires lines != [] && ParseLine(st, lines[0]) == Success(next)
    ensures FailsAt(st, lines, n + 1, e) <==> FailsAt(next, lines[1..], n, e)
    ensures !FailsAt(st, lines, 0, e)
  {
    if n + 1 < |lines| {
      var before := lines[..n + 1];
      assert before[1..] == lines[1..][..n];
      ReadsFirst(st, before, 1, next);
      NumbersDoNotMatter(next, before[1..], 1, 2);
    }
  }

  lemma {:induction false} ReadsFirst(st: Parsing, lines: seq<string>, number: nat, next: Parsing)
    requires lines != [] && ParseLine(st, lines[0]) == Success(next)
    ensures ParseLines(st, lines, number) == ParseLines(next, lines[1..], number + 1)
  {
  }

  lemma {:induction false} StopsFirst(st: Parsing, lines: seq<string>, number: nat, first: TomlError)
    requires lines != [] && ParseLine(st, lines[0]) == Failure(first)
    ensures ParseLines(st, lines, number) == Failure(LineError(number, first))
  {
  }

  lemma FailsAtFirst(st: Parsing, lines: seq<string>, n: nat, first: TomlError, e: TomlError)
    requires lines != [] && ParseLine(st, lines[0]) == Failure(first)
    ensures FailsAt(st, lines, n, e) <==> n == 0 && e == first
  {
    if n == 0 {
      assert lines[..0] == [];
    } else if n < |lines| {
      StopsFirst(st, lines[..n], 1, first);
    }
  }

  /** The claim for these lines: what is reported as error of line `n` is what it fails at. */
  ghost predicate Numbered(st: Parsing, lines: seq<string>, number: nat, n: nat, e: TomlError) {
    ParseLines(st, lines, number) == Failure(LineError(number + n, e)) <==> FailsAt(st, lines, n, e)
  }

  lemma NumberedAtFailure(st: Parsing, lines: seq<string>, number: nat, n: nat, first: TomlError, e: TomlError)
    requires lines != [] && ParseLine(st, lines[0]) == Failure(first)
    ensures Numbered(st, lines, number, n, e)
  {
    StopsFirst(st, lines, number, first);
    FailsAtFirst(st, lines, n, first, e);
  }

  lemma NumberedFurther(st: Parsing, lines: seq<string>, next: Parsing, number: nat, n: nat, e: TomlError)
    requires lines != [] && ParseLine(st, lines[0]) == Success(next) && Numbered(next, lines[1..], number + 1, n, e)
    ensures Numbered(st, lines, number, n + 1, e)
  {
    ReadsFirst(st, lines, number, next);
    FailsFurther(st, lines, next, n, e);
  }

  lemma FirstIsFine(st: Parsing, lines: seq<string>, next: Parsing, number: nat, e: TomlError)
    requires lines != [] && ParseLine(st, lines[0]) == Success(next)
    ensures Numbered(st, lines, number, 0, e)
  {
    ReadsFirst(st, lines, number, next);
    FailsFurther(st, lines, next, 0, e);
    LaterNumbers(next, lines[1..], number + 1, number, e);
  }

  lemma {:induction false} ErrorsAreNumbered(st: Parsing, lines: seq<string>, number: nat, n: nat, e: TomlError)
    ensures Numbered(st, lines, number, n, e)
    decreases lines
  {
    if lines != [] {
      match ParseLine(st, lines[0])
      case Failure(first) => NumberedAtFailure(st, lines, number, n, first, e);
      case Success(next) =>
        if n == 0 {
          FirstIsFine(st, lines, next, number, e);
        } else {
          ErrorsAreNumbered(next, lines[1..], number + 1, n - 1, e);
          NumberedFurther(st, lines, next, number, n - 1, e);
        }
    }
  }

  ghost predicate NotBefore(r: Result<Parsing, LineError>, number: nat) {
    r.Failure? ==> r.error.line >= number
  }

  lemma {:induction false} LaterNumbers(st: Parsing, lines: seq<string>, number: nat, n: nat, e: TomlError)
    requires n < number
    ensures ParseLines(st, lines, number) != Failure(LineError(n, e))
  {
    NumbersCountUp(st, lines, number);
  }

  lemma {:induction false} NumbersCountUp(st: Parsing, lines: seq<string>, number: nat)
    ensures NotBefore(ParseLines(st, lines, number), number)
    decreases lines
  {
    if lines != [] {
      match ParseLine(st, lines[0])
      case Failure(first) => StopsFirst(st, lines, number, first);
      case Success(next) =>
        NumbersCountUp(next, lines[1..], number + 1);
        ReadsFirst(st, lines, number, next);
    }
  }

  /** A document is refused with the number, counted from one, and the error of its first bad line, and only then. */
  lemma FirstBadLineIsReported(text: string, n: nat, e: TomlError)
    ensures ParseToml(text) == Failure(LineError(n + 1, e)) <==> FailsAt(START, Lines(text), n, e)
  {
    ErrorsAreNumbered(START, Lines(text), 1, n, e);
  }
}
