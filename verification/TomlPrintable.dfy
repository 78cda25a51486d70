/** Whatever the reader returns, the printer accepts. */
module TomlPrintable {
  import opened ConfigTree
  import opened Json
  import opened TomlDocument
  import opened TomlRoundTrip
  import opened Text
  import opened TomlText
  import opened TomlValue

  /** A value the printer accepts where it stands: a table, or a value in an entry. */
  ghost predicate PrintableItem(v: Value) {
    if v.Obj? then PrintableTable(v) else Printable(v)
  }

  lemma {:induction false} ReadIsPrintable(s: string)
    ensures ReadValue(s).Success? ==> Printable(ReadValue(s).value.0)
    decreases |s|, 0
  {
    var t := SkipBlanks(s);
    if t != [] && t[0] == '[' {
      ReadItemsArePrintable(t[1..], []);
    }
  }

  lemma {:induction false} ReadItemsArePrintable(s: string, items: seq<Value>)
    requires forall i :: 0 <= i < |items| ==> Printable(items[i])
    ensures ReadItems(s, items).Success? ==> Printable(ReadItems(s, items).value.0)
    decreases |s|, 1
  {
    var t := SkipBlanks(s);
    if t != [] && t[0] != ']' {
      ReadIsPrintable(t);
      var p := ReadValue(t);
      if p.Success? {
        var rest := SkipBlanks(p.value.1);
        if rest != [] && rest[0] == ',' {
          ReadItemsArePrintable(rest[1..], items + [p.value.0]);
        }
      }
    }
  }

  lemma {:induction false} EnsureIsPrintable(root: Table, path: Path)
    requires PrintableTable(Obj(root)) && EnsureTable(root, path).Success?
    ensures PrintableTable(Obj(EnsureTable(root, path).value))
    decreases path
  {
    if path != [] {
      EnsureIsPrintable(Child(root, path[0]), path[1..]);
    }
  }

  lemma {:induction false} PutIsPrintable(root: Table, path: Path, key: string, v: Value)
    requires PrintableTable(Obj(root)) && PrintableItem(v)
    ensures PrintableTable(Obj(Put(root, path, At(root, path)[key := v])))
    decreases path
  {
    if path != [] {
      assert PrintableTable(Obj(Child(root, path[0])));
      PutIsPrintable(Child(root, path[0]), path[1..], key, v);
    }
  }

  lemma LineIsPrintable(st: Parsing, line: string)
    requires PrintableTable(Obj(st.root)) && ParseLine(st, line).Success?
    ensures PrintableTable(Obj(ParseLine(st, line).value.root))
  {
    var t := Trim(StripComment(line));
    if t != [] && t[0] == '[' {
      var path := ParseKey(Trim(t[1..][..|t[1..]| - 1])).value;
      EnsureIsPrintable(st.root, path);
    } else if t != [] {
      var split := FirstUnquoted(Plain, t, '=').value;
      EntryIsPrintable(st, ParseKey(t[..split]).value, Trim(t[split + 1..]));
    }
  }

  lemma EntryIsPrintable(st: Parsing, key: Path, text: string)
    requires key != [] && PrintableTable(Obj(st.root)) && ParseValue(text).Success?
    ensures var r := AddEntry(st, key, ParseValue(text).value);
            r.Success? ==> PrintableTable(Obj(r.value.root))
  {
    ReadIsPrintable(text);
    var parents := st.table + key[..|key| - 1];
    var tree := EnsureTable(st.root, parents);
    if tree.Success? {
      EnsureIsPrintable(st.root, parents);
      PutIsPrintable(tree.value, parents, key[|key| - 1], ParseValue(text).value);
    }
  }

  lemma {:induction false} LinesArePrintable(st: Parsing, lines: seq<string>, number: nat)
    requires PrintableTable(Obj(st.root)) && ParseLines(st, lines, number).Success?
    ensures PrintableTable(Obj(ParseLines(st, lines, number).value.root))
    decreases lines
  {
    if lines != [] {
      LineIsPrintable(st, lines[0]);
      LinesArePrintable(ParseLine(st, lines[0]).value, lines[1..], number + 1);
    }
  }

  /** Every tree read from text can be printed again. */
  lemma ParsedIsPrintable(text: string, order: KeyOrder)
    requires ParseToml(text).Success? && Walks(order, [], ParseToml(text).value)
    ensures PrintableTable(ParseToml(text).value) && PrintToml(ParseToml(text).value, order).Success?
  {
    LinesArePrintable(START, Lines(text), 1);
    PrintedTableReadsBack(ParseToml(text).value, order);
  }
}
