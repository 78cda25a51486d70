/** What the reader makes of each line the printer can write. */
module TomlLineLaws {
  import opened Json
  import opened TomlDocument
  import opened Text
  import opened TomlText
  import opened TomlValue
  import opened Wrappers

  // ---- keys -----------------------------------------------------------------------------------------------

  /** What comes back for a printed key: quoted keys are returned without unescaping. */
  function RawKey(key: string): string {
    if IsBareKey(key) then key else Escape(key)
  }

  function RawPath(path: Path): (raw: Path)
    ensures |raw| == |path|
  {
    if path == [] then [] else [RawKey(path[0])] + RawPath(path[1..])
  }

  predicate Unescaped(key: string) {
    forall i :: 0 <= i < |key| ==> !NeedsEscape(key[i])
  }

  lemma {:induction false} EscapeLength(key: string)
    ensures |Escape(key)| >= |key| && (!Unescaped(key) ==> |Escape(key)| > |key|)
  {
    if key != [] {
      EscapeLength(key[1..]);
    }
  }

  lemma {:induction false} EscapeOfUnescaped(key: string)
    requires Unescaped(key)
    ensures Escape(key) == key
  {
    if key != [] {
      EscapeOfUnescaped(key[1..]);
    }
  }

  lemma {:induction false} EscapeHasBackslash(key: string)
    requires !Unescaped(key)
    ensures '\\' in Escape(key)
  {
    if NeedsEscape(key[0]) {
      assert EscapeChar(key[0])[0] == '\\';
      assert Escape(key)[0] == '\\';
    } else {
      assert key == [key[0]] + key[1..];
      EscapeHasBackslash(key[1..]);
    }
  }

  lemma EscapeGrows(key: string)
    ensures if Unescaped(key) then Escape(key) == key else |Escape(key)| > |key| && '\\' in Escape(key)
    ensures |Escape(key)| >= |key|
  {
    EscapeLength(key);
    if Unescaped(key) {
      EscapeOfUnescaped(key);
    } else {
      EscapeHasBackslash(key);
    }
  }

  /** A key comes back as it was exactly when nothing in it had to be escaped. */
  lemma RawKeyFixed(key: string)
    ensures RawKey(key) == key <==> Unescaped(key)
    ensures RawKey(key) == [] <==> key == []
  {
    EscapeGrows(key);
  }

  lemma EscapeInjective(a: string, b: string)
    requires Escape(a) == Escape(b)
    ensures a == b
  {
    BasicStringFrom(a, [], []);
    BasicStringFrom(b, [], []);
    assert [] + a == a && [] + b == b;
  }

  lemma RawKeyInjective(a: string, b: string)
    requires RawKey(a) == RawKey(b)
    ensures a == b
  {
    EscapeGrows(a);
    EscapeGrows(b);
    if !IsBareKey(a) && !IsBareKey(b) {
      EscapeInjective(a, b);
    }
  }

  lemma {:induction false} NoQuoteInside(s: string, rest: string)
    requires forall i :: 0 <= i < |s| ==> s[i] != '\"' && s[i] != '\\'
    ensures QuotedLength(s + rest, '\"') == |s| + QuotedLength(rest, '\"')
  {
    if s == [] {
      assert s + rest == rest;
    } else {
      assert (s + rest)[1..] == s[1..] + rest;
      NoQuoteInside(s[1..], rest);
    }
  }

  lemma EscapedCharInKey(ch: char, rest: string)
    ensures QuotedLength(EscapeChar(ch) + rest, '\"') == |EscapeChar(ch)| + QuotedLength(rest, '\"')
  {
    var e := EscapeChar(ch);
    if NeedsEscape(ch) {
      assert (e + rest)[2..] == e[2..] + rest;
      NoQuoteInside(e[2..], rest);
    } else {
      NoQuoteInside(e, rest);
    }
  }

  lemma {:induction false} EscapedKeyEnds(key: string, rest: string)
    ensures QuotedLength(Escape(key) + ("\"" + rest), '\"') == |Escape(key)|
  {
    if key == [] {
      assert Escape(key) + ("\"" + rest) == "\"" + rest;
    } else {
      EscapedKeyEnds(key[1..], rest);
      EscapedCharInKey(key[0], Escape(key[1..]) + ("\"" + rest));
      assert Escape(key) + ("\"" + rest) == EscapeChar(key[0]) + (Escape(key[1..]) + ("\"" + rest));
    }
  }

  predicate EndsKey(rest: string) {
    rest == [] || rest[0] == ' ' || rest[0] == '.'
  }

  lemma {:induction false} BareKeyEnds(key: string, rest: string)
    requires forall i :: 0 <= i < |key| ==> IsAsciiAlphanumeric(key[i]) || key[i] == '_' || key[i] == '-'
    requires EndsKey(rest)
    ensures BareLength(key + rest) == |key|
  {
    if key == [] {
      assert key + rest == rest;
    } else {
      assert (key + rest)[1..] == key[1..] + rest;
      BareKeyEnds(key[1..], rest);
    }
  }

  lemma QuotedSlices(body: string, rest: string)
    ensures var s := "\"" + body + "\"" + rest;
            && s[0] == '\"' && s[1..] == body + ("\"" + rest)
            && s[1..|body| + 1] == body && s[|body| + 2..] == rest
  {
  }

  lemma SegmentOfQuoted(key: string, rest: string)
    ensures Segment(QuoteString(key) + rest) == if key == [] then Failure(EmptySegment) else Success((Escape(key), rest))
  {
    QuotedSlices(Escape(key), rest);
    EscapedKeyEnds(key, rest);
    EscapeGrows(key);
  }

  /** One printed key is one segment; the empty key is refused. */
  lemma SegmentOfKey(key: string, rest: string)
    requires EndsKey(rest)
    ensures Segment(QuoteKey(key) + rest) == if key == [] then Failure(EmptySegment) else Success((RawKey(key), rest))
  {
    if IsBareKey(key) {
      var s := key + rest;
      BareKeyEnds(key, rest);
      assert s[..|key|] == key && s[|key|..] == rest;
    } else {
      SegmentOfQuoted(key, rest);
    }
  }

  lemma KeyStep(key: string, rest: string, parts: seq<string>)
    requires EndsKey(rest)
    ensures KeySegments(QuoteKey(key) + rest, parts) ==
            if key == [] then Failure(EmptySegment) else KeyRest(rest, parts + [RawKey(key)])
  {
    SegmentOfKey(key, rest);
    assert SkipAsciiWhitespace(QuoteKey(key) + rest) == QuoteKey(key) + rest;
  }

  /** Printed keys, dotted together, are read back in raw form, also with a blank behind them. */
  lemma {:induction false} KeysFrom(path: Path, behind: string, parts: seq<string>)
    requires path != [] && (behind == [] || behind == " ")
    ensures KeySegments(Join(QuoteKeys(path), ".") + behind, parts) ==
            if [] in path then Failure(EmptySegment) else Success(parts + RawPath(path))
  {
    if |path| == 1 {
      LastKey(path[0], behind, parts);
      assert path == [path[0]];
    } else {
      FirstKey(path, behind, parts);
      var more := path[1..];
      assert path == [path[0]] + more;
      if path[0] != [] {
        KeysFrom(more, behind, parts + [RawKey(path[0])]);
        RawPathFirst(path, parts);
      }
    }
  }

  lemma RawPathFirst(path: Path, parts: Path)
    requires path != []
    ensures parts + [RawKey(path[0])] + RawPath(path[1..]) == parts + RawPath(path)
  {
  }

  lemma LastKey(key: string, behind: string, parts: seq<string>)
    requires behind == [] || behind == " "
    ensures KeySegments(Join(QuoteKeys([key]), ".") + behind, parts) ==
            if key == [] then Failure(EmptySegment) else Success(parts + RawPath([key]))
  {
    KeyStep(key, behind, parts);
    assert " "[1..] == [] && [key][1..] == [];
    assert QuoteKeys([key]) == [QuoteKey(key)] && RawPath([key]) == [RawKey(key)];
  }

  lemma FirstKey(path: Path, behind: string, parts: seq<string>)
    requires |path| > 1
    ensures KeySegments(Join(QuoteKeys(path), ".") + behind, parts) ==
            if path[0] == [] then Failure(EmptySegment)
            else KeySegments(Join(QuoteKeys(path[1..]), ".") + behind, parts + [RawKey(path[0])])
  {
    var first, more := QuoteKey(path[0]), Join(QuoteKeys(path[1..]), ".") + behind;
    assert QuoteKeys(path)[1..] == QuoteKeys(path[1..]) && |QuoteKeys(path)| > 1;
    assert Join(QuoteKeys(path), ".") + behind == first + ("." + more);
    KeyStep(path[0], "." + more, parts);
    assert ("." + more)[1..] == more;
    assert SkipAsciiWhitespace("." + more) == "." + more;
  }

  lemma PrintedKeysParse(path: Path, behind: string)
    requires path != [] && (behind == [] || behind == " ")
    ensures ParseKey(Join(QuoteKeys(path), ".") + behind) == if [] in path then Failure(EmptySegment) else Success(RawPath(path))
  {
    KeysFrom(path, behind, []);
    assert [] + RawPath(path) == RawPath(path);
  }

  lemma EntryKeyParses(key: string)
    ensures ParseKey(QuoteKey(key) + " ") == if key == [] then Failure(EmptySegment) else Success([RawKey(key)])
  {
    PrintedKeysParse([key], " ");
    assert [key][1..] == [];
    assert QuoteKeys([key]) == [QuoteKey(key)] && RawPath([key]) == [RawKey(key)];
  }

  // ---- text the scanners pass over ------------------------------------------------------------------------

  /** Quotes are balanced, and no comment, separator or line break shows outside them. */
  ghost predicate Inert(s: string) {
    && FirstUnquoted(Plain, s, '#').None?
    && FirstUnquoted(Plain, s, '=').None?
    && After(Plain, s) == Plain
    && '\n' !in s
  }

  lemma InertConcat(a: string, b: string)
    requires Inert(a) && Inert(b)
    ensures Inert(a + b)
  {
    FirstUnquotedSkips(Plain, a, b, '#');
    FirstUnquotedSkips(Plain, a, b, '=');
    AfterConcat(Plain, a, b);
  }

  lemma {:induction false} InertPlain(s: string)
    requires forall i :: 0 <= i < |s| ==> s[i] !in {'\"', '\'', '#', '=', '\n'}
    ensures Inert(s)
  {
    if s != [] {
      InertPlain(s[1..]);
    }
  }

  /** Inside a basic string, characters that need no escape change nothing. */
  lemma {:induction false} BasicRun(s: string, needle: char)
    requires forall i :: 0 <= i < |s| ==> s[i] != '\"' && s[i] != '\\'
    ensures After(Basic, s) == Basic && FirstUnquoted(Basic, s, needle).None?
  {
    if s != [] {
      BasicRun(s[1..], needle);
    }
  }

  lemma BasicEscape(ch: char, needle: char)
    ensures var e := EscapeChar(ch);
            After(Basic, e) == Basic && FirstUnquoted(Basic, e, needle).None? && '\n' !in e
  {
    var e := EscapeChar(ch);
    if NeedsEscape(ch) {
      var rest := e[1..][1..];
      assert After(Basic, e) == After(Basic, rest);
      BasicRun(rest, needle);
    } else {
      BasicRun(e, needle);
    }
  }

  lemma {:induction false} BasicBody(text: string, needle: char)
    ensures var e := Escape(text);
            After(Basic, e) == Basic && FirstUnquoted(Basic, e, needle).None? && '\n' !in e
  {
    if text != [] {
      var first, rest := EscapeChar(text[0]), Escape(text[1..]);
      BasicEscape(text[0], needle);
      BasicBody(text[1..], needle);
      AfterConcat(Basic, first, rest);
      FirstUnquotedSkips(Basic, first, rest, needle);
    }
  }

  /** Whatever a string contains, its quoted form is passed over whole. */
  lemma InertQuoted(text: string)
    ensures Inert(QuoteString(text))
  {
    var q, body := QuoteString(text), Escape(text);
    assert q[1..] == body + "\"";
    BasicBody(text, '#');
    BasicBody(text, '=');
    AfterConcat(Basic, body, "\"");
    FirstUnquotedSkips(Basic, body, "\"", '#');
    FirstUnquotedSkips(Basic, body, "\"", '=');
    assert After(Plain, q) == After(Basic, q[1..]);
  }

  lemma InertKey(key: string)
    ensures Inert(QuoteKey(key))
  {
    if IsBareKey(key) {
      InertPlain(key);
    } else {
      InertQuoted(key);
    }
  }

  lemma {:induction false} InertJoin(parts: seq<string>, separator: string)
    requires Inert(separator) && forall i :: 0 <= i < |parts| ==> Inert(parts[i])
    ensures Inert(Join(parts, separator))
  {
    if |parts| > 1 {
      InertJoin(parts[1..], separator);
      InertConcat(parts[0], separator);
      InertConcat(parts[0] + separator, Join(parts[1..], separator));
    }
  }

  lemma {:induction false} InertKeys(path: Path)
    ensures forall i :: 0 <= i < |QuoteKeys(path)| ==> Inert(QuoteKeys(path)[i])
  {
    if path != [] {
      InertKey(path[0]);
      InertKeys(path[1..]);
    }
  }

  lemma {:induction false} InertValue(v: Value)
    requires Printable(v)
    ensures Inert(FormatValue(v).value)
    decreases v, 1
  {
    if v.Str? {
      InertQuoted(v.text);
    } else if v.Arr? {
      var texts := FormatItems(v.items).value;
      InertItems(v.items);
      InertPlain(", ");
      InertJoin(texts, ", ");
      InertPlain("[");
      InertPlain("]");
      InertConcat("[", Join(texts, ", "));
      InertConcat("[" + Join(texts, ", "), "]");
    } else if v.Int? {
      var n: int := v.n;
      InertPlain(IntText(n));
    } else {
      InertPlain("true");
      InertPlain("false");
    }
  }

  lemma {:induction false} InertItems(items: seq<Value>)
    requires forall i :: 0 <= i < |items| ==> Printable(items[i])
    ensures forall i :: 0 <= i < |items| ==> Inert(FormatItems(items).value[i])
    decreases items, 0
  {
    if items != [] {
      InertValue(items[0]);
      InertItems(items[1..]);
      assert FormatItems(items).value == [FormatValue(items[0]).value] + FormatItems(items[1..]).value;
    }
  }

  // ---- lines ----------------------------------------------------------------------------------------------

  lemma TrimSolid(s: string)
    requires Solid(s)
    ensures Trim(s) == s && Trim(" " + s) == s
  {
  }

  /** The separator shows right behind the key and nothing starts a comment. */
  lemma SeparatorScan(name: string, text: string)
    requires Inert(name) && Inert(text)
    ensures var line := name + (" " + ("=" + (" " + text)));
            FirstUnquoted(Plain, line, '=') == Some(|name| + 1) && FirstUnquoted(Plain, line, '#').None?
  {
    InertPlain(" ");
    InertConcat(name, " ");
    InertConcat(" ", text);
    var behind := "=" + (" " + text);
    assert behind[1..] == " " + text;
    assert name + (" " + behind) == (name + " ") + behind;
    FirstUnquotedSkips(Plain, name + " ", behind, '#');
    FirstUnquotedSkips(Plain, name + " ", behind, '=');
  }

  lemma EntryLineShape(name: string, text: string)
    requires Solid(name) && Solid(text) && '\n' !in name && '\n' !in text
    ensures var line := name + " = " + text;
            Solid(line) && line[0] == name[0] && SingleLine(line) && line == name + (" " + ("=" + (" " + text)))
  {
  }

  /** On every entry line the comment scan keeps everything and the separator found is the printed one. */
  lemma EntryLineScans(key: string, v: Value)
    requires Printable(v)
    ensures var line := EntryLine(key, FormatValue(v).value);
            && Solid(line) && line[0] != '[' && SingleLine(line)
            && StripComment(line) == line
            && FirstUnquoted(Plain, line, '=') == Some(|QuoteKey(key)| + 1)
  {
    FormatStarts(v);
    InertKey(key);
    InertValue(v);
    EntryLineShape(QuoteKey(key), FormatValue(v).value);
    SeparatorScan(QuoteKey(key), FormatValue(v).value);
  }

  lemma EntrySlices(name: string, text: string)
    ensures var line := name + " = " + text;
            line[..|name| + 1] == name + " " && line[|name| + 2..] == " " + text
  {
  }

  lemma ParseScannedLine(st: Parsing, line: string)
    requires Solid(line) && StripComment(line) == line && !("[[" <= line)
    ensures ParseLine(st, line) == if line[0] == '[' then ParseHeader(st, line[1..]) else ParseEntry(st, line)
  {
    TrimSolid(line);
  }

  lemma ParseSplitEntry(st: Parsing, line: string, split: nat, v: Value)
    requires split < |line| && FirstUnquoted(Plain, line, '=') == Some(split)
    requires ParseValue(Trim(line[split + 1..])) == Success(v)
    ensures ParseEntry(st, line) ==
            match ParseKey(line[..split])
            case Failure(e) => Failure(e)
            case Success(key) => AddEntry(st, key, v)
  {
  }

  lemma EntryLineParses(st: Parsing, key: string, v: Value)
    requires Printable(v)
    ensures ParseLine(st, EntryLine(key, FormatValue(v).value)) ==
            if key == [] then Failure(EmptySegment) else AddEntry(st, [RawKey(key)], v)
  {
    var text := FormatValue(v).value;
    EntryLineScans(key, v);
    ParseScannedLine(st, EntryLine(key, text));
    FormatStarts(v);
    ParsedValueRoundTrip(v);
    EntrySlices(QuoteKey(key), text);
    TrimSolid(text);
    ParseSplitEntry(st, EntryLine(key, text), |QuoteKey(key)| + 1, v);
    EntryKeyParses(key);
  }

  lemma JoinedKeysSolid(path: Path)
    requires path != []
    ensures Solid(Join(QuoteKeys(path), ".")) && Join(QuoteKeys(path), ".")[0] != '['
  {
  }

  lemma HeaderLineScans(path: Path)
    requires path != []
    ensures var line := HeaderLine(path);
            Solid(line) && SingleLine(line) && StripComment(line) == line && !("[[" <= line)
  {
    var keys := Join(QuoteKeys(path), ".");
    JoinedKeysSolid(path);
    InertKeys(path);
    InertPlain(".");
    InertJoin(QuoteKeys(path), ".");
    InertPlain("[");
    InertPlain("]");
    InertConcat("[", keys);
    InertConcat("[" + keys, "]");
    assert HeaderLine(path)[1] == keys[0];
  }

  lemma ParseBracketed(st: Parsing, keys: string)
    requires Solid(keys)
    ensures ParseHeader(st, keys + "]") ==
            match ParseKey(keys)
            case Failure(e) => Failure(e)
            case Success(path) => OpenHeader(st.root, path)
  {
    assert (keys + "]")[..|keys|] == keys;
    TrimSolid(keys);
  }

  lemma HeaderLineParses(st: Parsing, path: Path)
    requires path != []
    ensures ParseLine(st, HeaderLine(path)) ==
            if [] in path then Failure(EmptySegment) else OpenHeader(st.root, RawPath(path))
  {
    var keys := Join(QuoteKeys(path), ".");
    HeaderLineScans(path);
    ParseScannedLine(st, HeaderLine(path));
    assert HeaderLine(path)[1..] == keys + "]";
    JoinedKeysSolid(path);
    ParseBracketed(st, keys);
    PrintedKeysParse(path, []);
    assert keys + [] == keys;
  }
}
