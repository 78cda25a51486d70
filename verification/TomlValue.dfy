/** Values of the supported TOML subset: how one is read from the front of a line and how one is written. */
module TomlValue {
  import opened Json
  import opened Text
  import opened TomlText
  import opened Wrappers

  // ---- decimal integers -----------------------------------------------------------------------------------

  function IntText(n: int): string {
    if n < 0 then "-" + Decimal(-n) else Decimal(n)
  }

  predicate AllDigits(s: string) {
    s != [] && forall i :: 0 <= i < |s| ==> IsAsciiDigit(s[i])
  }

  /** A sign and decimal digits that fit 64 bits. */
  function ParseI64(s: string): Option<I64> {
    var negative := s != [] && s[0] == '-';
    var digits := if s != [] && (s[0] == '-' || s[0] == '+') then s[1..] else s;
    if AllDigits(digits) then
      var magnitude: int := DigitsValue(digits);
      var n := if negative then -magnitude else magnitude;
      if -0x8000_0000_0000_0000 <= n < 0x8000_0000_0000_0000 then Some(n) else None
    else
      None
  }

  lemma NegativeRoundTrip(n: I64)
    requires n < 0
    ensures ParseI64(IntText(n)) == Some(n)
  {
    var m: int := n;
    var magnitude := -m;
    DecimalRoundTrip(magnitude);
    assert IntText(n)[1..] == Decimal(magnitude);
  }

  lemma IntRoundTrip(n: I64)
    ensures ParseI64(IntText(n)) == Some(n)
  {
    if n < 0 {
      NegativeRoundTrip(n);
    } else {
      DecimalRoundTrip(n);
      assert IsAsciiDigit(IntText(n)[0]);
    }
  }

  // ---- reading --------------------------------------------------------------------------------------------

  type Read<T> = Result<(T, string), TomlError>

  function SkipBlanks(s: string): (r: string)
    ensures |r| <= |s|
    ensures r != [] ==> r[0] != ' ' && r[0] != '\t'
  {
    if s != [] && (s[0] == ' ' || s[0] == '\t') then SkipBlanks(s[1..]) else s
  }

  function HexCode(s: string, count: nat, code: nat): (r: Read<nat>)
    ensures r.Success? ==> |r.value.1| == |s| - count
    decreases count
  {
    if count == 0 then
      Success((code, s))
    else if s == [] then
      Failure(UnterminatedEscape)
    else
      match HexDigit(s[0])
      case None => Failure(BadEscapeDigit)
      case Some(d) => HexCode(s[1..], count - 1, code * 16 + d)
  }

  /** The Unicode scalar values: no surrogates, nothing past the last plane. */
  predicate IsScalar(code: nat) {
    code < 0xD800 || 0xE000 <= code < 0x11_0000
  }

  /** What follows a backslash in a basic string. */
  function EscapeSequence(s: string): (r: Read<char>)
    ensures r.Success? ==> |r.value.1| < |s|
  {
    if s == [] then Failure(UnterminatedString)
    else if s[0] == 'n' then Success(('\n', s[1..]))
    else if s[0] == 't' then Success(('\t', s[1..]))
    else if s[0] == 'r' then Success(('\r', s[1..]))
    else if s[0] == '\"' then Success(('\"', s[1..]))
    else if s[0] == '\\' then Success(('\\', s[1..]))
    else if s[0] == 'b' then Success(('\U{8}', s[1..]))
    else if s[0] == 'f' then Success(('\U{C}', s[1..]))
    else if s[0] == 'u' || s[0] == 'U' then
      var code :- HexCode(s[1..], if s[0] == 'u' then 4 else 8, 0);
      if IsScalar(code.0) then Success((code.0 as char, code.1)) else Failure(BadScalar)
    else Failure(UnsupportedEscape)
  }

  /** A basic string behind its opening quote; `out` is what was read so far. */
  function BasicString(s: string, out: string): (r: Read<string>)
    ensures r.Success? ==> |r.value.1| < |s|
    decreases |s|
  {
    if s == [] then
      Failure(UnterminatedString)
    else if s[0] == '\"' then
      Success((out, s[1..]))
    else if s[0] == '\\' then
      var e :- EscapeSequence(s[1..]);
      BasicString(e.1, out + [e.0])
    else
      BasicString(s[1..], out + [s[0]])
  }

  function LiteralString(s: string): Read<string> {
    var n := IndexOf(s, '\'');
    if n == |s| then Failure(UnterminatedString) else Success((s[..n], s[n + 1..]))
  }

  predicate IsTokenChar(ch: char) {
    IsAsciiAlphanumeric(ch) || ch == '+' || ch == '-' || ch == '_' || ch == '.'
  }

  function TokenLength(s: string): (n: nat)
    ensures n <= |s|
  {
    if s != [] && IsTokenChar(s[0]) then 1 + TokenLength(s[1..]) else 0
  }

  function WithoutUnderscores(s: string): string {
    if s == [] then [] else (if s[0] == '_' then [] else [s[0]]) + WithoutUnderscores(s[1..])
  }

  /** Booleans and 64-bit integers. */
  function BareValue(s: string): (r: Read<Value>)
    ensures r.Success? ==> |r.value.1| < |s|
  {
    var n := TokenLength(s);
    var token := s[..n];
    if token == "true" then Success((Bool(true), s[n..]))
    else if token == "false" then Success((Bool(false), s[n..]))
    else if token == [] then Failure(ExpectedValue)
    else
      match ParseI64(WithoutUnderscores(token))
      case Some(i) => Success((Int(i), s[n..]))
      case None => Failure(UnsupportedValue)
  }

  function ReadValue(s: string): (r: Read<Value>)
    ensures r.Success? ==> |r.value.1| < |s|
    decreases |s|, 0
  {
    var t := SkipBlanks(s);
    if t == [] then
      Failure(ExpectedValue)
    else if t[0] == '\"' then
      var p :- BasicString(t[1..], []);
      Success((Str(p.0), p.1))
    else if t[0] == '\'' then
      var p :- LiteralString(t[1..]);
      Success((Str(p.0), p.1))
    else if t[0] == '[' then
      ReadItems(t[1..], [])
    else if t[0] == '{' then
      Failure(InlineTable)
    else
      BareValue(t)
  }

  /** An array behind its opening bracket; `items` are the elements read so far. */
  function ReadItems(s: string, items: seq<Value>): (r: Read<Value>)
    ensures r.Success? ==> |r.value.1| < |s|
    decreases |s|, 1
  {
    var t := SkipBlanks(s);
    if t == [] then
      Failure(UnterminatedArray)
    else if t[0] == ']' then
      Success((Arr(items), t[1..]))
    else
      var p :- ReadValue(t);
      var rest := SkipBlanks(p.1);
      if rest == [] then Failure(UnterminatedArray)
      else if rest[0] == ',' then ReadItems(rest[1..], items + [p.0])
      else if rest[0] == ']' then Success((Arr(items + [p.0]), rest[1..]))
      else Failure(ExpectedCommaOrBracket)
  }

  function ParseValue(text: string): Result<Value, TomlError> {
    var p :- ReadValue(text);
    if SkipBlanks(p.1) == [] then Success(p.0) else Failure(TrailingText)
  }

  // ---- writing --------------------------------------------------------------------------------------------

  datatype FormatError = NoNull | ArrayOfTables | NestedTable | NotTable

  function HexChar(d: nat): char
    requires d < 16
  {
    if d < 10 then ('0' as int + d) as char else ('A' as int + d - 10) as char
  }

  function Hex4(n: nat): string
    requires n < 0x1_0000
  {
    [HexChar(n / 0x1000), HexChar(n / 0x100 % 0x10), HexChar(n / 0x10 % 0x10), HexChar(n % 0x10)]
  }

  predicate NeedsEscape(ch: char) {
    ch == '\"' || ch == '\\' || ch < '\U{20}' || ch == '\U{7F}'
  }

  function EscapeChar(ch: char): string {
    if ch == '\"' then "\\\""
    else if ch == '\\' then "\\\\"
    else if ch == '\n' then "\\n"
    else if ch == '\r' then "\\r"
    else if ch == '\t' then "\\t"
    else if ch < '\U{20}' || ch == '\U{7F}' then "\\u" + Hex4(ch as int)
    else [ch]
  }

  function Escape(text: string): string {
    if text == [] then [] else EscapeChar(text[0]) + Escape(text[1..])
  }

  function QuoteString(text: string): string {
    "\"" + Escape(text) + "\""
  }

  predicate IsBareKey(key: string) {
    key != [] && forall i :: 0 <= i < |key| ==> IsAsciiAlphanumeric(key[i]) || key[i] == '_' || key[i] == '-'
  }

  function QuoteKey(key: string): string {
    if IsBareKey(key) then key else QuoteString(key)
  }

  /** Everything the printer accepts as a value: no null anywhere, no object inside an array. */
  predicate Printable(v: Value) {
    match v
    case Null => false
    case Obj(_) => false
    case Arr(items) => forall i :: 0 <= i < |items| ==> Printable(items[i])
    case _ => true
  }

  function FormatValue(v: Value): (r: Result<string, FormatError>)
    ensures r.Success? <==> Printable(v)
    decreases v, 1
  {
    match v
    case Null => Failure(NoNull)
    case Bool(flag) => Success(if flag then "true" else "false")
    case Int(n) => Success(IntText(n))
    case Str(text) => Success(QuoteString(text))
    case Arr(items) =>
      var rendered :- FormatItems(items);
      Success("[" + Join(rendered, ", ") + "]")
    case Obj(_) => Failure(NestedTable)
  }

  function FormatItems(items: seq<Value>): (r: Result<seq<string>, FormatError>)
    ensures r.Success? <==> forall i :: 0 <= i < |items| ==> Printable(items[i])
    ensures r.Success? ==> |r.value| == |items|
    decreases items, 0
  {
    if items == [] then
      Success([])
    else if items[0].Obj? then
      Failure(ArrayOfTables)
    else
      var first :- FormatValue(items[0]);
      var rest :- FormatItems(items[1..]);
      assert forall i :: 0 < i < |items| ==> items[i] == items[1..][i - 1];
      Success([first] + rest)
  }

  // ---- reading undoes writing -----------------------------------------------------------------------------

  lemma Hex4RoundTrip(n: nat, rest: string)
    requires n < 0x100
    ensures HexCode(Hex4(n) + rest, 4, 0) == Success((n, rest))
  {
    var s := Hex4(n) + rest;
    assert s[1..][1..][1..][1..] == rest;
    assert HexDigit(s[0]) == Some(0) && HexDigit(s[1]) == Some(0);
    assert HexDigit(s[2]) == Some(n / 0x10) && HexDigit(s[3]) == Some(n % 0x10);
    assert s[1..][0] == s[1] && s[1..][1..][0] == s[2] && s[1..][1..][1..][0] == s[3];
    assert HexCode(s[1..][1..], 2, 0) == Success((n, rest));
  }

  lemma EscapeCharRoundTrip(ch: char, rest: string)
    requires NeedsEscape(ch)
    ensures var s := EscapeChar(ch) + rest;
            s[0] == '\\' && EscapeSequence(s[1..]) == Success((ch, rest))
  {
    var s := EscapeChar(ch) + rest;
    if ch in {'\"', '\\', '\n', '\r', '\t'} {
      assert s[1..][1..] == rest;
    } else {
      Hex4RoundTrip(ch as int, rest);
      assert s[1..][1..] == Hex4(ch as int) + rest;
    }
  }

  lemma {:induction false} BasicStringFrom(text: string, rest: string, out: string)
    ensures BasicString(Escape(text) + ("\"" + rest), out) == Success((out + text, rest))
  {
    if text == [] {
      BasicStringEnds(rest, out);
    } else {
      var ch, more := text[0], text[1..];
      var tail := Escape(more) + ("\"" + rest);
      ConcatAssociates(EscapeChar(ch), Escape(more), "\"" + rest);
      BasicStringStep(ch, tail, out);
      BasicStringFrom(more, rest, out + [ch]);
      ConcatAssociates(out, [ch], more);
      assert text == [ch] + more;
    }
  }

  lemma BasicStringEnds(rest: string, out: string)
    ensures BasicString(Escape([]) + ("\"" + rest), out) == Success((out + [], rest))
  {
    var s := "\"" + rest;
    assert Escape([]) + s == s && out + [] == out;
  }

  lemma BasicStringStep(ch: char, tail: string, out: string)
    ensures BasicString(EscapeChar(ch) + tail, out) == BasicString(tail, out + [ch])
  {
    if NeedsEscape(ch) {
      EscapeCharRoundTrip(ch, tail);
    } else {
      assert (EscapeChar(ch) + tail)[1..] == tail;
    }
  }

  /** Reading a written string gives it back, whatever it contains. */
  lemma QuotedStringRoundTrip(text: string, rest: string)
    ensures BasicString((QuoteString(text) + rest)[1..], []) == Success((text, rest))
  {
    BasicStringFrom(text, rest, []);
    assert (QuoteString(text) + rest)[1..] == Escape(text) + ("\"" + rest);
    assert [] + text == text;
  }

  lemma {:induction false} TokenIsWhole(token: string, rest: string)
    requires forall i :: 0 <= i < |token| ==> IsTokenChar(token[i])
    requires rest != [] ==> !IsTokenChar(rest[0])
    ensures TokenLength(token + rest) == |token|
  {
    if token == [] {
      assert token + rest == rest;
    } else {
      assert (token + rest)[1..] == token[1..] + rest;
      TokenIsWhole(token[1..], rest);
    }
  }

  lemma {:induction false} NothingToRemove(s: string)
    requires '_' !in s
    ensures WithoutUnderscores(s) == s
  {
    if s != [] {
      NothingToRemove(s[1..]);
    }
  }

  lemma BareRoundTrip(v: Value, rest: string)
    requires v.Bool? || v.Int?
    requires rest != [] ==> !IsTokenChar(rest[0])
    ensures BareValue(FormatValue(v).value + rest) == Success((v, rest))
  {
    var token := FormatValue(v).value;
    if v.Int? {
      IntTokenValue(v.n);
    }
    TokenIsWhole(token, rest);
    assert (token + rest)[..|token|] == token && (token + rest)[|token|..] == rest;
  }

  lemma IntTokenValue(n: I64)
    ensures var s := IntText(n);
            && s != "true" && s != "false" && s != []
            && (forall i :: 0 <= i < |s| ==> IsTokenChar(s[i]))
            && ParseI64(WithoutUnderscores(s)) == Some(n)
  {
    var m: int := n;
    assert IntText(m)[0] != 't' && IntText(m)[0] != 'f';
    NothingToRemove(IntText(m));
    IntRoundTrip(n);
  }

  /** Every written value starts with a character that tells the reader what follows. */
  lemma FormatStarts(v: Value)
    requires Printable(v)
    ensures var s := FormatValue(v).value;
            && Solid(s) && s[0] != ']'
            && (s[0] == '\"' <==> v.Str?) && (s[0] == '[' <==> v.Arr?)
            && s[0] != '\'' && s[0] != '{'
  {
  }

  lemma ReadArrayText(inner: string, rest: string)
    ensures ReadValue(("[" + inner + "]") + rest) == ReadItems(inner + ("]" + rest), [])
  {
    var s := ("[" + inner + "]") + rest;
    assert SkipBlanks(s) == s;
    assert s[1..] == inner + ("]" + rest);
  }

  lemma ReadStringText(text: string, rest: string)
    ensures ReadValue(QuoteString(text) + rest) == Success((Str(text), rest))
  {
    QuotedStringRoundTrip(text, rest);
    assert SkipBlanks(QuoteString(text) + rest) == QuoteString(text) + rest;
  }

  lemma ReadBareText(v: Value, rest: string)
    requires v.Bool? || v.Int?
    requires rest != [] ==> !IsTokenChar(rest[0])
    ensures ReadValue(FormatValue(v).value + rest) == Success((v, rest))
  {
    var s := FormatValue(v).value;
    BareRoundTrip(v, rest);
    FormatStarts(v);
    assert SkipBlanks(s + rest) == s + rest;
  }

  lemma {:induction false} ValueRoundTrip(v: Value, rest: string)
    requires Printable(v)
    requires rest != [] ==> !IsTokenChar(rest[0])
    ensures ReadValue(FormatValue(v).value + rest) == Success((v, rest))
    decreases v, 1
  {
    match v {
      case Str(text) =>
        ReadStringText(text, rest);
      case Arr(items) =>
        ItemsRoundTrip(v, 0, rest);
        assert items[0..] == items && items[..0] == [];
        ReadArrayText(Join(FormatItems(items).value, ", "), rest);
      case _ =>
        ReadBareText(v, rest);
    }
  }

  /** The elements from `i` on, with the earlier ones already read. */
  lemma {:induction false} ItemsRoundTrip(v: Value, i: nat, rest: string)
    requires v.Arr? && Printable(v) && i <= |v.items|
    ensures ReadItems(Join(FormatItems(v.items[i..]).value, ", ") + ("]" + rest), v.items[..i]) == Success((v, rest))
    decreases v, 0, |v.items| - i
  {
    var close := "]" + rest;
    if i < |v.items| {
      var first, behind := FormatValue(v.items[i]).value, FormatItems(v.items[i + 1..]).value;
      assert v.items[..i] + [v.items[i]] == v.items[..i + 1];
      FormatStarts(v.items[i]);
      if i + 1 == |v.items| {
        assert v.items[..i + 1] == v.items;
        assert Join([first] + behind, ", ") == first;
        ValueRoundTrip(v.items[i], close);
      } else {
        var more := Join(behind, ", ") + close;
        ItemsRoundTrip(v, i + 1, rest);
        ValueRoundTrip(v.items[i], ", " + more);
        JoinFirst(first, behind, ", ", close);
        ReadItemBeforeComma(first, more, v.items[i], v.items[..i]);
      }
    } else {
      assert v.items[..i] == v.items;
      assert [] + close == close;
    }
  }

  lemma JoinFirst(first: string, behind: seq<string>, separator: string, close: string)
    requires behind != []
    ensures Join([first] + behind, separator) + close == first + (separator + (Join(behind, separator) + close))
  {
  }

  lemma ReadItemBeforeComma(first: string, more: string, item: Value, items: seq<Value>)
    requires Solid(first) && first[0] != ']'
    requires ReadValue(first + (", " + more)) == Success((item, ", " + more))
    ensures ReadItems(first + (", " + more), items) == ReadItems(more, items + [item])
  {
    SolidStart(first, ", " + more);
    ReadItemThenComma(first + (", " + more), more, item, items);
  }

  lemma SolidStart(first: string, behind: string)
    requires Solid(first)
    ensures (first + behind)[0] == first[0] && first[0] != ' ' && first[0] != '\t'
  {
  }

  lemma BlankBeforeItems(s: string, items: seq<Value>)
    ensures ReadItems(" " + s, items) == ReadItems(s, items)
  {
    assert (" " + s)[1..] == s;
    assert SkipBlanks(" " + s) == SkipBlanks(s);
  }

  lemma ReadItemThenComma(s: string, more: string, item: Value, items: seq<Value>)
    requires s != [] && s[0] != ' ' && s[0] != '\t' && s[0] != ']'
    requires ReadValue(s) == Success((item, ", " + more))
    ensures ReadItems(s, items) == ReadItems(more, items + [item])
  {
    var behind := ", " + more;
    assert SkipBlanks(s) == s && SkipBlanks(behind) == behind && behind[1..] == " " + more;
    BlankBeforeItems(more, items + [item]);
  }

  lemma ParsedValueRoundTrip(v: Value)
    requires Printable(v)
    ensures ParseValue(FormatValue(v).value) == Success(v)
  {
    ValueRoundTrip(v, []);
    assert FormatValue(v).value + [] == FormatValue(v).value;
  }
}
