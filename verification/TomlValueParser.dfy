/** The cursor that reads one value, and the loops that write one: each agrees with its specification in TomlValue. */
module TomlValueParser {
  import opened Json
  import opened Text
  import opened TomlText
  import opened TomlValue
  import opened Wrappers

  /** Cursor over the text of one value. */
  class Cursor {
    const input: string
    var pos: nat

    constructor (input: string)
      ensures this.input == input && Valid() && Rest() == input
    {
      this.input := input;
      pos := 0;
    }

    ghost predicate Valid()
      reads this
    {
      pos <= |input|
    }

    /** The text that is still to be read. */
    ghost function Rest(): string
      requires Valid()
      reads this
    {
      input[pos..]
    }

    function Peek(): (ch: Option<char>)
      requires Valid()
      reads this
      ensures ch == if Rest() == [] then None else Some(Rest()[0])
    {
      if pos < |input| then Some(input[pos]) else None
    }

    method Bump() returns (ch: Option<char>)
      requires Valid()
      modifies this
      ensures Valid() && pos == old(pos) + if ch.Some? then 1 else 0
      ensures ch == if old(Rest()) == [] then None else Some(old(Rest())[0])
      ensures Rest() == if old(Rest()) == [] then [] else old(Rest())[1..]
    {
      ch := Peek();
      if ch.Some? {
        pos := pos + 1;
      }
    }

    method SkipWhitespace()
      requires Valid()
      modifies this
      ensures Valid() && Rest() == SkipBlanks(old(Rest())) && pos >= old(pos)
    {
      while Peek() == Some(' ') || Peek() == Some('\t')
        invariant Valid() && pos >= old(pos)
        invariant SkipBlanks(Rest()) == SkipBlanks(old(Rest()))
        decreases |input| - pos
      {
        assert Rest()[1..] == input[pos + 1..];
        pos := pos + 1;
      }
    }

    /** The outcome and the new cursor are those of a reading function. */
    ghost predicate Reads<T>(spec: Read<T>, r: Result<T, TomlError>)
      requires Valid()
      reads this
    {
      match spec
      case Success(p) => r == Success(p.0) && Rest() == p.1
      case Failure(e) => r == Failure(e)
    }

    method ParseValue() returns (r: Result<Value, TomlError>)
      requires Valid()
      modifies this
      ensures Valid() && Reads(ReadValue(old(Rest())), r)
      decreases |input| - pos, 1
    {
      SkipWhitespace();
      match Peek()
      case None => r := Failure(ExpectedValue);
      case Some(ch) =>
        if ch == '\"' {
          var text := ParseBasicString();
          r := if text.Success? then Success(Str(text.value)) else Failure(text.error);
        } else if ch == '\'' {
          var text := ParseLiteralString();
          r := if text.Success? then Success(Str(text.value)) else Failure(text.error);
        } else if ch == '[' {
          r := ParseArray();
        } else if ch == '{' {
          r := Failure(InlineTable);
        } else {
          r := ParseBareValue();
        }
    }

    method ParseBasicString() returns (r: Result<string, TomlError>)
      requires Valid() && Rest() != []
      modifies this
      ensures Valid() && Reads(BasicString(old(Rest())[1..], []), r)
    {
      var opening := Bump();
      var out: string := [];
      while true
        invariant Valid()
        invariant BasicString(Rest(), out) == BasicString(old(Rest())[1..], [])
        decreases |input| - pos
      {
        var ch := Bump();
        match ch
        case None => return Failure(UnterminatedString);
        case Some(c) =>
          if c == '\"' {
            return Success(out);
          } else if c == '\\' {
            var e :- ParseEscape();
            out := out + [e];
          } else {
            out := out + [c];
          }
      }
    }

    method ParseEscape() returns (r: Result<char, TomlError>)
      requires Valid()
      modifies this
      ensures Valid() && Reads(EscapeSequence(old(Rest())), r)
      ensures pos >= old(pos)
    {
      var marker := Bump();
      match marker
      case None => return Failure(UnterminatedString);
      case Some('n') => return Success('\n');
      case Some('t') => return Success('\t');
      case Some('r') => return Success('\r');
      case Some('\"') => return Success('\"');
      case Some('\\') => return Success('\\');
      case Some('b') => return Success('\U{8}');
      case Some('f') => return Success('\U{C}');
      case Some(c) =>
        if c != 'u' && c != 'U' {
          return Failure(UnsupportedEscape);
        }
        var code :- ParseHex(if c == 'u' then 4 else 8);
        if !IsScalar(code) {
          return Failure(BadScalar);
        }
        r := Success(code as char);
    }

    method ParseHex(digits: nat) returns (r: Result<nat, TomlError>)
      requires Valid()
      modifies this
      ensures Valid() && Reads(HexCode(old(Rest()), digits, 0), r)
      ensures pos >= old(pos)
    {
      var code: nat := 0;
      for read := 0 to digits
        invariant Valid() && pos >= old(pos)
        invariant HexCode(Rest(), digits - read, code) == HexCode(old(Rest()), digits, 0)
      {
        var next := Bump();
        if next.None? {
          return Failure(UnterminatedEscape);
        }
        match HexDigit(next.value)
        case None => return Failure(BadEscapeDigit);
        case Some(digit) => code := code * 16 + digit;
      }
      r := Success(code);
    }

    method ParseLiteralString() returns (r: Result<string, TomlError>)
      requires Valid() && Rest() != []
      modifies this
      ensures Valid() && Reads(LiteralString(old(Rest())[1..]), r)
    {
      var opening := Bump();
      var start := pos;
      ghost var body := Rest();
      while true
        invariant Valid() && start <= pos
        invariant '\'' !in input[start..pos]
        decreases |input| - pos
      {
        LiteralAt(body, input, start, pos);
        var ch := Bump();
        if ch.None? {
          return Failure(UnterminatedString);
        }
        if ch.value == '\'' {
          return Success(input[start..pos - 1]);
        }
      }
    }

    method ParseArray() returns (r: Result<Value, TomlError>)
      requires Valid() && Rest() != []
      modifies this
      ensures Valid() && Reads(ReadItems(old(Rest())[1..], []), r)
      decreases |input| - pos, 0
    {
      var opening := Bump();
      var items: seq<Value> := [];
      while true
        invariant Valid() && pos > old(pos)
        invariant ReadItems(Rest(), items) == ReadItems(old(Rest())[1..], [])
        decreases |input| - pos
      {
        ghost var start := pos;
        SkipWhitespace();
        match Peek()
        case None => return Failure(UnterminatedArray);
        case Some(ch) =>
          if ch == ']' {
            var closing := Bump();
            return Success(Arr(items));
          }
          ghost var here := Rest();
          var item :- ParseValue();
          assert |Rest()| < |here|;
          items := items + [item];
          SkipWhitespace();
          var separator := Bump();
          match separator
          case None => return Failure(UnterminatedArray);
          case Some(c) =>
            if c == ']' {
              return Success(Arr(items));
            } else if c != ',' {
              return Failure(ExpectedCommaOrBracket);
            }
      }
    }

    method ScanToken() returns (token: string)
      requires Valid()
      modifies this
      ensures Valid()
      ensures var n := TokenLength(old(Rest())); token == old(Rest())[..n] && Rest() == old(Rest())[n..]
    {
      var start := pos;
      while pos < |input| && IsTokenChar(input[pos])
        invariant Valid() && start <= pos
        invariant TokenLength(old(Rest())) == pos - start + TokenLength(Rest())
      {
        assert Rest()[1..] == input[pos + 1..];
        pos := pos + 1;
      }
      token := input[start..pos];
    }

    method ParseBareValue() returns (r: Result<Value, TomlError>)
      requires Valid()
      modifies this
      ensures Valid() && Reads(BareValue(old(Rest())), r)
    {
      var token := ScanToken();
      if token == "true" {
        return Success(Bool(true));
      } else if token == "false" {
        return Success(Bool(false));
      } else if token == [] {
        return Failure(ExpectedValue);
      }
      match ParseI64(WithoutUnderscores(token))
      case Some(i) => r := Success(Int(i));
      case None => r := Failure(UnsupportedValue);
    }
  }

  /** With no quote before `pos`, what is at `pos` decides. */
  lemma LiteralAt(body: string, input: string, start: nat, pos: nat)
    requires start <= pos <= |input| && body == input[start..] && '\'' !in input[start..pos]
    ensures pos == |input| ==> LiteralString(body) == Failure(UnterminatedString)
    ensures pos < |input| && input[pos] == '\'' ==> LiteralString(body) == Success((input[start..pos], input[pos + 1..]))
    ensures pos < |input| && input[pos] != '\'' ==> '\'' !in input[start..pos + 1]
  {
    var seen := input[start..pos];
    assert body[..|seen|] == seen;
    assert forall i :: 0 <= i < |seen| ==> seen[i] == body[i];
    if pos < |input| {
      assert body[pos - start] == input[pos] && body[pos - start + 1..] == input[pos + 1..];
      assert input[start..pos + 1] == input[start..pos] + [input[pos]];
    }
  }

  /** Parses the text behind the equals sign. */
  method ParseTomlValue(text: string) returns (r: Result<Value, TomlError>)
    ensures r == ParseValue(text)
  {
    var parser := new Cursor(text);
    var value :- parser.ParseValue();
    parser.SkipWhitespace();
    if parser.pos != |text| {
      return Failure(TrailingText);
    }
    r := Success(value);
  }

  /** Quotes a string as a basic string. */
  method QuoteTomlString(text: string) returns (out: string)
    ensures out == QuoteString(text)
  {
    out := "\"";
    for i := 0 to |text|
      invariant out == "\"" + Escape(text[..i])
    {
      EscapeStep(text, i);
      out := out + EscapeChar(text[i]);
    }
    assert text[..|text|] == text;
    out := out + "\"";
  }

  lemma {:induction false} EscapeLast(text: string)
    requires text != []
    ensures Escape(text) == Escape(text[..|text| - 1]) + EscapeChar(text[|text| - 1])
  {
    if |text| > 1 {
      EscapeLast(text[1..]);
      assert text[1..][..|text| - 2] == text[..|text| - 1][1..];
    }
  }

  lemma EscapeStep(text: string, i: nat)
    requires i < |text|
    ensures "\"" + Escape(text[..i]) + EscapeChar(text[i]) == "\"" + Escape(text[..i + 1])
  {
    EscapeLast(text[..i + 1]);
    assert text[..i + 1][..i] == text[..i];
  }

  /** Renders one value; arrays are rendered element by element. */
  method FormatTomlValue(value: Value) returns (r: Result<string, FormatError>)
    ensures r == FormatValue(value)
    decreases value
  {
    match value
    case Null => r := Failure(NoNull);
    case Bool(flag) => r := Success(if flag then "true" else "false");
    case Int(n) => r := Success(IntText(n));
    case Str(text) =>
      var quoted := QuoteTomlString(text);
      r := Success(quoted);
    case Arr(items) =>
      var rendered: seq<string> := [];
      assert items[0..] == items;
      PrefixedByNothing(FormatItems(items));
      for i := 0 to |items|
        invariant FormatItems(items) == Prefixed(rendered, FormatItems(items[i..]))
      {
        ItemFails(rendered, items, i);
        if items[i].Obj? {
          return Failure(ArrayOfTables);
        }
        var text :- FormatTomlValue(items[i]);
        ItemWritten(rendered, items, i, text);
        rendered := rendered + [text];
      }
      assert rendered + [] == rendered;
      r := Success("[" + Join(rendered, ", ") + "]");
    case Obj(_) => r := Failure(NestedTable);
  }

  ghost function Prefixed(before: seq<string>, r: Result<seq<string>, FormatError>): Result<seq<string>, FormatError> {
    match r
    case Success(texts) => Success(before + texts)
    case Failure(e) => Failure(e)
  }

  lemma PrefixedByNothing(r: Result<seq<string>, FormatError>)
    ensures Prefixed([], r) == r
  {
    if r.Success? {
      assert [] + r.value == r.value;
    }
  }

  lemma ItemFails(before: seq<string>, items: seq<Value>, i: nat)
    requires i < |items|
    ensures items[i].Obj? ==> Prefixed(before, FormatItems(items[i..])) == Failure(ArrayOfTables)
    ensures !items[i].Obj? && FormatValue(items[i]).Failure? ==>
              Prefixed(before, FormatItems(items[i..])) == Failure(FormatValue(items[i]).error)
  {
  }

  lemma ItemWritten(before: seq<string>, items: seq<Value>, i: nat, text: string)
    requires i < |items| && !items[i].Obj? && FormatValue(items[i]) == Success(text)
    ensures Prefixed(before, FormatItems(items[i..])) == Prefixed(before + [text], FormatItems(items[i + 1..]))
  {
    assert items[i..][1..] == items[i + 1..];
    var rest := FormatItems(items[i + 1..]);
    if rest.Success? {
      ConcatAssociates(before, [text], rest.value);
    }
  }
}
