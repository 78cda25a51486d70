/** Characters, lines, comments and keys of the supported TOML subset.
    Indices count characters where the source counts bytes: it only ever cuts next to ASCII characters. */
module TomlText {
  import opened Text
  import opened Wrappers

  datatype TomlError =
    | ArraysOfTables
    | UnterminatedHeader
    | ExpectedKeyValue
    | UnterminatedKey
    | EmptySegment
    | UnexpectedInKey
    | EmptyKey
    | NotATable(part: string)
    | DuplicateKey(part: string)
    | ExpectedValue
    | InlineTable
    | UnterminatedString
    | UnterminatedEscape
    | BadEscapeDigit
    | BadScalar
    | UnsupportedEscape
    | UnterminatedArray
    | ExpectedCommaOrBracket
    | UnsupportedValue
    | TrailingText

  // ---- lines ----------------------------------------------------------------------------------------------

  function DropCarriageReturn(s: string): string {
    if s != [] && s[|s| - 1] == '\r' then s[..|s| - 1] else s
  }

  /** A final line without a line feed is a line, and keeps a trailing carriage return. */
  function Lines(text: string): seq<string> {
    if text == [] then
      []
    else
      var n := IndexOf(text, '\n');
      if n == |text| then [text] else [DropCarriageReturn(text[..n])] + Lines(text[n + 1..])
  }

  function Unlines(lines: seq<string>): string {
    if lines == [] then [] else lines[0] + "\n" + Unlines(lines[1..])
  }

  predicate SingleLine(s: string) {
    '\n' !in s && (s != [] ==> s[|s| - 1] != '\r')
  }

  lemma FirstOfLines(text: string, first: string, rest: string)
    requires '\n' in text && var n := IndexOf(text, '\n'); DropCarriageReturn(text[..n]) == first && text[n + 1..] == rest
    ensures Lines(text) == [first] + Lines(rest)
  {
  }

  lemma LinesOfFirst(line: string, rest: string)
    requires SingleLine(line)
    ensures Lines(line + "\n" + rest) == [line] + Lines(rest)
  {
    var text := line + "\n" + rest;
    LineEndsAt(line, rest);
    FirstOfLines(text, line, rest);
  }

  lemma {:induction false} LinesUndoesUnlines(lines: seq<string>)
    requires forall i :: 0 <= i < |lines| ==> SingleLine(lines[i])
    ensures Lines(Unlines(lines)) == lines
  {
    if lines != [] {
      assert SingleLine(lines[0]);
      LinesUndoesUnlines(lines[1..]);
      LinesOfFirst(lines[0], Unlines(lines[1..]));
    }
  }

  lemma {:induction false} UnlinesConcat(a: seq<string>, b: seq<string>)
    ensures Unlines(a + b) == Unlines(a) + Unlines(b)
  {
    if a == [] {
      assert a + b == b;
    } else {
      assert (a + b)[1..] == a[1..] + b;
      UnlinesConcat(a[1..], b);
    }
  }

  // ---- quote tracking -------------------------------------------------------------------------------------

  datatype Quote = Plain | Basic | Escaped | Literal

  function Step(q: Quote, ch: char): Quote {
    match q
    case Plain => if ch == '\"' then Basic else if ch == '\'' then Literal else Plain
    case Basic => if ch == '\\' then Escaped else if ch == '\"' then Plain else Basic
    case Escaped => Basic
    case Literal => if ch == '\'' then Plain else Literal
  }

  function After(q: Quote, s: string): Quote
    decreases s
  {
    if s == [] then q else After(Step(q, s[0]), s[1..])
  }

  lemma {:induction false} AfterConcat(q: Quote, a: string, b: string)
    ensures After(q, a + b) == After(After(q, a), b)
    decreases a
  {
    if a == [] {
      assert a + b == b;
    } else {
      assert (a + b)[1..] == a[1..] + b;
      AfterConcat(Step(q, a[0]), a[1..], b);
    }
  }

  /** Position `i` holds `needle` outside every quoted string. */
  ghost predicate UnquotedAt(q: Quote, s: string, needle: char, i: nat) {
    i < |s| && s[i] == needle && needle != '\"' && needle != '\'' && After(q, s[..i]).Plain?
  }

  /** `needle` never occurs outside quotes in `s`. */
  ghost predicate Absent(q: Quote, s: string, needle: char) {
    forall i: nat :: i < |s| ==> !UnquotedAt(q, s, needle, i)
  }

  function FirstUnquoted(q: Quote, s: string, needle: char): (r: Option<nat>)
    ensures r.Some? ==> r.value < |s|
    decreases s
  {
    if s == [] then
      None
    else if q.Plain? && s[0] != '\"' && s[0] != '\'' && s[0] == needle then
      Some(0)
    else
      match FirstUnquoted(Step(q, s[0]), s[1..], needle)
      case Some(n) => Some(n + 1)
      case None => None
  }

  lemma UnquotedShift(q: Quote, s: string, needle: char, i: nat)
    requires i + 1 < |s|
    ensures UnquotedAt(q, s, needle, i + 1) <==> UnquotedAt(Step(q, s[0]), s[1..], needle, i)
  {
    assert s[..i + 1][0] == s[0];
    assert s[..i + 1][1..] == s[1..][..i];
  }

  /** The scan finds exactly the first occurrence outside quotes. */
  lemma {:induction false} FirstUnquotedCorrect(q: Quote, s: string, needle: char)
    ensures FirstUnquoted(q, s, needle).None? ==> Absent(q, s, needle)
    ensures FirstUnquoted(q, s, needle).Some? ==>
              && UnquotedAt(q, s, needle, FirstUnquoted(q, s, needle).value)
              && forall j: nat :: j < FirstUnquoted(q, s, needle).value ==> !UnquotedAt(q, s, needle, j)
    decreases s
  {
    if s != [] {
      FirstUnquotedCorrect(Step(q, s[0]), s[1..], needle);
      forall j: nat | j + 1 < |s|
        ensures UnquotedAt(q, s, needle, j + 1) <==> UnquotedAt(Step(q, s[0]), s[1..], needle, j)
      {
        UnquotedShift(q, s, needle, j);
      }
      assert s[..0] == [];
      forall j: nat | 0 < j < |s|
        ensures UnquotedAt(q, s, needle, j) <==> UnquotedAt(Step(q, s[0]), s[1..], needle, j - 1)
      {
        UnquotedShift(q, s, needle, j - 1);
      }
    }
  }

  /** A needle that is absent from a prefix is found, if at all, behind it. */
  lemma {:induction false} FirstUnquotedSkips(q: Quote, a: string, b: string, needle: char)
    requires FirstUnquoted(q, a, needle).None?
    ensures FirstUnquoted(After(q, a), b, needle).None? ==> FirstUnquoted(q, a + b, needle).None?
    ensures FirstUnquoted(After(q, a), b, needle).Some? ==>
              FirstUnquoted(q, a + b, needle) == Some(|a| + FirstUnquoted(After(q, a), b, needle).value)
    decreases a
  {
    if a == [] {
      assert a + b == b;
    } else {
      assert (a + b)[1..] == a[1..] + b;
      FirstUnquotedSkips(Step(q, a[0]), a[1..], b, needle);
    }
  }

  /** The first occurrence of `needle` outside of quoted strings. */
  method FindUnquoted(text: string, needle: char) returns (at: Option<nat>)
    ensures at == FirstUnquoted(Plain, text, needle)
    ensures at.Some? ==> UnquotedAt(Plain, text, needle, at.value)
    ensures forall j: nat :: j < at.GetOr(|text|) ==> !UnquotedAt(Plain, text, needle, j)
  {
    FirstUnquotedCorrect(Plain, text, needle);
    var inBasic, inLiteral, escaped := false, false, false;
    var index := 0;
    while index < |text|
      invariant 0 <= index <= |text|
      invariant !(inBasic && inLiteral) && (escaped ==> inBasic)
      invariant FirstUnquoted(Plain, text, needle) ==
                match FirstUnquoted(Flags(inBasic, inLiteral, escaped), text[index..], needle)
                case Some(n) => Some(index + n)
                case None => None
    {
      var ch := text[index];
      assert text[index..][1..] == text[index + 1..];
      if inBasic {
        if escaped {
          escaped := false;
        } else if ch == '\\' {
          escaped := true;
        } else if ch == '\"' {
          inBasic := false;
        }
      } else if inLiteral {
        if ch == '\'' {
          inLiteral := false;
        }
      } else if ch == '\"' {
        inBasic := true;
      } else if ch == '\'' {
        inLiteral := true;
      } else if ch == needle {
        return Some(index);
      }
      index := index + 1;
    }
    at := None;
  }

  function Flags(inBasic: bool, inLiteral: bool, escaped: bool): Quote {
    if inBasic then (if escaped then Escaped else Basic) else if inLiteral then Literal else Plain
  }

  function StripComment(line: string): string {
    match FirstUnquoted(Plain, line, '#')
    case Some(n) => line[..n]
    case None => line
  }

  /** Removes a `#` comment, ignoring `#` inside quoted strings. */
  method StripTomlComment(line: string) returns (kept: string)
    ensures kept == StripComment(line)
    ensures kept <= line && Absent(Plain, kept, '#')
    ensures kept != line ==> UnquotedAt(Plain, line, '#', |kept|)
  {
    var at := FindUnquoted(line, '#');
    kept := match at case Some(n) => line[..n] case None => line;
    forall i: nat | i < |kept|
      ensures !UnquotedAt(Plain, kept, '#', i)
    {
      assert kept[..i] == line[..i];
      assert !UnquotedAt(Plain, line, '#', i);
    }
  }

  // ---- keys -----------------------------------------------------------------------------------------------

  function SkipAsciiWhitespace(s: string): (r: string)
    ensures |r| <= |s|
    ensures r != [] ==> !IsAsciiWhitespace(r[0])
  {
    if s != [] && IsAsciiWhitespace(s[0]) then SkipAsciiWhitespace(s[1..]) else s
  }

  /** How many characters stand before the closing quote; `|s|` or more when there is none. Nothing is
      unescaped: a backslash in a double-quoted key only keeps the character after it from closing the key. */
  function QuotedLength(s: string, quote: char): (n: nat)
    ensures n < |s| ==> s[n] == quote
  {
    if s == [] || s[0] == quote then
      0
    else if quote == '\"' && s[0] == '\\' then
      if |s| == 1 then 2 else 2 + QuotedLength(s[2..], quote)
    else
      1 + QuotedLength(s[1..], quote)
  }

  function BareLength(s: string): (n: nat)
    ensures n <= |s|
  {
    if s == [] || IsAsciiWhitespace(s[0]) || s[0] == '.' then 0 else 1 + BareLength(s[1..])
  }

  /** One key segment at the front of non-blank text. */
  function Segment(s: string): (r: Result<(string, string), TomlError>)
    requires s != []
    ensures r.Success? ==> |r.value.1| < |s| && r.value.0 != []
  {
    if s[0] == '\"' || s[0] == '\'' then
      var n := QuotedLength(s[1..], s[0]);
      if n + 1 >= |s| then
        Failure(UnterminatedKey)
      else if n == 0 then
        Failure(EmptySegment)
      else
        Success((s[1..n + 1], s[n + 2..]))
    else
      var n := BareLength(s);
      if n == 0 then Failure(EmptySegment) else Success((s[..n], s[n..]))
  }

  function KeySegments(s: string, parts: seq<string>): (r: Result<seq<string>, TomlError>)
    ensures r.Success? ==> r.value != [] && ([] !in parts ==> [] !in r.value)
    decreases |s|, 1
  {
    var t := SkipAsciiWhitespace(s);
    if t == [] then
      if parts == [] then Failure(EmptyKey) else Success(parts)
    else
      var p :- Segment(t);
      KeyRest(p.1, parts + [p.0])
  }

  function KeyRest(s: string, parts: seq<string>): (r: Result<seq<string>, TomlError>)
    ensures r.Success? ==> r.value != [] && ([] !in parts ==> [] !in r.value)
    decreases |s|, 0
  {
    var t := SkipAsciiWhitespace(s);
    if t == [] then
      if parts == [] then Failure(EmptyKey) else Success(parts)
    else if t[0] != '.' then
      Failure(UnexpectedInKey)
    else
      KeySegments(t[1..], parts)
  }

  function ParseKey(text: string): (r: Result<seq<string>, TomlError>)
    ensures r.Success? ==> r.value != [] && [] !in r.value
  {
    KeySegments(text, [])
  }

  /** Splits a dotted, optionally quoted key into its segments. */
  method ParseTomlKey(text: string) returns (r: Result<seq<string>, TomlError>)
    ensures r == ParseKey(text)
  {
    var parts: seq<string> := [];
    var index := 0;
    assert text[0..] == text;
    while true
      invariant 0 <= index <= |text|
      invariant KeySegments(text[index..], parts) == ParseKey(text)
      decreases |text| - index
    {
      index := SkipSpaces(text, index);
      if index >= |text| {
        break;
      }
      var segment :- ReadSegment(text, index);
      index := segment.1;
      parts := parts + [segment.0];
      index := SkipSpaces(text, index);
      if index >= |text| {
        break;
      }
      if text[index] != '.' {
        return Failure(UnexpectedInKey);
      }
      assert text[index..][1..] == text[index + 1..];
      index := index + 1;
    }
    if parts == [] {
      return Failure(EmptyKey);
    }
    r := Success(parts);
  }

  /** One key segment and the position behind it. */
  method ReadSegment(text: string, start: nat) returns (r: Result<(string, nat), TomlError>)
    requires start < |text|
    ensures r.Success? <==> Segment(text[start..]).Success?
    ensures r.Success? ==> start < r.value.1 <= |text| && Segment(text[start..]).value == (r.value.0, text[r.value.1..])
    ensures r.Failure? ==> r.error == Segment(text[start..]).error
  {
    ghost var here := text[start..];
    if text[start] == '\"' || text[start] == '\'' {
      var end := CloseQuote(text, start);
      assert here[1..] == text[start + 1..];
      if end >= |text| {
        return Failure(UnterminatedKey);
      }
      if start + 1 == end {
        return Failure(EmptySegment);
      }
      assert here[1..end - start] == text[start + 1..end] && here[end - start + 1..] == text[end + 1..];
      return Success((text[start + 1..end], end + 1));
    }
    var end := EndOfBare(text, start);
    if start == end {
      return Failure(EmptySegment);
    }
    r := Success((text[start..end], end));
  }

  method SkipSpaces(text: string, start: nat) returns (index: nat)
    requires start <= |text|
    ensures start <= index <= |text|
    ensures text[index..] == SkipAsciiWhitespace(text[start..])
  {
    index := start;
    while index < |text| && IsAsciiWhitespace(text[index])
      invariant start <= index <= |text|
      invariant SkipAsciiWhitespace(text[index..]) == SkipAsciiWhitespace(text[start..])
    {
      assert text[index..][1..] == text[index + 1..];
      index := index + 1;
    }
  }

  /** The position of the quote that closes the one at `start`, or past the end. */
  method CloseQuote(text: string, start: nat) returns (end: nat)
    requires start < |text|
    ensures end == QuoteAt(text, text[start], start + 1)
  {
    var quote := text[start];
    end := start + 1;
    ghost var closing := QuoteAt(text, quote, end);
    while end < |text| && text[end] != quote
      invariant start + 1 <= end <= |text| + 1 && QuoteAt(text, quote, end) == closing
    {
      ghost var next := if quote == '\"' && text[end] == '\\' then end + 2 else end + 1;
      QuotedStep(text, quote, end, next);
      if quote == '\"' && text[end] == '\\' {
        end := end + 1;
      }
      end := end + 1;
    }
    QuotedEnd(text, quote, end);
  }

  lemma QuotedEnd(text: string, quote: char, at: nat)
    requires at < |text| ==> text[at] == quote
    ensures QuoteAt(text, quote, at) == at
  {
  }

  /** Where the closing quote stands, or the end or behind it when there is none. */
  ghost function QuoteAt(text: string, quote: char, from: nat): nat {
    from + if from <= |text| then QuotedLength(text[from..], quote) else 0
  }

  lemma QuotedStep(text: string, quote: char, at: nat, next: nat)
    requires at < |text| && text[at] != quote && next == if quote == '\"' && text[at] == '\\' then at + 2 else at + 1
    ensures QuoteAt(text, quote, at) == QuoteAt(text, quote, next)
  {
    var rest := text[at..];
    assert rest[1..] == text[at + 1..];
    assert |rest| >= 2 ==> rest[2..] == text[at + 2..];
  }

  method EndOfBare(text: string, start: nat) returns (end: nat)
    requires start < |text|
    ensures start <= end <= |text|
    ensures BareLength(text[start..]) == end - start
    ensures text[start..][..end - start] == text[start..end] && text[start..][end - start..] == text[end..]
  {
    end := start;
    while end < |text| && !IsAsciiWhitespace(text[end]) && text[end] != '.'
      invariant start <= end <= |text|
      invariant BareLength(text[start..]) == end - start + BareLength(text[end..])
    {
      assert text[end..][1..] == text[end + 1..];
      end := end + 1;
    }
  }
}
