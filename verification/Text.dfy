/** Characters, digits, positions and blanks in text. */
module Text {
  import opened Wrappers

  // ---- character classes ----------------------------------------------------------------------------------

  /** The Unicode White_Space property, which trimming uses. */
  predicate IsWhitespace(ch: char) {
    || '\t' <= ch <= '\r'
    || ch in {' ', '\U{85}', '\U{A0}', '\U{1680}', '\U{2028}', '\U{2029}', '\U{202F}', '\U{205F}', '\U{3000}'}
    || '\U{2000}' <= ch <= '\U{200A}'
  }

  predicate IsAsciiWhitespace(ch: char) {
    ch in {' ', '\t', '\n', '\U{0C}', '\r'}
  }

  predicate IsAsciiDigit(ch: char) {
    '0' <= ch <= '9'
  }

  predicate IsAsciiAlphanumeric(ch: char) {
    IsAsciiDigit(ch) || 'a' <= ch <= 'z' || 'A' <= ch <= 'Z'
  }

  // ---- digits ---------------------------------------------------------------------------------------------

  function DigitChar(d: nat): (ch: char)
    requires d < 10
    ensures IsAsciiDigit(ch)
  {
    ('0' as int + d) as char
  }

  function DigitValue(ch: char): (d: nat)
    requires IsAsciiDigit(ch)
    ensures d < 10
  {
    ch as int - '0' as int
  }

  function Decimal(n: nat): (s: string)
    ensures s != [] && forall i :: 0 <= i < |s| ==> IsAsciiDigit(s[i])
  {
    if n < 10 then [DigitChar(n)] else Decimal(n / 10) + [DigitChar(n % 10)]
  }

  function DigitsValue(s: string): (n: nat)
    requires forall i :: 0 <= i < |s| ==> IsAsciiDigit(s[i])
  {
    if s == [] then 0 else DigitsValue(s[..|s| - 1]) * 10 + DigitValue(s[|s| - 1])
  }

  lemma {:induction false} DecimalRoundTrip(n: nat)
    ensures DigitsValue(Decimal(n)) == n
  {
    if n >= 10 {
      var s := Decimal(n);
      assert s[..|s| - 1] == Decimal(n / 10);
      DecimalRoundTrip(n / 10);
    } else {
      assert Decimal(n)[..0] == [];
    }
  }

  function HexDigit(ch: char): Option<nat> {
    if IsAsciiDigit(ch) then Some(ch as int - '0' as int)
    else if 'a' <= ch <= 'f' then Some(ch as int - 'a' as int + 10)
    else if 'A' <= ch <= 'F' then Some(ch as int - 'A' as int + 10)
    else None
  }

  // ---- positions ------------------------------------------------------------------------------------------

  /** The first position of a character, or the length. */
  function IndexOf(s: string, ch: char): (n: nat)
    ensures n <= |s|
    ensures forall i :: 0 <= i < n ==> s[i] != ch
    ensures n < |s| ==> s[n] == ch
    ensures n < |s| <==> ch in s
  {
    if s == [] || s[0] == ch then 0 else 1 + IndexOf(s[1..], ch)
  }

  lemma {:induction false} IndexOfConcat(a: string, b: string, ch: char)
    ensures IndexOf(a + b, ch) == if ch in a then IndexOf(a, ch) else |a| + IndexOf(b, ch)
  {
    if a == [] {
      assert a + b == b;
    } else if a[0] != ch {
      assert (a + b)[1..] == a[1..] + b;
      IndexOfConcat(a[1..], b, ch);
    }
  }

  lemma LineEndsAt(line: string, rest: string)
    requires '\n' !in line
    ensures var text := line + "\n" + rest;
            '\n' in text && IndexOf(text, '\n') == |line| && text[..|line|] == line && text[|line| + 1..] == rest
  {
    ConcatAssociates(line, "\n", rest);
    IndexOfConcat(line, "\n" + rest, '\n');
    assert ("\n" + rest)[0] == '\n';
  }

  lemma CutPrefix(a: string, b: string, n: nat)
    requires n < |a|
    ensures (a + b)[..n] == a[..n] && (a + b)[n + 1..] == a[n + 1..] + b
  {
  }

  function Join(parts: seq<string>, separator: string): string {
    if parts == [] then []
    else if |parts| == 1 then parts[0]
    else parts[0] + separator + Join(parts[1..], separator)
  }

  // ---- trimming -------------------------------------------------------------------------------------------

  function TrimStart(s: string): string {
    if s != [] && IsWhitespace(s[0]) then TrimStart(s[1..]) else s
  }

  function TrimEnd(s: string): string {
    if s != [] && IsWhitespace(s[|s| - 1]) then TrimEnd(s[..|s| - 1]) else s
  }

  function Trim(s: string): string {
    TrimEnd(TrimStart(s))
  }

  /** Begins and ends with a visible character. */
  predicate Solid(s: string) {
    s != [] && !IsWhitespace(s[0]) && !IsWhitespace(s[|s| - 1])
  }
}
