/** Dotted keys as they can be written, and that the reader accepts exactly those. */
module TomlKeys {
  import opened Json
  import opened Text
  import opened TomlText
  import opened Wrappers

  /** One part of a dotted key: bare or in quotes, with blanks around it. */
  datatype KeyPart =
    | BarePart(before: string, text: string, after: string)
    | QuotedPart(before: string, quote: char, text: string, after: string)

  predicate AllBlank(s: string) {
    forall i :: 0 <= i < |s| ==> IsAsciiWhitespace(s[i])
  }

  /** Nothing in `text` closes the quotes: in double quotes a backslash covers the character behind it. */
  predicate StaysOpen(text: string, quote: char) {
    text == [] ||
    (text[0] != quote &&
     if quote == '\"' && text[0] == '\\' then |text| > 1 && StaysOpen(text[2..], quote) else StaysOpen(text[1..], quote))
  }

  predicate WellWritten(p: KeyPart) {
    && AllBlank(p.before) && AllBlank(p.after) && p.text != []
    && match p
       case BarePart(_, text, _) =>
         text[0] !in {'\"', '\''} && forall i :: 0 <= i < |text| ==> !IsAsciiWhitespace(text[i]) && text[i] != '.'
       case QuotedPart(_, quote, text, _) => quote in {'\"', '\''} && StaysOpen(text, quote)
  }

  function Body(p: KeyPart): string {
    match p
    case BarePart(_, text, _) => text
    case QuotedPart(_, quote, text, _) => [quote] + text + [quote]
  }

  function Written(p: KeyPart): string {
    p.before + (Body(p) + p.after)
  }

  function WrittenKey(parts: seq<KeyPart>): string {
    if parts == [] then []
    else if |parts| == 1 then Written(parts[0])
    else Written(parts[0]) + ("." + WrittenKey(parts[1..]))
  }

  function Texts(parts: seq<KeyPart>): Path {
    if parts == [] then [] else [parts[0].text] + Texts(parts[1..])
  }

  lemma {:induction false} BlanksAreSkipped(blanks: string, s: string)
    requires AllBlank(blanks)
    ensures SkipAsciiWhitespace(blanks + s) == SkipAsciiWhitespace(s)
    decreases blanks
  {
    if blanks == [] {
      assert blanks + s == s;
    } else {
      assert (blanks + s)[1..] == blanks[1..] + s;
      BlanksAreSkipped(blanks[1..], s);
    }
  }

  lemma {:induction false} OpenTextEnds(text: string, quote: char, rest: string)
    requires StaysOpen(text, quote)
    ensures QuotedLength(text + ([quote] + rest), quote) == |text|
    decreases |text|
  {
    var s := text + ([quote] + rest);
    if text == [] {
      assert s == [quote] + rest;
    } else if quote == '\"' && text[0] == '\\' {
      assert s[2..] == text[2..] + ([quote] + rest);
      OpenTextEnds(text[2..], quote, rest);
    } else {
      assert s[1..] == text[1..] + ([quote] + rest);
      OpenTextEnds(text[1..], quote, rest);
    }
  }

  lemma {:induction false} BareTextEnds(text: string, rest: string)
    requires forall i :: 0 <= i < |text| ==> !IsAsciiWhitespace(text[i]) && text[i] != '.'
    requires rest == [] || IsAsciiWhitespace(rest[0]) || rest[0] == '.'
    ensures BareLength(text + rest) == |text|
    decreases text
  {
    if text == [] {
      assert text + rest == rest;
    } else {
      assert (text + rest)[1..] == text[1..] + rest;
      BareTextEnds(text[1..], rest);
    }
  }

  lemma QuotedBody(quote: char, text: string, rest: string)
    ensures var s := [quote] + text + [quote] + rest;
            && s[0] == quote && s[1..] == text + ([quote] + rest)
            && s[1..|text| + 1] == text && s[|text| + 2..] == rest
  {
  }

  lemma BodyIsSegment(p: KeyPart, rest: string)
    requires WellWritten(p) && (rest == [] || IsAsciiWhitespace(rest[0]) || rest[0] == '.')
    ensures Segment(Body(p) + rest) == Success((p.text, rest))
  {
    match p
    case BarePart(_, text, _) =>
      BareTextEnds(text, rest);
      assert (text + rest)[..|text|] == text && (text + rest)[|text|..] == rest;
    case QuotedPart(_, quote, text, _) =>
      QuotedBody(quote, text, rest);
      OpenTextEnds(text, quote, rest);
  }

  lemma PartIsRead(p: KeyPart, rest: string, parts: Path)
    requires WellWritten(p) && (rest == [] || rest[0] == '.')
    ensures KeySegments(Written(p) + rest, parts) ==
            if rest == [] then Success(parts + [p.text]) else KeySegments(rest[1..], parts + [p.text])
  {
    var tail := p.after + rest;
    var body := Body(p) + tail;
    assert Written(p) + rest == p.before + body;
    BlanksAreSkipped(p.before, body);
    BodyIsSegment(p, tail);
    BodyStarts(p, tail);
    SegmentThenRest(p.before + body, body, p.text, tail, parts);
    BlanksAreSkipped(p.after, rest);
  }

  lemma BodyStarts(p: KeyPart, rest: string)
    requires WellWritten(p)
    ensures Body(p) + rest != [] && SkipAsciiWhitespace(Body(p) + rest) == Body(p) + rest
  {
  }

  lemma SegmentThenRest(s: string, body: string, text: string, tail: string, parts: Path)
    requires SkipAsciiWhitespace(s) == body != [] && Segment(body) == Success((text, tail))
    ensures KeySegments(s, parts) == KeyRest(tail, parts + [text])
  {
  }

  /** Nothing, or one more dot and blanks: the reader lets a key end in a dot. */
  predicate KeyTail(tail: string) {
    tail == [] || (tail[0] == '.' && AllBlank(tail[1..]))
  }

  lemma {:induction false} PartsAreRead(parts: seq<KeyPart>, tail: string, read: Path)
    requires parts != [] && KeyTail(tail) && forall i :: 0 <= i < |parts| ==> WellWritten(parts[i])
    ensures KeySegments(WrittenKey(parts) + tail, read) == Success(read + Texts(parts))
    decreases parts
  {
    var text := parts[0].text;
    if |parts| == 1 {
      PartIsRead(parts[0], tail, read);
      TailIsPassed(tail, read + [text]);
      assert Texts(parts) == [text];
    } else {
      InnerPartIsRead(parts, tail, read);
      PartsAreRead(parts[1..], tail, read + [text]);
      ConcatAssociates(read, [text], Texts(parts[1..]));
    }
  }

  lemma InnerPartIsRead(parts: seq<KeyPart>, tail: string, read: Path)
    requires |parts| > 1 && WellWritten(parts[0])
    ensures KeySegments(WrittenKey(parts) + tail, read) == KeySegments(WrittenKey(parts[1..]) + tail, read + [parts[0].text])
  {
    var more := WrittenKey(parts[1..]);
    var behind := "." + (more + tail);
    PartIsRead(parts[0], behind, read);
    assert behind[1..] == more + tail;
    ConcatAssociates(Written(parts[0]), "." + more, tail);
    ConcatAssociates(".", more, tail);
  }

  lemma TailIsPassed(tail: string, read: Path)
    requires KeyTail(tail) && read != []
    ensures tail != [] ==> KeySegments(tail[1..], read) == Success(read)
  {
    if tail != [] {
      BlanksAreSkipped(tail[1..], []);
      assert tail[1..] + [] == tail[1..];
    }
  }

  lemma {:induction false} BlanksInFront(s: string) returns (blanks: string)
    ensures AllBlank(blanks) && s == blanks + SkipAsciiWhitespace(s)
    decreases s
  {
    blanks := [];
    if s != [] && IsAsciiWhitespace(s[0]) {
      var more := BlanksInFront(s[1..]);
      blanks := [s[0]] + more;
    }
  }

  lemma {:induction false} QuotedTextStaysOpen(s: string, quote: char)
    requires QuotedLength(s, quote) < |s|
    ensures StaysOpen(s[..QuotedLength(s, quote)], quote)
    decreases |s|
  {
    var n := QuotedLength(s, quote);
    if n > 0 {
      if quote == '\"' && s[0] == '\\' {
        QuotedTextStaysOpen(s[2..], quote);
        assert s[..n][2..] == s[2..][..n - 2];
      } else {
        QuotedTextStaysOpen(s[1..], quote);
        assert s[..n][1..] == s[1..][..n - 1];
      }
    }
  }

  lemma {:induction false} BareTextIsPlain(s: string)
    ensures forall i :: 0 <= i < BareLength(s) ==> !IsAsciiWhitespace(s[i]) && s[i] != '.'
    decreases s
  {
    if BareLength(s) > 0 {
      BareTextIsPlain(s[1..]);
      assert forall i :: 0 < i < BareLength(s) ==> s[i] == s[1..][i - 1];
    }
  }

  lemma SegmentIsAPart(before: string, s: string) returns (p: KeyPart)
    requires AllBlank(before) && s != [] && !IsAsciiWhitespace(s[0]) && Segment(s).Success?
    ensures WellWritten(p) && p.before == before && p.after == []
    ensures p.text == Segment(s).value.0 && s == Body(p) + Segment(s).value.1
  {
    var text, rest := Segment(s).value.0, Segment(s).value.1;
    if s[0] == '\"' || s[0] == '\'' {
      var n := QuotedLength(s[1..], s[0]);
      QuotedTextStaysOpen(s[1..], s[0]);
      assert text == s[1..][..n];
      p := QuotedPart(before, s[0], text, []);
      QuotedWhole(s, text, rest);
    } else {
      BareTextIsPlain(s);
      assert forall i :: 0 <= i < |text| ==> text[i] == s[i];
      p := BarePart(before, text, []);
      assert s == text + rest;
    }
  }

  lemma QuotedWhole(s: string, text: string, rest: string)
    requires |s| == |text| + 2 + |rest| && s[|text| + 1] == s[0] && s[1..|text| + 1] == text && s[|text| + 2..] == rest
    ensures s == [s[0]] + text + [s[0]] + rest
  {
  }

  /** What is read as segments is parts joined with dots, and a tail; nothing but blanks is no further segment. */
  lemma {:induction false} SegmentsAreWritten(s: string, read: Path) returns (parts: seq<KeyPart>, tail: string)
    requires KeySegments(s, read).Success?
    ensures (forall i :: 0 <= i < |parts| ==> WellWritten(parts[i])) && KeySegments(s, read).value == read + Texts(parts)
    ensures if parts == [] then read != [] && AllBlank(s) else KeyTail(tail) && s == WrittenKey(parts) + tail
    decreases |s|
  {
    parts, tail := [], [];
    if SkipAsciiWhitespace(s) == [] {
      var blanks := BlanksInFront(s);
      assert read + [] == read && blanks + [] == blanks;
    } else {
      var part, behind := FirstPart(s);
      RestOfKey(s, part.text, behind, read);
      if behind == [] {
        parts := [part];
        assert Written(part) + [] == Written(part) && WrittenKey(parts) + [] == WrittenKey(parts);
      } else {
        var more, end := SegmentsAreWritten(behind[1..], read + [part.text]);
        parts, tail := PrependPart(part, more, end, s, behind);
        ConcatAssociates(read, [part.text], Texts(more));
      }
    }
  }

  lemma FirstPart(s: string) returns (part: KeyPart, behind: string)
    requires SkipAsciiWhitespace(s) != [] && Segment(SkipAsciiWhitespace(s)).Success?
    ensures WellWritten(part) && s == Written(part) + behind
    ensures var p := Segment(SkipAsciiWhitespace(s)).value; part.text == p.0 && behind == SkipAsciiWhitespace(p.1)
    ensures |behind| < |s|
  {
    var before := BlanksInFront(s);
    var t := SkipAsciiWhitespace(s);
    var p := SegmentIsAPart(before, t);
    var after := BlanksInFront(Segment(t).value.1);
    behind := SkipAsciiWhitespace(Segment(t).value.1);
    part := WithBlanksBehind(p, after);
    AroundPart(before, Body(p), after, behind);
  }

  lemma RestOfKey(s: string, text: string, behind: string, read: Path)
    requires SkipAsciiWhitespace(s) != [] && KeySegments(s, read).Success?
    requires Segment(SkipAsciiWhitespace(s)).Success? && Segment(SkipAsciiWhitespace(s)).value.0 == text
    requires behind == SkipAsciiWhitespace(Segment(SkipAsciiWhitespace(s)).value.1)
    ensures behind == [] ==> KeySegments(s, read).value == read + [text]
    ensures behind != [] ==> behind[0] == '.' && KeySegments(s, read) == KeySegments(behind[1..], read + [text])
  {
  }

  function WithBlanksBehind(p: KeyPart, after: string): KeyPart {
    match p
    case BarePart(before, text, _) => BarePart(before, text, after)
    case QuotedPart(before, quote, text, _) => QuotedPart(before, quote, text, after)
  }

  lemma AroundPart(before: string, body: string, after: string, behind: string)
    ensures before + (body + (after + behind)) == before + (body + after) + behind
  {
  }

  lemma PrependPart(part: KeyPart, more: seq<KeyPart>, end: string, s: string, behind: string) returns (parts: seq<KeyPart>, tail: string)
    requires s == Written(part) + behind && behind != [] && behind[0] == '.'
    requires if more == [] then AllBlank(behind[1..]) else KeyTail(end) && behind[1..] == WrittenKey(more) + end
    ensures parts == [part] + more && KeyTail(tail) && s == WrittenKey(parts) + tail
    ensures Texts(parts) == [part.text] + Texts(more)
  {
    parts := [part] + more;
    assert parts[1..] == more && behind == "." + behind[1..];
    if more == [] {
      tail := behind;
    } else {
      tail := end;
      assert s == Written(part) + ("." + WrittenKey(more)) + end;
    }
  }

  /** `text` is parts joined with dots that give `key`, possibly with one more dot behind them. */
  ghost predicate SpellsKey(text: string, key: Path) {
    exists parts: seq<KeyPart>, tail: string ::
      parts != [] && (forall i :: 0 <= i < |parts| ==> WellWritten(parts[i])) && KeyTail(tail)
      && text == WrittenKey(parts) + tail && Texts(parts) == key
  }

  /** A text is read as a key if and only if it is that key, its parts bare or quoted and joined with dots. */
  lemma KeysAreReadExactly(text: string, key: Path)
    ensures ParseKey(text) == Success(key) <==> SpellsKey(text, key)
  {
    if ParseKey(text) == Success(key) {
      var parts, tail := SegmentsAreWritten(text, []);
      assert [] + Texts(parts) == Texts(parts);
    }
    if SpellsKey(text, key) {
      var parts: seq<KeyPart>, tail: string :|
        parts != [] && (forall i :: 0 <= i < |parts| ==> WellWritten(parts[i])) && KeyTail(tail)
        && text == WrittenKey(parts) + tail && Texts(parts) == key;
      PartsAreRead(parts, tail, []);
      assert [] + Texts(parts) == Texts(parts);
    }
  }
}
