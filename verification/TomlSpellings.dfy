/** Every way a supported value can be spelled, and that the reader understands each. */
module TomlSpellings {
  import opened Json
  import opened Text
  import opened TomlValue
  import opened Wrappers

  // ---- spellings ------------------------------------------------------------------------------------------

  /** What stands for one character of a basic string: itself, a letter behind a backslash, or its code in four or
      eight hexadecimal digits. */
  datatype Piece = Itself(ch: char) | Letter(letter: char) | Code(digits: string)

  /** A number is a sign or none, and digits, with underscores anywhere. */
  datatype Spelling =
    | Flag(flag: bool)
    | Number(lead: string, sign: string, digits: string)
    | Basic(pieces: seq<Piece>)
    | Literal(text: string)
    | List(items: seq<Item>, end: string, comma: bool)

  /** An element of an array with the blanks around it. */
  datatype Item = Item(before: string, value: Spelling, after: string)

  predicate AllBlanks(s: string) {
    forall i :: 0 <= i < |s| ==> s[i] == ' ' || s[i] == '\t'
  }

  // ---- characters of basic strings ------------------------------------------------------------------------

  function LetterMeans(letter: char): Option<char> {
    match letter
    case 'n' => Some('\n')
    case 't' => Some('\t')
    case 'r' => Some('\r')
    case 'b' => Some('\U{8}')
    case 'f' => Some('\U{C}')
    case '\"' => Some('\"')
    case '\\' => Some('\\')
    case _ => None
  }

  /** The number hexadecimal digits stand for, most significant first. */
  function HexNumber(digits: string): nat
    requires forall i :: 0 <= i < |digits| ==> HexDigit(digits[i]).Some?
  {
    if digits == [] then 0
    else HexNumber(digits[..|digits| - 1]) * 16 + HexDigit(digits[|digits| - 1]).value
  }

  predicate GoodPiece(p: Piece) {
    match p
    case Itself(ch) => ch != '\"' && ch != '\\'
    case Letter(letter) => LetterMeans(letter).Some?
    case Code(digits) =>
      && |digits| in {4, 8} && (forall i :: 0 <= i < |digits| ==> HexDigit(digits[i]).Some?)
      && IsScalar(HexNumber(digits))
  }

  function PieceText(p: Piece): string {
    match p
    case Itself(ch) => [ch]
    case Letter(letter) => ['\\', letter]
    case Code(digits) => (if |digits| == 4 then "\\u" else "\\U") + digits
  }

  function PieceMeans(p: Piece): char
    requires GoodPiece(p)
  {
    match p
    case Itself(ch) => ch
    case Letter(letter) => LetterMeans(letter).value
    case Code(digits) => HexNumber(digits) as char
  }

  function PiecesText(pieces: seq<Piece>): string {
    if pieces == [] then [] else PieceText(pieces[0]) + PiecesText(pieces[1..])
  }

  function PiecesMean(pieces: seq<Piece>): string
    requires forall i :: 0 <= i < |pieces| ==> GoodPiece(pieces[i])
  {
    if pieces == [] then [] else [PieceMeans(pieces[0])] + PiecesMean(pieces[1..])
  }

  /** Reading `count` digits goes on from what was read before them. */
  lemma {:induction false} HexCodeFrom(digits: string, rest: string, code: nat)
    requires forall i :: 0 <= i < |digits| ==> HexDigit(digits[i]).Some?
    ensures HexCode(digits + rest, |digits|, code) == Success((code * Power(|digits|) + HexNumber(digits), rest))
    decreases digits
  {
    if digits == [] {
      assert digits + rest == rest;
    } else {
      var first, more := HexDigit(digits[0]).value, digits[1..];
      assert (digits + rest)[1..] == more + rest;
      HexCodeFrom(more, rest, code * 16 + first);
      HexNumberFirst(digits);
      Shift(code, first, Power(|more|));
    }
  }

  function Power(n: nat): nat {
    if n == 0 then 1 else 16 * Power(n - 1)
  }

  lemma Shift(code: nat, first: nat, power: nat)
    ensures (code * 16 + first) * power == code * (16 * power) + first * power
  {
  }

  lemma {:induction false} HexNumberFirst(digits: string)
    requires digits != [] && forall i :: 0 <= i < |digits| ==> HexDigit(digits[i]).Some?
    ensures HexNumber(digits) == HexDigit(digits[0]).value * Power(|digits| - 1) + HexNumber(digits[1..])
    decreases |digits|
  {
    var n := |digits|;
    if n == 1 {
      assert digits[..0] == [] && digits[1..] == [];
    } else {
      var front, rest, last := digits[..n - 1], digits[1..], HexDigit(digits[n - 1]).value;
      HexNumberFirst(front);
      LastOfRest(digits);
      OneDigitMore(HexDigit(digits[0]).value, Power(n - 2), HexNumber(front[1..]), last);
    }
  }

  lemma LastOfRest(digits: string)
    requires |digits| > 1 && forall i :: 0 <= i < |digits| ==> HexDigit(digits[i]).Some?
    ensures var front := digits[..|digits| - 1];
            HexNumber(digits[1..]) == HexNumber(front[1..]) * 16 + HexDigit(digits[|digits| - 1]).value
  {
    var rest := digits[1..];
    assert rest[..|rest| - 1] == digits[..|digits| - 1][1..] && rest[|rest| - 1] == digits[|digits| - 1];
  }

  lemma OneDigitMore(first: nat, power: nat, middle: nat, last: nat)
    ensures (first * power + middle) * 16 + last == first * (16 * power) + (middle * 16 + last)
  {
  }

  lemma PieceIsRead(p: Piece, rest: string, out: string)
    requires GoodPiece(p)
    ensures BasicString(PieceText(p) + rest, out) == BasicString(rest, out + [PieceMeans(p)])
  {
    var s := PieceText(p) + rest;
    match p
    case Itself(ch) => assert s[1..] == rest;
    case Letter(letter) => assert s[1..][1..] == rest && s[1..][0] == letter;
    case Code(digits) => CodeIsRead(digits, rest);
  }

  lemma CodeIsRead(digits: string, rest: string)
    requires GoodPiece(Code(digits))
    ensures EscapeSequence((PieceText(Code(digits)) + rest)[1..]) == Success((HexNumber(digits) as char, rest))
  {
    var s := (PieceText(Code(digits)) + rest)[1..];
    assert s[0] == (if |digits| == 4 then 'u' else 'U') && s[1..] == digits + rest;
    HexCodeFrom(digits, rest, 0);
    assert 0 * Power(|digits|) == 0;
  }

  lemma {:induction false} PiecesAreRead(pieces: seq<Piece>, rest: string, out: string)
    requires forall i :: 0 <= i < |pieces| ==> GoodPiece(pieces[i])
    ensures BasicString(PiecesText(pieces) + ("\"" + rest), out) == Success((out + PiecesMean(pieces), rest))
    decreases pieces
  {
    var close := "\"" + rest;
    if pieces == [] {
      assert PiecesText(pieces) + close == close && close[1..] == rest && out + [] == out;
    } else {
      var more, ch := PiecesText(pieces[1..]), PieceMeans(pieces[0]);
      ConcatAssociates(PieceText(pieces[0]), more, close);
      PieceIsRead(pieces[0], more + close, out);
      PiecesAreRead(pieces[1..], rest, out + [ch]);
      ConcatAssociates(out, [ch], PiecesMean(pieces[1..]));
    }
  }

  // ---- numbers --------------------------------------------------------------------------------------------

  /** The number digits stand for, underscores passed over. */
  function Spelled(digits: string): nat
    requires forall i :: 0 <= i < |digits| ==> IsAsciiDigit(digits[i]) || digits[i] == '_'
  {
    if digits == [] then 0
    else
      var front, last := digits[..|digits| - 1], digits[|digits| - 1];
      if last == '_' then Spelled(front) else Spelled(front) * 10 + DigitValue(last)
  }

  predicate GoodNumber(lead: string, sign: string, digits: string) {
    && (forall i :: 0 <= i < |lead| ==> lead[i] == '_') && sign in {"", "+", "-"}
    && (forall i :: 0 <= i < |digits| ==> IsAsciiDigit(digits[i]) || digits[i] == '_')
    && (exists i :: 0 <= i < |digits| && IsAsciiDigit(digits[i]))
    && -0x8000_0000_0000_0000 <= NumberMeans(sign, digits) < 0x8000_0000_0000_0000
  }

  function NumberMeans(sign: string, digits: string): int
    requires forall i :: 0 <= i < |digits| ==> IsAsciiDigit(digits[i]) || digits[i] == '_'
  {
    var n: int := Spelled(digits);
    if sign == "-" then -n else n
  }

  lemma {:induction false} WithoutLast(s: string, last: char)
    ensures WithoutUnderscores(s + [last]) == WithoutUnderscores(s) + if last == '_' then [] else [last]
    decreases s
  {
    if s == [] {
      assert [] + [last] == [last] && [last][1..] == [];
    } else {
      assert (s + [last])[1..] == s[1..] + [last];
      WithoutLast(s[1..], last);
    }
  }

  lemma {:induction false} CleanedDigits(digits: string)
    requires forall i :: 0 <= i < |digits| ==> IsAsciiDigit(digits[i]) || digits[i] == '_'
    ensures var clean := WithoutUnderscores(digits);
            && (forall i :: 0 <= i < |clean| ==> IsAsciiDigit(clean[i]))
            && DigitsValue(clean) == Spelled(digits)
    decreases |digits|
  {
    if digits != [] {
      var front, last := digits[..|digits| - 1], digits[|digits| - 1];
      CleanedDigits(front);
      assert digits == front + [last];
      WithoutLast(front, last);
      SpelledLast(front, last);
      OneMoreDigit(WithoutUnderscores(front), last);
    }
  }

  lemma OneMoreDigit(clean: string, last: char)
    requires (IsAsciiDigit(last) || last == '_') && forall i :: 0 <= i < |clean| ==> IsAsciiDigit(clean[i])
    ensures var more := clean + if last == '_' then [] else [last];
            && (forall i :: 0 <= i < |more| ==> IsAsciiDigit(more[i]))
            && DigitsValue(more) == if last == '_' then DigitsValue(clean) else DigitsValue(clean) * 10 + DigitValue(last)
  {
    if last == '_' {
      assert clean + [] == clean;
    } else {
      LastDigit(clean, last);
    }
  }

  lemma SpelledLast(front: string, last: char)
    requires (IsAsciiDigit(last) || last == '_') && forall i :: 0 <= i < |front| ==> IsAsciiDigit(front[i]) || front[i] == '_'
    ensures Spelled(front + [last]) == if last == '_' then Spelled(front) else Spelled(front) * 10 + DigitValue(last)
  {
    var s := front + [last];
    assert s[..|s| - 1] == front && s[|s| - 1] == last;
  }

  lemma LastDigit(digits: string, last: char)
    requires IsAsciiDigit(last) && forall i :: 0 <= i < |digits| ==> IsAsciiDigit(digits[i])
    ensures DigitsValue(digits + [last]) == DigitsValue(digits) * 10 + DigitValue(last)
  {
    var s := digits + [last];
    assert s[..|s| - 1] == digits && s[|s| - 1] == last;
  }

  lemma {:induction false} SomeDigitStays(digits: string, i: nat)
    requires i < |digits| && digits[i] != '_'
    ensures WithoutUnderscores(digits) != []
    decreases digits
  {
    if i > 0 {
      SomeDigitStays(digits[1..], i - 1);
    }
  }

  /** What a text is parsed as, once its sign and its digits are told apart. */
  lemma ParseOfParts(s: string, digits: string, negative: bool)
    requires AllDigits(digits) && (negative <==> s != [] && s[0] == '-')
    requires digits == if s != [] && (s[0] == '-' || s[0] == '+') then s[1..] else s
    ensures var m: int := DigitsValue(digits);
            var n := if negative then -m else m;
            ParseI64(s) == if -0x8000_0000_0000_0000 <= n < 0x8000_0000_0000_0000 then Some(n) else None
  {
  }

  lemma SignedIsParsed(sign: string, clean: string)
    requires sign in {"", "+", "-"} && AllDigits(clean)
    ensures var m: int := DigitsValue(clean);
            var n := if sign == "-" then -m else m;
            ParseI64(sign + clean) == if -0x8000_0000_0000_0000 <= n < 0x8000_0000_0000_0000 then Some(n) else None
  {
    SignInFront(sign, clean);
    ParseOfParts(sign + clean, clean, sign == "-");
  }

  lemma SignInFront(sign: string, clean: string)
    requires sign in {"", "+", "-"} && AllDigits(clean)
    ensures var s := sign + clean;
            && s != [] && (s[0] == '-' <==> sign == "-") && (s[0] == '+' <==> sign == "+")
            && (sign == "" ==> s == clean) && (sign != "" ==> s[1..] == clean)
  {
    if sign == "" {
      assert sign + clean == clean;
    }
  }

  lemma SignStays(sign: string, digits: string)
    requires sign in {"", "+", "-"}
    ensures WithoutUnderscores(sign + digits) == sign + WithoutUnderscores(digits)
  {
    if sign == "" {
      assert sign + digits == digits;
    } else {
      assert (sign + digits)[0] == sign[0] && (sign + digits)[1..] == digits;
    }
  }

  lemma {:induction false} LeadIsDropped(lead: string, s: string)
    requires forall i :: 0 <= i < |lead| ==> lead[i] == '_'
    ensures WithoutUnderscores(lead + s) == WithoutUnderscores(s)
    decreases lead
  {
    if lead == [] {
      assert lead + s == s;
    } else {
      assert (lead + s)[1..] == lead[1..] + s;
      LeadIsDropped(lead[1..], s);
    }
  }

  lemma NumberIsParsed(lead: string, sign: string, digits: string)
    requires GoodNumber(lead, sign, digits)
    ensures ParseI64(WithoutUnderscores(lead + (sign + digits))) == Some(NumberMeans(sign, digits))
  {
    LeadIsDropped(lead, sign + digits);
    var clean := CleanedNumber(digits);
    SignStays(sign, digits);
    SignedIsParsed(sign, clean);
  }

  lemma CleanedNumber(digits: string) returns (clean: string)
    requires forall i :: 0 <= i < |digits| ==> IsAsciiDigit(digits[i]) || digits[i] == '_'
    requires exists i :: 0 <= i < |digits| && IsAsciiDigit(digits[i])
    ensures clean == WithoutUnderscores(digits) && AllDigits(clean) && DigitsValue(clean) == Spelled(digits)
  {
    clean := WithoutUnderscores(digits);
    CleanedDigits(digits);
    var i :| 0 <= i < |digits| && IsAsciiDigit(digits[i]);
    SomeDigitStays(digits, i);
  }

  lemma NumberIsRead(lead: string, sign: string, digits: string, rest: string)
    requires GoodNumber(lead, sign, digits) && (rest == [] || !IsTokenChar(rest[0]))
    ensures ReadValue(lead + (sign + digits) + rest) == Success((Int(NumberMeans(sign, digits)), rest))
  {
    var token := lead + (sign + digits);
    NumberIsParsed(lead, sign, digits);
    NumberStarts(lead, sign, digits);
    TokenIsWhole(token, rest);
    assert (token + rest)[..|token|] == token && (token + rest)[|token|..] == rest;
    assert SkipBlanks(token + rest) == token + rest;
  }

  lemma NumberStarts(lead: string, sign: string, digits: string)
    requires GoodNumber(lead, sign, digits)
    ensures var token := lead + (sign + digits);
            && token != [] && token[0] !in {'t', 'f', '\"', '\'', '[', '{', ']', ' ', '\t'}
            && forall i :: 0 <= i < |token| ==> IsTokenChar(token[i])
  {
  }

  // ---- whole values ---------------------------------------------------------------------------------------

  predicate Good(sp: Spelling) {
    match sp
    case Flag(_) => true
    case Number(lead, sign, digits) => GoodNumber(lead, sign, digits)
    case Basic(pieces) => forall i :: 0 <= i < |pieces| ==> GoodPiece(pieces[i])
    case Literal(text) => '\'' !in text
    case List(items, end, _) =>
      AllBlanks(end)
      && forall i :: 0 <= i < |items| ==> AllBlanks(items[i].before) && AllBlanks(items[i].after) && Good(items[i].value)
  }

  function Means(sp: Spelling): Value
    requires Good(sp)
    decreases sp, 1
  {
    match sp
    case Flag(flag) => Bool(flag)
    case Number(_, sign, digits) => Int(NumberMeans(sign, digits))
    case Basic(pieces) => Str(PiecesMean(pieces))
    case Literal(text) => Str(text)
    case List(items, _, _) => Arr(ItemsMean(items))
  }

  function ItemsMean(items: seq<Item>): seq<Value>
    requires forall i :: 0 <= i < |items| ==> Good(items[i].value)
    decreases items, 0
  {
    if items == [] then [] else [Means(items[0].value)] + ItemsMean(items[1..])
  }

  /** The value as it stands in the document. A trailing comma needs an element before it. */
  function Written(sp: Spelling): string
    decreases sp, 1
  {
    match sp
    case Flag(flag) => if flag then "true" else "false"
    case Number(lead, sign, digits) => lead + (sign + digits)
    case Basic(pieces) => "\"" + (PiecesText(pieces) + "\"")
    case Literal(text) => "'" + (text + "'")
    case List(items, end, comma) => "[" + ItemsWritten(items, (if comma && items != [] then "," else "") + (end + "]"))
  }

  function ItemsWritten(items: seq<Item>, close: string): string
    decreases items, 0
  {
    if items == [] then close
    else ItemWritten(items[0]) + if |items| == 1 then close else "," + ItemsWritten(items[1..], close)
  }

  function ItemWritten(item: Item): string
    decreases item, 2
  {
    item.before + (Written(item.value) + item.after)
  }

  lemma {:induction false} BlanksAreSkipped(blanks: string, s: string)
    requires AllBlanks(blanks)
    ensures SkipBlanks(blanks + s) == SkipBlanks(s)
    decreases blanks
  {
    if blanks == [] {
      assert blanks + s == s;
    } else {
      assert (blanks + s)[1..] == blanks[1..] + s;
      BlanksAreSkipped(blanks[1..], s);
    }
  }

  lemma WrittenStarts(sp: Spelling, rest: string)
    requires Good(sp)
    ensures Written(sp) != [] && Written(sp)[0] !in {' ', '\t', ']'}
    ensures SkipBlanks(Written(sp) + rest) == Written(sp) + rest
  {
    match sp
    case Number(lead, sign, digits) => NumberStarts(lead, sign, digits);
    case _ =>
  }

  /** A comma, a closing bracket or a blank: what can stand behind an element. */
  predicate EndsItem(tail: string) {
    tail != [] && tail[0] in {',', ']', ' ', '\t'}
  }

  lemma ItemIsRead(item: Item, tail: string, read: seq<Value>)
    requires AllBlanks(item.before) && AllBlanks(item.after) && Good(item.value) && EndsItem(tail)
    requires ReadValue(Written(item.value) + (item.after + tail)) == Success((Means(item.value), item.after + tail))
    ensures var t, more := SkipBlanks(tail), read + [Means(item.value)];
            && (t != [] && t[0] == ',' ==> ReadItems(ItemWritten(item) + tail, read) == ReadItems(t[1..], more))
            && (t != [] && t[0] == ']' ==> ReadItems(ItemWritten(item) + tail, read) == Success((Arr(more), t[1..])))
  {
    var s := Written(item.value) + (item.after + tail);
    assert ItemWritten(item) + tail == item.before + s;
    BlanksAreSkipped(item.before, s);
    WrittenStarts(item.value, item.after + tail);
    BlanksAreSkipped(item.after, tail);
    assert s[0] == Written(item.value)[0];
  }

  /** The end of an array: blanks and the bracket, with a comma before them or not. */
  function Close(end: string, comma: bool): string {
    (if comma then "," else "") + (end + "]")
  }

  lemma CloseIsRead(end: string, rest: string, read: seq<Value>)
    requires AllBlanks(end)
    ensures SkipBlanks(end + "]" + rest) == "]" + rest
    ensures ReadItems(end + "]" + rest, read) == Success((Arr(read), rest))
  {
    var s := "]" + rest;
    assert end + "]" + rest == end + s && s[1..] == rest;
    BlanksAreSkipped(end, s);
  }

  lemma LastItemIsRead(item: Item, end: string, comma: bool, rest: string, read: seq<Value>)
    requires AllBlanks(item.before) && AllBlanks(item.after) && Good(item.value) && AllBlanks(end)
    requires var tail := Close(end, comma) + rest;
             ReadValue(Written(item.value) + (item.after + tail)) == Success((Means(item.value), item.after + tail))
    ensures ReadItems(ItemWritten(item) + (Close(end, comma) + rest), read) == Success((Arr(read + [Means(item.value)]), rest))
  {
    var tail := Close(end, comma) + rest;
    var more := read + [Means(item.value)];
    CloseIsRead(end, rest, more);
    if comma {
      assert tail[0] == ',' && tail[1..] == end + "]" + rest && SkipBlanks(tail) == tail;
    } else {
      assert tail == end + "]" + rest && ("]" + rest)[1..] == rest;
      assert end != [] ==> tail[0] == end[0];
    }
    ItemIsRead(item, tail, read);
  }

  lemma {:induction false} ItemsAreRead(items: seq<Item>, end: string, comma: bool, rest: string, read: seq<Value>)
    requires AllBlanks(end) && (comma ==> items != [])
    requires forall i :: 0 <= i < |items| ==> AllBlanks(items[i].before) && AllBlanks(items[i].after) && Good(items[i].value)
    ensures ReadItems(ItemsWritten(items, Close(end, comma)) + rest, read) == Success((Arr(read + ItemsMean(items)), rest))
    decreases items, 0
  {
    if items == [] {
      CloseIsRead(end, rest, read);
      assert read + [] == read;
      assert Close(end, false) == end + "]";
    } else {
      var item := items[0];
      var v := Means(item.value);
      if |items| == 1 {
        var tail := Close(end, comma) + rest;
        SpellingIsRead(item.value, item.after + tail);
        LastItemIsRead(item, end, comma, rest, read);
        ConcatAssociates(ItemWritten(item), Close(end, comma), rest);
        assert ItemsMean(items) == [v];
      } else {
        var more := ItemsWritten(items[1..], Close(end, comma));
        SpellingIsRead(item.value, item.after + ("," + (more + rest)));
        InnerItemIsRead(item, more, rest, read);
        ItemsAreRead(items[1..], end, comma, rest, read + [v]);
        ConcatAssociates(read, [v], ItemsMean(items[1..]));
      }
    }
  }

  lemma InnerItemIsRead(item: Item, more: string, rest: string, read: seq<Value>)
    requires AllBlanks(item.before) && AllBlanks(item.after) && Good(item.value)
    requires var tail := "," + (more + rest);
             ReadValue(Written(item.value) + (item.after + tail)) == Success((Means(item.value), item.after + tail))
    ensures ReadItems(ItemWritten(item) + ("," + more) + rest, read) == ReadItems(more + rest, read + [Means(item.value)])
  {
    var tail := "," + (more + rest);
    assert SkipBlanks(tail) == tail && tail[1..] == more + rest;
    ItemIsRead(item, tail, read);
    ConcatAssociates(ItemWritten(item), "," + more, rest);
    ConcatAssociates(",", more, rest);
  }

  /** However a value is spelled, it is read as what it means, with everything behind it left. */
  lemma {:induction false} SpellingIsRead(sp: Spelling, rest: string)
    requires Good(sp) && (rest == [] || !IsTokenChar(rest[0]))
    ensures ReadValue(Written(sp) + rest) == Success((Means(sp), rest))
    decreases sp, 1
  {
    match sp {
      case Flag(flag) => ReadBareText(Bool(flag), rest);
      case Number(lead, sign, digits) => NumberIsRead(lead, sign, digits, rest);
      case Basic(pieces) => BasicIsRead(pieces, rest);
      case Literal(text) => LiteralIsRead(text, rest);
      case List(items, end, comma) =>
        ItemsAreRead(items, end, comma && items != [], rest, []);
        ListIsRead(items, end, comma, rest);
    }
  }

  lemma ListIsRead(items: seq<Item>, end: string, comma: bool, rest: string)
    requires Good(List(items, end, comma))
    requires ReadItems(ItemsWritten(items, Close(end, comma && items != [])) + rest, []) == Success((Arr([] + ItemsMean(items)), rest))
    ensures ReadValue(Written(List(items, end, comma)) + rest) == Success((Means(List(items, end, comma)), rest))
  {
    var sp := List(items, end, comma);
    var s := Written(sp) + rest;
    WrittenStarts(sp, rest);
    assert s[0] == '[' && s[1..] == ItemsWritten(items, Close(end, comma && items != [])) + rest;
    assert [] + ItemsMean(items) == ItemsMean(items);
  }

  lemma BasicIsRead(pieces: seq<Piece>, rest: string)
    requires Good(Basic(pieces))
    ensures ReadValue(Written(Basic(pieces)) + rest) == Success((Str(PiecesMean(pieces)), rest))
  {
    var s := Written(Basic(pieces)) + rest;
    QuoteFirst(PiecesText(pieces), rest);
    PiecesAreRead(pieces, rest, []);
    assert [] + PiecesMean(pieces) == PiecesMean(pieces);
    assert SkipBlanks(s) == s;
  }

  lemma QuoteFirst(text: string, rest: string)
    ensures var s := "\"" + (text + "\"") + rest; s[0] == '\"' && s[1..] == text + ("\"" + rest)
  {
  }

  lemma LiteralIsRead(text: string, rest: string)
    requires '\'' !in text
    ensures ReadValue(Written(Literal(text)) + rest) == Success((Str(text), rest))
  {
    LiteralEnds(text, rest);
    LiteralOpens(text, rest);
    ReadLiteral("'" + (text + "'") + rest, text, rest);
  }

  lemma LiteralOpens(text: string, rest: string)
    ensures var s := "'" + (text + "'") + rest; s[0] == '\'' && s[1..] == text + ("'" + rest)
  {
  }

  lemma ReadLiteral(s: string, text: string, rest: string)
    requires s != [] && s[0] == '\'' && LiteralString(s[1..]) == Success((text, rest))
    ensures ReadValue(s) == Success((Str(text), rest))
  {
    assert SkipBlanks(s) == s;
  }

  lemma LiteralEnds(text: string, rest: string)
    requires '\'' !in text
    ensures LiteralString(text + ("'" + rest)) == Success((text, rest))
  {
    QuoteIsFound(text, rest);
    TextThen(text, '\'', rest);
  }

  lemma QuoteIsFound(text: string, rest: string)
    requires '\'' !in text
    ensures IndexOf(text + ("'" + rest), '\'') == |text|
  {
    IndexOfConcat(text, "'" + rest, '\'');
    assert ("'" + rest)[0] == '\'';
  }

  lemma TextThen(text: string, ch: char, rest: string)
    ensures var s := text + ([ch] + rest); s[..|text|] == text && s[|text| + 1..] == rest && |s| > |text|
  {
  }

  /** A value alone on its line, blanks around it allowed, is the value. */
  lemma SpellingIsParsed(sp: Spelling, before: string, after: string)
    requires Good(sp) && AllBlanks(before) && AllBlanks(after)
    ensures ParseValue(before + (Written(sp) + after)) == Success(Means(sp))
  {
    var s := Written(sp) + after;
    SpellingIsRead(sp, after);
    WrittenStarts(sp, after);
    BlanksAreSkipped(before, s);
    BlanksAreSkipped(after, []);
    assert after + [] == after;
    ReadSkipsBlanks(before + s, s);
  }

  lemma ReadSkipsBlanks(s: string, t: string)
    requires SkipBlanks(s) == SkipBlanks(t)
    ensures ReadValue(s) == ReadValue(t)
  {
  }
}
