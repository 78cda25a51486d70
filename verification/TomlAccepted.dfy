/** The reader of values accepts nothing but spellings: the other direction of TomlSpellings. */
module TomlAccepted {
  import opened Json
  import opened Text
  import opened TomlSpellings
  import opened TomlValue
  import opened Wrappers

  // ---- blanks ---------------------------------------------------------------------------------------------

  lemma {:induction false} BlanksBefore(s: string) returns (blanks: string)
    ensures AllBlanks(blanks) && s == blanks + SkipBlanks(s)
    decreases s
  {
    blanks := [];
    if s != [] && (s[0] == ' ' || s[0] == '\t') {
      var more := BlanksBefore(s[1..]);
      blanks := [s[0]] + more;
    }
  }

  // ---- strings --------------------------------------------------------------------------------------------

  lemma {:induction false} DigitsWereRead(s: string, count: nat, code: nat)
    requires HexCode(s, count, code).Success?
    ensures count <= |s| && HexCode(s, count, code).value.1 == s[count..]
    ensures forall i :: 0 <= i < count ==> HexDigit(s[i]).Some?
    decreases count
  {
    if count > 0 {
      DigitsWereRead(s[1..], count - 1, code * 16 + HexDigit(s[0]).value);
      assert s[1..][count - 1..] == s[count..];
      assert forall i :: 0 < i < count ==> s[i] == s[1..][i - 1];
    }
  }

  lemma CodeIsAPiece(s: string, count: nat) returns (p: Piece)
    requires count in {4, 8} && HexCode(s, count, 0).Success? && IsScalar(HexCode(s, count, 0).value.0)
    ensures GoodPiece(p) && p == Code(s[..count]) && s == s[..count] + HexCode(s, count, 0).value.1
    ensures PieceMeans(p) == HexCode(s, count, 0).value.0 as char
  {
    DigitsWereRead(s, count, 0);
    p := Code(s[..count]);
    assert s == s[..count] + s[count..];
    HexCodeFrom(s[..count], s[count..], 0);
    assert 0 * Power(count) == 0;
  }

  /** An escape that is read is one of the pieces, behind its backslash. */
  lemma EscapeIsAPiece(s: string) returns (p: Piece)
    requires EscapeSequence(s).Success?
    ensures GoodPiece(p) && PieceText(p) + EscapeSequence(s).value.1 == "\\" + s
    ensures PieceMeans(p) == EscapeSequence(s).value.0
  {
    if s[0] == 'u' || s[0] == 'U' {
      p := CodeIsAPiece(s[1..], if s[0] == 'u' then 4 else 8);
      CodeBehindMarker(s, p, EscapeSequence(s).value.1);
    } else {
      p := LetterIsAPiece(s);
    }
  }

  lemma CodeBehindMarker(s: string, p: Piece, rest: string)
    requires s != [] && p.Code? && s[0] == (if |p.digits| == 4 then 'u' else 'U') && s[1..] == p.digits + rest
    ensures PieceText(p) + rest == "\\" + s
  {
    assert s == [s[0]] + (p.digits + rest);
  }

  lemma LetterIsAPiece(s: string) returns (p: Piece)
    requires EscapeSequence(s).Success? && s[0] != 'u' && s[0] != 'U'
    ensures GoodPiece(p) && PieceText(p) + EscapeSequence(s).value.1 == "\\" + s
    ensures PieceMeans(p) == EscapeSequence(s).value.0
  {
    p := Letter(s[0]);
    assert LetterMeans(s[0]) == Some(EscapeSequence(s).value.0) && EscapeSequence(s).value.1 == s[1..];
    assert s == [s[0]] + s[1..];
  }

  lemma {:induction false} StringIsSpelled(s: string, out: string) returns (pieces: seq<Piece>)
    requires BasicString(s, out).Success?
    ensures forall i :: 0 <= i < |pieces| ==> GoodPiece(pieces[i])
    ensures s == PiecesText(pieces) + ("\"" + BasicString(s, out).value.1)
    ensures BasicString(s, out).value.0 == out + PiecesMean(pieces)
    decreases |s|
  {
    if s[0] == '\"' {
      pieces := [];
      assert out + [] == out;
    } else if s[0] == '\\' {
      var e := EscapeSequence(s[1..]).value;
      var p := EscapeIsAPiece(s[1..]);
      var more := StringIsSpelled(e.1, out + [e.0]);
      pieces := PrependPiece(p, more, s, e.1, BasicString(s, out).value.1, out);
    } else {
      var more := StringIsSpelled(s[1..], out + [s[0]]);
      pieces := PrependPiece(Itself(s[0]), more, s, s[1..], BasicString(s, out).value.1, out);
    }
  }

  lemma PrependPiece(p: Piece, more: seq<Piece>, s: string, behind: string, rest: string, out: string) returns (pieces: seq<Piece>)
    requires GoodPiece(p) && forall i :: 0 <= i < |more| ==> GoodPiece(more[i])
    requires s == PieceText(p) + behind && behind == PiecesText(more) + ("\"" + rest)
    ensures forall i :: 0 <= i < |pieces| ==> GoodPiece(pieces[i])
    ensures s == PiecesText(pieces) + ("\"" + rest)
    ensures out + [PieceMeans(p)] + PiecesMean(more) == out + PiecesMean(pieces)
  {
    pieces := [p] + more;
    assert pieces[1..] == more;
    ConcatAssociates(PieceText(p), PiecesText(more), "\"" + rest);
    ConcatAssociates(out, [PieceMeans(p)], PiecesMean(more));
  }

  lemma LiteralIsSpelled(s: string)
    requires LiteralString(s).Success?
    ensures '\'' !in LiteralString(s).value.0 && s == LiteralString(s).value.0 + ("'" + LiteralString(s).value.1)
  {
    var n := IndexOf(s, '\'');
    assert s == s[..n] + ([s[n]] + s[n + 1..]);
  }

  // ---- bare values ----------------------------------------------------------------------------------------

  lemma {:induction false} LeadOf(s: string) returns (lead: string, t: string)
    ensures s == lead + t && (t == [] || t[0] != '_') && forall i :: 0 <= i < |lead| ==> lead[i] == '_'
    decreases s
  {
    lead, t := [], s;
    if s != [] && s[0] == '_' {
      var more, rest := LeadOf(s[1..]);
      lead, t := ['_'] + more, rest;
    }
  }

  lemma {:induction false} OnlyDigitsAndUnderscores(s: string, clean: string)
    requires clean == WithoutUnderscores(s) && forall i :: 0 <= i < |clean| ==> IsAsciiDigit(clean[i])
    ensures forall i :: 0 <= i < |s| ==> IsAsciiDigit(s[i]) || s[i] == '_'
    ensures clean != [] ==> exists i :: 0 <= i < |s| && IsAsciiDigit(s[i])
    decreases s
  {
    if s != [] {
      var rest, more := s[1..], WithoutUnderscores(s[1..]);
      if s[0] != '_' {
        assert clean == [s[0]] + more && IsAsciiDigit(clean[0]);
        assert forall i :: 0 <= i < |more| ==> more[i] == clean[i + 1];
        OnlyDigitsAndUnderscores(rest, more);
        assert IsAsciiDigit(s[0]);
      } else {
        assert clean == more;
        OnlyDigitsAndUnderscores(rest, more);
        if clean != [] {
          var i :| 0 <= i < |rest| && IsAsciiDigit(rest[i]);
          assert s[i + 1] == rest[i];
        }
      }
      assert forall i :: 0 < i < |s| ==> s[i] == rest[i - 1];
    }
  }

  lemma SignOf(clean: string, t: string) returns (sign: string, digits: string)
    requires t != [] && t[0] != '_' && WithoutUnderscores(t) == clean && ParseI64(clean).Some?
    ensures sign in {"", "+", "-"} && t == sign + digits && AllDigits(WithoutUnderscores(digits))
    ensures clean == sign + WithoutUnderscores(digits)
  {
    if t[0] == '+' || t[0] == '-' {
      sign, digits := [t[0]], t[1..];
      assert clean[0] == t[0] && clean[1..] == WithoutUnderscores(digits);
    } else {
      sign, digits := "", t;
      assert clean[0] == t[0];
    }
  }

  lemma ParsedIsGood(lead: string, sign: string, digits: string, clean: string)
    requires (forall i :: 0 <= i < |lead| ==> lead[i] == '_') && sign in {"", "+", "-"}
    requires clean == WithoutUnderscores(digits) && AllDigits(clean) && ParseI64(sign + clean).Some?
    ensures GoodNumber(lead, sign, digits) && ParseI64(sign + clean) == Some(NumberMeans(sign, digits))
  {
    OnlyDigitsAndUnderscores(digits, clean);
    CleanedDigits(digits);
    SignedIsParsed(sign, clean);
  }

  lemma NumberIsSpelled(token: string) returns (lead: string, sign: string, digits: string)
    requires ParseI64(WithoutUnderscores(token)).Some?
    ensures GoodNumber(lead, sign, digits) && token == lead + (sign + digits)
    ensures ParseI64(WithoutUnderscores(token)) == Some(NumberMeans(sign, digits))
  {
    var clean := WithoutUnderscores(token);
    var t: string;
    lead, t := LeadOf(token);
    LeadIsDropped(lead, t);
    NotEmptied(t, clean);
    sign, digits := SignOf(clean, t);
    ParsedIsGood(lead, sign, digits, WithoutUnderscores(digits));
  }

  lemma NotEmptied(t: string, clean: string)
    requires clean == WithoutUnderscores(t) && ParseI64(clean).Some?
    ensures t != []
  {
  }

  lemma BareIsSpelled(s: string) returns (sp: Spelling)
    requires BareValue(s).Success?
    ensures Good(sp) && s == Written(sp) + BareValue(s).value.1 && Means(sp) == BareValue(s).value.0
  {
    var n := TokenLength(s);
    var token := s[..n];
    assert s == token + s[n..];
    if token == "true" || token == "false" {
      sp := Flag(token == "true");
    } else {
      var lead, sign, digits := NumberIsSpelled(token);
      sp := Number(lead, sign, digits);
    }
  }

  // ---- whole values ---------------------------------------------------------------------------------------

  /** Whatever the reader reads as a value is blanks and a spelling of it, and what it leaves stands behind. */
  lemma {:induction false} ReadIsSpelled(s: string) returns (before: string, sp: Spelling)
    requires ReadValue(s).Success?
    ensures AllBlanks(before) && Good(sp) && s == before + (Written(sp) + ReadValue(s).value.1)
    ensures Means(sp) == ReadValue(s).value.0
    decreases |s|, 0
  {
    before := BlanksBefore(s);
    var t, rest := SkipBlanks(s), ReadValue(s).value.1;
    if t[0] == '\"' {
      var pieces := StringIsSpelled(t[1..], []);
      sp := Basic(pieces);
      assert [] + PiecesMean(pieces) == PiecesMean(pieces);
      BehindFirst(t, PiecesText(pieces), "\"", rest);
    } else if t[0] == '\'' {
      LiteralIsSpelled(t[1..]);
      sp := Literal(LiteralString(t[1..]).value.0);
      BehindFirst(t, LiteralString(t[1..]).value.0, "'", rest);
    } else if t[0] == '[' {
      sp := ArrayIsSpelled(t);
    } else {
      sp := BareIsSpelled(t);
    }
  }

  lemma BehindFirst(t: string, inner: string, close: string, rest: string)
    requires t != [] && t[1..] == inner + (close + rest)
    ensures t == [t[0]] + (inner + close) + rest
  {
    assert t == [t[0]] + t[1..];
  }

  lemma {:induction false} ArrayIsSpelled(t: string) returns (sp: Spelling)
    requires t != [] && t[0] == '[' && ReadItems(t[1..], []).Success?
    ensures Good(sp) && t == Written(sp) + ReadItems(t[1..], []).value.1
    ensures Means(sp) == ReadItems(t[1..], []).value.0
    decreases |t|, -1
  {
    var items, end, comma := ItemsAreSpelled(t[1..], []);
    sp := List(items, end, comma);
    assert [] + ItemsMean(items) == ItemsMean(items);
    assert t == ['['] + t[1..];
  }

  ghost predicate GoodItems(items: seq<Item>) {
    forall i :: 0 <= i < |items| ==> AllBlanks(items[i].before) && AllBlanks(items[i].after) && Good(items[i].value)
  }

  /** Elements, blanks, commas and the closing bracket: what the reader of an array got through. */
  lemma {:induction false} ItemsAreSpelled(s: string, read: seq<Value>) returns (items: seq<Item>, end: string, comma: bool)
    requires ReadItems(s, read).Success?
    ensures GoodItems(items) && AllBlanks(end) && (comma ==> items != [])
    ensures s == ItemsWritten(items, Close(end, comma)) + ReadItems(s, read).value.1
    ensures ReadItems(s, read).value.0 == Arr(read + ItemsMean(items))
    decreases |s|, 2
  {
    var blanks := BlanksBefore(s);
    var t, rest := SkipBlanks(s), ReadItems(s, read).value.1;
    if t[0] == ']' {
      items, end, comma := [], blanks, false;
      assert read + [] == read && t == "]" + t[1..];
      assert s == (blanks + "]") + t[1..];
    } else {
      var item, behind := ItemIsSpelled(s);
      var v := Means(item.value);
      if behind[0] == ']' {
        items, end, comma := OnlyItem(item, s, behind);
      } else {
        var more, inner, trailing := ItemsAreSpelled(behind[1..], read + [v]);
        items, end, comma := PrependItem(item, more, inner, trailing, s, behind, rest);
        ConcatAssociates(read, [v], ItemsMean(more));
      }
    }
  }

  lemma {:induction false} ItemIsSpelled(s: string) returns (item: Item, behind: string)
    requires var t := SkipBlanks(s); t != [] && ReadValue(t).Success? && SkipBlanks(ReadValue(t).value.1) != []
    ensures AllBlanks(item.before) && AllBlanks(item.after) && Good(item.value)
    ensures behind == SkipBlanks(ReadValue(SkipBlanks(s)).value.1) && s == ItemWritten(item) + behind
    ensures Means(item.value) == ReadValue(SkipBlanks(s)).value.0
    decreases |s|, 1
  {
    var blanks := BlanksBefore(s);
    var t := SkipBlanks(s);
    var more, sp := ReadIsSpelled(t);
    var left := ReadValue(t).value.1;
    var after := BlanksBefore(left);
    behind := SkipBlanks(left);
    item := Item(blanks + more, sp, after);
    Around(blanks, more, Written(sp), after, behind);
  }

  lemma Around(blanks: string, more: string, text: string, after: string, behind: string)
    ensures blanks + (more + (text + (after + behind))) == blanks + more + (text + after) + behind
  {
  }

  lemma OnlyItem(item: Item, s: string, behind: string) returns (items: seq<Item>, end: string, comma: bool)
    requires AllBlanks(item.before) && AllBlanks(item.after) && Good(item.value)
    requires s == ItemWritten(item) + behind && behind != [] && behind[0] == ']'
    ensures GoodItems(items) && AllBlanks(end) && !comma
    ensures s == ItemsWritten(items, Close(end, comma)) + behind[1..] && ItemsMean(items) == [Means(item.value)]
  {
    items, end, comma := [item], [], false;
    assert behind == "]" + behind[1..];
    assert Close(end, comma) == "]";
  }

  lemma PrependItem(item: Item, more: seq<Item>, inner: string, trailing: bool, s: string, behind: string, rest: string)
    returns (items: seq<Item>, end: string, comma: bool)
    requires AllBlanks(item.before) && AllBlanks(item.after) && Good(item.value)
    requires GoodItems(more) && AllBlanks(inner) && (trailing ==> more != [])
    requires s == ItemWritten(item) + behind && behind != [] && behind[0] == ','
    requires behind[1..] == ItemsWritten(more, Close(inner, trailing)) + rest
    ensures GoodItems(items) && AllBlanks(end) && (comma ==> items != [])
    ensures s == ItemsWritten(items, Close(end, comma)) + rest && ItemsMean(items) == [Means(item.value)] + ItemsMean(more)
  {
    items, end := [item] + more, inner;
    comma := trailing || more == [];
    assert items[1..] == more && behind == "," + behind[1..];
  }

  /** `text` is blanks, a spelling of `v`, and blanks. */
  ghost predicate Spells(text: string, v: Value) {
    exists before: string, sp: Spelling, after: string ::
      AllBlanks(before) && Good(sp) && AllBlanks(after) && text == before + (Written(sp) + after) && Means(sp) == v
  }

  /** The text behind the separator is read as a value if and only if it spells that value. */
  lemma ValuesAreReadExactly(text: string, v: Value)
    ensures ParseValue(text) == Success(v) <==> Spells(text, v)
  {
    if ParseValue(text) == Success(v) {
      var before, sp := ReadIsSpelled(text);
      var after := BlanksBefore(ReadValue(text).value.1);
      assert after + [] == after;
      assert text == before + (Written(sp) + after);
    }
    if Spells(text, v) {
      var before: string, sp: Spelling, after: string :|
        AllBlanks(before) && Good(sp) && AllBlanks(after) && text == before + (Written(sp) + after) && Means(sp) == v;
      SpellingIsParsed(sp, before, after);
    }
  }
}
