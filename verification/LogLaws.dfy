/** What the log buffer holds, however its text was split, and what stripping removes. */
module LogLaws {
  import opened Logs
  import opened Text
  import opened Wrappers

  // ---- splitting ------------------------------------------------------------------------------------------

  lemma FirstLineBefore(a: string, b: string, n: nat)
    requires n == IndexOf(a, '\n') < |a|
    ensures Complete(a) == [a[..n]] + Complete(a[n + 1..]) && Tail(a) == Tail(a[n + 1..])
    ensures Complete(a + b) == [a[..n]] + Complete(a[n + 1..] + b) && Tail(a + b) == Tail(a[n + 1..] + b)
  {
    CutAtFirst(a, b, n);
    FirstLineIs(a, a[..n], a[n + 1..]);
    FirstLineIs(a + b, a[..n], a[n + 1..] + b);
  }

  lemma FirstLineIs(s: string, line: string, rest: string)
    requires '\n' in s && var n := IndexOf(s, '\n'); s[..n] == line && s[n + 1..] == rest
    ensures Complete(s) == [line] + Complete(rest) && Tail(s) == Tail(rest)
  {
    FirstLine(s);
  }

  lemma CutAtFirst(a: string, b: string, n: nat)
    requires n == IndexOf(a, '\n') < |a|
    ensures '\n' in a + b && IndexOf(a + b, '\n') == n
    ensures (a + b)[..n] == a[..n] && (a + b)[n + 1..] == a[n + 1..] + b
  {
    IndexOfConcat(a, b, '\n');
    CutPrefix(a, b, n);
  }

  /** Text arriving later completes the tail and leaves finished lines alone. */
  lemma {:induction false} LinesOfConcat(a: string, b: string)
    ensures Complete(a + b) == Complete(a) + Complete(Tail(a) + b)
    ensures Tail(a + b) == Tail(Tail(a) + b)
    decreases |a|
  {
    var n := IndexOf(a, '\n');
    if n < |a| {
      var rest := a[n + 1..];
      FirstLineBefore(a, b, n);
      LinesOfConcat(rest, b);
      ConcatAssociates([a[..n]], Complete(rest), Complete(Tail(rest) + b));
    }
  }

  lemma {:induction false} KeptConcat(xs: seq<string>, ys: seq<string>)
    ensures Kept(xs + ys) == Kept(xs) + Kept(ys)
    decreases xs
  {
    if xs == [] {
      assert xs + ys == ys;
    } else {
      assert (xs + ys)[1..] == xs[1..] + ys;
      KeptConcat(xs[1..], ys);
    }
  }

  function PushAll(v: View, writes: seq<string>, maxLines: nat): View
    decreases writes
  {
    if writes == [] then v else PushAll(Push(v, writes[0], maxLines), writes[1..], maxLines)
  }

  function Concat(writes: seq<string>): string {
    if writes == [] then "" else writes[0] + Concat(writes[1..])
  }

  /** What the buffer should hold after a text. */
  function Holding(text: string, maxLines: nat): View {
    View(LastOf(Kept(Complete(text)), maxLines), Tail(text))
  }

  lemma PushHolds(text: string, more: string, maxLines: nat)
    ensures Push(Holding(text, maxLines), more, maxLines) == Holding(text + more, maxLines)
  {
    LinesOfConcat(text, more);
    KeptConcat(Complete(text), Complete(Tail(text) + more));
    DropOldest(Kept(Complete(text)), Kept(Complete(Tail(text) + more)), maxLines);
  }

  lemma {:induction false} PushAllHolds(text: string, writes: seq<string>, maxLines: nat)
    ensures PushAll(Holding(text, maxLines), writes, maxLines) == Holding(text + Concat(writes), maxLines)
    decreases writes
  {
    if writes == [] {
      assert text + Concat(writes) == text;
    } else {
      var now, later := text + writes[0], Concat(writes[1..]);
      PushHolds(text, writes[0], maxLines);
      PushAllHolds(now, writes[1..], maxLines);
      ConcatAssociates(text, writes[0], later);
    }
  }

  /** After any writes the buffer holds the last of the non-empty cleaned lines of the whole text, and its
      unterminated tail. */
  lemma BufferIgnoresSplits(writes: seq<string>, maxLines: nat)
    ensures PushAll(View([], ""), writes, maxLines) ==
            View(LastOf(Kept(Complete(Concat(writes))), maxLines), Tail(Concat(writes)))
  {
    assert Holding("", maxLines) == View([], "");
    PushAllHolds("", writes, maxLines);
    assert "" + Concat(writes) == Concat(writes);
  }

  function Unsplit(lines: seq<string>): string {
    if lines == [] then "" else lines[0] + "\n" + Unsplit(lines[1..])
  }

  lemma {:induction false} TailHasNoNewline(s: string)
    ensures '\n' !in Tail(s)
    decreases |s|
  {
    if '\n' in s {
      SameTail(s);
      TailHasNoNewline(s[IndexOf(s, '\n') + 1..]);
    }
  }

  lemma {:induction false} LinesHaveNoNewline(s: string)
    ensures forall line :: line in Complete(s) ==> '\n' !in line
    decreases |s|
  {
    if '\n' in s {
      FirstComplete(s);
      LinesHaveNoNewline(s[IndexOf(s, '\n') + 1..]);
    }
  }

  lemma CutAtNewline(s: string, n: nat)
    requires n < |s| && s[n] == '\n'
    ensures s[..n] + "\n" + s[n + 1..] == s
  {
  }

  /** Lines and tail are the text: nothing is lost or made up between writes. */
  lemma {:induction false} LinesAndTailAreTheText(s: string)
    ensures Unsplit(Complete(s)) + Tail(s) == s
    decreases |s|
  {
    var n := IndexOf(s, '\n');
    if n < |s| {
      var rest := s[n + 1..];
      LinesAndTailAreTheText(rest);
      FirstLine(s);
      CutAtNewline(s, n);
    }
  }

  // ---- stripping ------------------------------------------------------------------------------------------

  predicate Subsequence(a: string, b: string)
    decreases b
  {
    a == [] || (b != [] && (Subsequence(a, b[1..]) || (a[0] == b[0] && Subsequence(a[1..], b[1..]))))
  }

  lemma {:induction false} LaterSubsequence(a: string, b: string, n: nat)
    requires n <= |b| && Subsequence(a, b[n..])
    ensures Subsequence(a, b)
    decreases n
  {
    if n > 0 {
      assert b[n..] == b[1..][n - 1..];
      LaterSubsequence(a, b[1..], n - 1);
    } else {
      assert b[0..] == b;
    }
  }

  /** Stripping only removes, and removes every ESC. */
  lemma {:induction false} StripRemoves(s: string)
    ensures Subsequence(Strip(s), s) && ESC !in Strip(s)
    decreases |s|
  {
    if s == [] {
    } else if s[0] != ESC {
      StripRemoves(s[1..]);
      assert ([s[0]] + Strip(s[1..]))[1..] == Strip(s[1..]);
    } else {
      StripRemoves(s[EscapeLength(s)..]);
      LaterSubsequence(Strip(s), s, EscapeLength(s));
    }
  }

  lemma {:induction false} PlainTextStays(s: string)
    requires ESC !in s
    ensures Strip(s) == s
  {
    if s != [] {
      PlainTextStays(s[1..]);
    }
  }

  lemma StripIsIdempotent(s: string)
    ensures Strip(Strip(s)) == Strip(s)
  {
  }

  // ---- against the grammar of control functions -----------------------------------------------------------

  /** One piece of terminal output: a character, a control sequence, an operating system command ended by BEL or
      by the string terminator, or an escape with one more character. */
  datatype Piece =
    | Plain(c: char)
    | Control(parameters: string, intermediates: string, final: char)
    | Command(payload: string, bell: bool)
    | Short(c: char)

  predicate WellFormed(p: Piece) {
    match p
    case Plain(c) => c != ESC
    case Control(ps, mids, f) =>
      && (forall i :: 0 <= i < |ps| ==> IsParameter(ps[i]))
      && (forall i :: 0 <= i < |mids| ==> IsIntermediate(mids[i]))
      && 0x40 as char <= f <= 0x7e as char
    case Command(payload, _) => ESC !in payload && BELL !in payload
    case Short(c) => c != '[' && c != ']'
  }

  function Written(p: Piece): (s: string)
    ensures s != []
  {
    match p
    case Plain(c) => [c]
    case Control(ps, mids, f) => [ESC, '['] + (ps + mids + [f])
    case Command(payload, bell) => [ESC, ']'] + (payload + if bell then [BELL] else [ESC, '\\'])
    case Short(c) => [ESC, c]
  }

  function Output(pieces: seq<Piece>): string {
    if pieces == [] then [] else Written(pieces[0]) + Output(pieces[1..])
  }

  function PlainOf(pieces: seq<Piece>): string {
    if pieces == [] then [] else (if pieces[0].Plain? then [pieces[0].c] else []) + PlainOf(pieces[1..])
  }

  lemma {:induction false} ControlEnds(body: string, f: char, rest: string)
    requires forall i :: 0 <= i < |body| ==> IsParameter(body[i]) || IsIntermediate(body[i])
    requires !IsParameter(f) && !IsIntermediate(f)
    ensures ControlLength(body + ([f] + rest)) == |body| + 1
  {
    if body == [] {
      assert body + ([f] + rest) == [f] + rest;
    } else {
      assert (body + ([f] + rest))[1..] == body[1..] + ([f] + rest);
      ControlEnds(body[1..], f, rest);
    }
  }

  lemma {:induction false} CommandEnds(payload: string, rest: string)
    requires ESC !in payload && BELL !in payload
    ensures CommandLength(payload + ([BELL] + rest)) == |payload| + 1
    ensures CommandLength(payload + ([ESC, '\\'] + rest)) == |payload| + 2
  {
    if payload == [] {
      assert payload + ([BELL] + rest) == [BELL] + rest;
      assert payload + ([ESC, '\\'] + rest) == [ESC, '\\'] + rest;
    } else {
      assert (payload + ([BELL] + rest))[1..] == payload[1..] + ([BELL] + rest);
      assert (payload + ([ESC, '\\'] + rest))[1..] == payload[1..] + ([ESC, '\\'] + rest);
      CommandEnds(payload[1..], rest);
    }
  }

  lemma SequenceIsSkipped(p: Piece, rest: string)
    requires WellFormed(p) && !p.Plain?
    ensures EscapeLength(Written(p) + rest) == |Written(p)|
  {
    match p {
      case Control(ps, mids, f) => ControlIsSkipped(ps + mids, f, rest);
      case Command(payload, bell) => CommandIsSkipped(payload, bell, rest);
      case Short(_) =>
    }
  }

  lemma ControlIsSkipped(body: string, f: char, rest: string)
    requires forall i :: 0 <= i < |body| ==> IsParameter(body[i]) || IsIntermediate(body[i])
    requires !IsParameter(f) && !IsIntermediate(f)
    ensures EscapeLength([ESC, '['] + (body + [f]) + rest) == |body| + 3
  {
    var s := [ESC, '['] + (body + [f]) + rest;
    ControlEnds(body, f, rest);
    assert s[2..] == body + ([f] + rest);
  }

  lemma CommandIsSkipped(payload: string, bell: bool, rest: string)
    requires ESC !in payload && BELL !in payload
    ensures EscapeLength([ESC, ']'] + (payload + if bell then [BELL] else [ESC, '\\']) + rest) == |payload| + if bell then 3 else 4
  {
    var end := if bell then [BELL] else [ESC, '\\'];
    var s := [ESC, ']'] + (payload + end) + rest;
    CommandEnds(payload, rest);
    assert s[2..] == payload + (end + rest);
  }

  /** Of any terminal output made of characters and well-formed sequences, exactly the characters stay. */
  lemma {:induction false} StripRemovesExactlySequences(pieces: seq<Piece>)
    requires forall i :: 0 <= i < |pieces| ==> WellFormed(pieces[i])
    ensures Strip(Output(pieces)) == PlainOf(pieces)
    decreases pieces
  {
    if pieces != [] {
      var p, rest := pieces[0], Output(pieces[1..]);
      StripRemovesExactlySequences(pieces[1..]);
      var s := Written(p) + rest;
      if p.Plain? {
        assert s[1..] == rest;
      } else {
        SequenceIsSkipped(p, rest);
        assert s[0] == ESC && s[|Written(p)|..] == rest;
      }
    }
  }

  // ---- ordinary output ------------------------------------------------------------------------------------

  /** A line of output and how it ends: with a line feed, or with a carriage return before it. */
  datatype OutputLine = OutputLine(text: string, carriage: bool)

  /** No escape sequence, no line break inside, and no carriage return of its own at the end. */
  predicate Ordinary(l: OutputLine) {
    ESC !in l.text && '\n' !in l.text && (l.text == [] || l.text[|l.text| - 1] != '\r')
  }

  function Raw(l: OutputLine): string {
    l.text + if l.carriage then "\r" else ""
  }

  function Ended(lines: seq<OutputLine>): string {
    if lines == [] then "" else Raw(lines[0]) + "\n" + Ended(lines[1..])
  }

  /** The texts that are not empty, in order. */
  function Shown(lines: seq<OutputLine>): seq<string> {
    if lines == [] then [] else (if lines[0].text != [] then [lines[0].text] else []) + Shown(lines[1..])
  }

  lemma CleanGivesTheText(l: OutputLine)
    requires Ordinary(l)
    ensures Clean(Raw(l)) == l.text && '\n' !in Raw(l)
  {
    PlainTextStays(l.text);
    if l.carriage {
      assert Raw(l)[..|l.text|] == l.text;
    } else {
      assert Raw(l) == l.text;
    }
  }

  lemma RawLineFirst(raw: string, rest: string)
    requires '\n' !in raw
    ensures Complete(raw + "\n" + rest) == [raw] + Complete(rest) && Tail(raw + "\n" + rest) == Tail(rest)
  {
    LineEndsAt(raw, rest);
    FirstLineIs(raw + "\n" + rest, raw, rest);
  }

  lemma {:induction false} OrdinaryLinesAreKept(lines: seq<OutputLine>, tail: string)
    requires (forall i :: 0 <= i < |lines| ==> Ordinary(lines[i])) && '\n' !in tail
    ensures Kept(Complete(Ended(lines) + tail)) == Shown(lines) && Tail(Ended(lines) + tail) == tail
    decreases lines
  {
    if lines == [] {
      assert Ended(lines) + tail == tail;
    } else {
      var raw, more := Raw(lines[0]), Ended(lines[1..]);
      var rest := more + tail;
      OrdinaryLinesAreKept(lines[1..], tail);
      CleanGivesTheText(lines[0]);
      ConcatAssociates(raw + "\n", more, tail);
      RawLineFirst(raw, rest);
      KeptMore(raw, Complete(rest));
    }
  }

  /** Ordinary output, written in any pieces: the buffer holds its newest lines as they are, the empty ones left out,
      up to its size, and the unfinished rest. */
  lemma NewestLinesAreHeld(writes: seq<string>, lines: seq<OutputLine>, tail: string, maxLines: nat)
    requires (forall i :: 0 <= i < |lines| ==> Ordinary(lines[i])) && '\n' !in tail
    requires Concat(writes) == Ended(lines) + tail
    ensures var held, shown := PushAll(View([], ""), writes, maxLines), Shown(lines);
            && held.pending == tail
            && |held.lines| == (if |shown| < maxLines then |shown| else maxLines)
            && held.lines == shown[|shown| - |held.lines|..]
  {
    HeldAreTheLast(writes, lines, tail, maxLines);
    LastAreNewest(Shown(lines), maxLines);
  }

  lemma HeldAreTheLast(writes: seq<string>, lines: seq<OutputLine>, tail: string, maxLines: nat)
    requires (forall i :: 0 <= i < |lines| ==> Ordinary(lines[i])) && '\n' !in tail
    requires Concat(writes) == Ended(lines) + tail
    ensures PushAll(View([], ""), writes, maxLines) == View(LastOf(Shown(lines), maxLines), tail)
  {
    BufferIgnoresSplits(writes, maxLines);
    OrdinaryLinesAreKept(lines, tail);
  }

  lemma LastAreNewest(lines: seq<string>, n: nat)
    ensures |LastOf(lines, n)| == (if |lines| < n then |lines| else n) && LastOf(lines, n) == lines[|lines| - |LastOf(lines, n)|..]
  {
  }
}
