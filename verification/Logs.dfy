/** The bounded copy of recent log lines, free of terminal escape sequences (ECMA-48, section 5.4). */
module Logs {
  import opened Text

  const ESC := 0x1b as char
  const BELL := 0x07 as char

  // ---- escape sequences -----------------------------------------------------------------------------------

  predicate IsParameter(c: char) {
    0x30 as char <= c <= 0x3f as char
  }

  predicate IsIntermediate(c: char) {
    0x20 as char <= c <= 0x2f as char
  }

  /** How much of the text a control sequence takes after its introducer. */
  function ControlLength(s: string): (n: nat)
    ensures n <= |s|
  {
    if s == [] then 0
    else if IsParameter(s[0]) || IsIntermediate(s[0]) then 1 + ControlLength(s[1..])
    else 1
  }

  /** How much of the text an operating system command takes after its introducer. */
  function CommandLength(s: string): (n: nat)
    ensures n <= |s|
  {
    if s == [] then 0
    else if s[0] == BELL then 1
    else if s[0] == ESC then (if |s| > 1 && s[1] == '\\' then 2 else 1)
    else 1 + CommandLength(s[1..])
  }

  /** How much an escape sequence takes, from its ESC on. */
  function EscapeLength(s: string): (n: nat)
    requires s != []
    ensures 1 <= n <= |s|
  {
    if |s| == 1 then 1
    else if s[1] == '[' then 2 + ControlLength(s[2..])
    else if s[1] == ']' then 2 + CommandLength(s[2..])
    else 2
  }

  function Strip(s: string): string {
    if s == [] then []
    else if s[0] != ESC then [s[0]] + Strip(s[1..])
    else Strip(s[EscapeLength(s)..])
  }

  method StripAnsi(input: string) returns (out: string)
    ensures out == Strip(input)
  {
    out := [];
    var pos := 0;
    while pos < |input|
      invariant pos <= |input|
      invariant out + Strip(input[pos..]) == Strip(input)
    {
      ghost var rest := input[pos..];
      var c := input[pos];
      pos := pos + 1;
      if c != ESC {
        out := out + [c];
        assert rest[1..] == input[pos..];
      } else if pos < |input| {
        if input[pos] == '[' {
          pos := SkipControl(input, pos + 1);
        } else if input[pos] == ']' {
          pos := SkipCommand(input, pos + 1);
        } else {
          pos := pos + 1;
        }
        assert rest[2..] == input[|input| - |rest| + 2..];
        assert rest[EscapeLength(rest)..] == input[pos..];
      } else {
        assert rest[EscapeLength(rest)..] == [] && input[pos..] == [];
      }
    }
    assert input[pos..] == [];
  }

  method SkipControl(input: string, start: nat) returns (pos: nat)
    requires start <= |input|
    ensures pos == start + ControlLength(input[start..])
  {
    pos := start;
    while pos < |input|
      invariant start <= pos <= |input|
      invariant pos + ControlLength(input[pos..]) == start + ControlLength(input[start..])
    {
      var c := input[pos];
      assert input[pos..][1..] == input[pos + 1..];
      pos := pos + 1;
      if !IsParameter(c) && !IsIntermediate(c) {
        return;
      }
    }
  }

  method SkipCommand(input: string, start: nat) returns (pos: nat)
    requires start <= |input|
    ensures pos == start + CommandLength(input[start..])
  {
    pos := start;
    while pos < |input|
      invariant start <= pos <= |input|
      invariant pos + CommandLength(input[pos..]) == start + CommandLength(input[start..])
    {
      var c := input[pos];
      assert input[pos..][1..] == input[pos + 1..];
      pos := pos + 1;
      if c == BELL {
        return;
      }
      if c == ESC {
        if pos < |input| && input[pos] == '\\' {
          pos := pos + 1;
        }
        return;
      }
    }
  }

  // ---- lines ----------------------------------------------------------------------------------------------

  /** The lines that a newline ends. */
  function Complete(s: string): seq<string> {
    var n := IndexOf(s, '\n');
    if n == |s| then [] else [s[..n]] + Complete(s[n + 1..])
  }

  /** What no newline ends yet. */
  function Tail(s: string): string {
    var n := IndexOf(s, '\n');
    if n == |s| then s else Tail(s[n + 1..])
  }

  /** One trailing carriage return goes, then the escape sequences. */
  function Clean(line: string): string {
    Strip(if line != [] && line[|line| - 1] == '\r' then line[..|line| - 1] else line)
  }

  /** The cleaned lines that have something left. */
  function Kept(lines: seq<string>): seq<string> {
    if lines == [] then []
    else (if Clean(lines[0]) != [] then [Clean(lines[0])] else []) + Kept(lines[1..])
  }

  function LastOf(lines: seq<string>, n: nat): seq<string> {
    if |lines| <= n then lines else lines[|lines| - n..]
  }

  datatype View = View(lines: seq<string>, pending: string)

  function Push(v: View, text: string, maxLines: nat): View {
    View(LastOf(v.lines + Kept(Complete(v.pending + text)), maxLines), Tail(v.pending + text))
  }

  class LogBuffer {
    var lines: seq<string>
    var pending: string
    const maxLines: nat

    ghost predicate Valid()
      reads this
    {
      1 <= maxLines && |lines| <= maxLines
    }

    ghost function Contents(): View
      reads this
    {
      View(lines, pending)
    }

    constructor (maxLines: nat)
      ensures Valid() && Contents() == View([], "")
      ensures this.maxLines == if maxLines < 1 then 1 else maxLines
    {
      this.maxLines := if maxLines < 1 then 1 else maxLines;
      lines := [];
      pending := "";
    }

    method PushBytes(text: string)
      requires Valid()
      modifies this
      ensures Valid() && Contents() == Push(old(Contents()), text, maxLines)
    {
      pending := pending + text;
      ghost var all := pending;
      while '\n' in pending
        invariant Valid()
        invariant Tail(pending) == Tail(all)
        invariant LastOf(lines + Kept(Complete(pending)), maxLines) == LastOf(old(lines) + Kept(Complete(all)), maxLines)
        decreases |pending|
      {
        var n := IndexOf(pending, '\n');
        NextLine(lines, pending, maxLines);
        var line := pending[..n];
        pending := pending[n + 1..];
        if line != [] && line[|line| - 1] == '\r' {
          line := line[..|line| - 1];
        }
        line := StripAnsi(line);
        if line != [] {
          Retain(line);
        }
      }
    }

    method Retain(line: string)
      requires Valid()
      modifies this
      ensures Valid() && pending == old(pending)
      ensures lines == LastOf(old(lines) + [line], maxLines)
    {
      lines := lines + [line];
      while |lines| > maxLines
        invariant pending == old(pending)
        invariant LastOf(lines, maxLines) == LastOf(old(lines) + [line], maxLines)
      {
        lines := lines[1..];
      }
    }

    /** The lines held, oldest first. */
    method Lines() returns (snapshot: seq<string>)
      ensures snapshot == Contents().lines
    {
      snapshot := lines;
    }
  }

  function Retained(lines: seq<string>, line: string, maxLines: nat): seq<string> {
    if line == [] then lines else LastOf(lines + [line], maxLines)
  }

  lemma NextLine(lines: seq<string>, s: string, maxLines: nat)
    requires '\n' in s
    ensures IndexOf(s, '\n') < |s| && Tail(s) == Tail(s[IndexOf(s, '\n') + 1..])
    ensures LastOf(lines + Kept(Complete(s)), maxLines) ==
            LastOf(Retained(lines, Clean(s[..IndexOf(s, '\n')]), maxLines) + Kept(Complete(s[IndexOf(s, '\n') + 1..])), maxLines)
  {
    var n := IndexOf(s, '\n');
    FirstLine(s);
    KeptMore(s[..n], Complete(s[n + 1..]));
    RetainedFirst(lines, Clean(s[..n]), Kept(Complete(s[n + 1..])), maxLines);
  }

  lemma FirstComplete(s: string)
    requires '\n' in s
    ensures Complete(s) == [s[..IndexOf(s, '\n')]] + Complete(s[IndexOf(s, '\n') + 1..])
  {
  }

  lemma SameTail(s: string)
    requires '\n' in s
    ensures Tail(s) == Tail(s[IndexOf(s, '\n') + 1..])
  {
  }

  lemma FirstLine(s: string)
    requires '\n' in s
    ensures var n := IndexOf(s, '\n'); n < |s| && Complete(s) == [s[..n]] + Complete(s[n + 1..]) && Tail(s) == Tail(s[n + 1..])
  {
    FirstComplete(s);
    SameTail(s);
  }

  lemma KeptMore(line: string, lines: seq<string>)
    ensures Kept([line] + lines) == (if Clean(line) != [] then [Clean(line)] else []) + Kept(lines)
  {
    assert ([line] + lines)[1..] == lines;
  }

  lemma RetainedFirst(lines: seq<string>, line: string, more: seq<string>, maxLines: nat)
    ensures LastOf(lines + ((if line != [] then [line] else []) + more), maxLines) ==
            LastOf(Retained(lines, line, maxLines) + more, maxLines)
  {
    if line != [] {
      DropOldest(lines + [line], more, maxLines);
      assert lines + [line] + more == lines + ([line] + more);
    } else {
      assert lines + ([] + more) == lines + more;
    }
  }

  /** Dropping the oldest lines early loses nothing that would be kept. */
  lemma DropOldest(lines: seq<string>, more: seq<string>, n: nat)
    ensures LastOf(LastOf(lines, n) + more, n) == LastOf(lines + more, n)
  {
  }
}
