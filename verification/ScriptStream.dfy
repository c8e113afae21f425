/**
 Reassembling a running script's terminal output into lines (server/lib/ScriptLayer.js). Output arrives
 in buffers of any size, and each one is decoded and searched for password prompts on its own.
 */
module ScriptStream {
  import opened ScriptText
  import opened Utf8

  // ---------------------------------------------------------------- lines

  /** `buffer.split("\n")`: the complete lines, and the last piece, which stays in the buffer. */
  function Cut(s: string): (seq<string>, string) {
    if s == "" then ([], "")
    else
      var (lines, rest) := Cut(s[1..]);
      if s[0] == '\n' then ([""] + lines, rest)
      else if lines == [] then ([], [s[0]] + rest)
      else ([[s[0]] + lines[0]] + lines[1..], rest)
  }

  /** Each complete line with its terminator. */
  function Ended(lines: seq<string>): string {
    if lines == [] then "" else lines[0] + "\n" + Ended(lines[1..])
  }

  lemma EndedFirst(c: char, lines: seq<string>)
    requires lines != []
    ensures Ended([[c] + lines[0]] + lines[1..]) == [c] + Ended(lines)
  {
    var longer := [[c] + lines[0]] + lines[1..];
    assert longer[1..] == lines[1..];
    assert [c] + lines[0] + "\n" + Ended(lines[1..]) == [c] + (lines[0] + "\n" + Ended(lines[1..]));
  }

  lemma EndedEmpty(lines: seq<string>)
    ensures Ended([""] + lines) == "\n" + Ended(lines)
  {
    assert ([""] + lines)[1..] == lines;
  }

  /** Cutting loses nothing. */
  lemma {:induction false} CutIsExact(s: string)
    ensures Ended(Cut(s).0) + Cut(s).1 == s
  {
    if s != "" {
      CutIsExact(s[1..]);
      var (lines, rest) := Cut(s[1..]);
      assert s == [s[0]] + s[1..];
      if s[0] == '\n' {
        EndedEmpty(lines);
        assert "\n" + Ended(lines) + rest == "\n" + (Ended(lines) + rest);
      } else if lines != [] {
        EndedFirst(s[0], lines);
        assert [s[0]] + Ended(lines) + rest == [s[0]] + (Ended(lines) + rest);
      } else {
        assert Ended([]) + ([s[0]] + rest) == [s[0]] + (Ended(lines) + rest);
      }
    }
  }

  lemma LongerFirst(c: char, lines: seq<string>, more: seq<string>)
    requires lines != []
    ensures [[c] + (lines + more)[0]] + (lines + more)[1..] == [[c] + lines[0]] + lines[1..] + more
  {
  }

  /** Cutting the rest together with what comes next continues the cut. */
  lemma {:induction false} CutAppend(a: string, b: string)
    ensures Cut(a + b).0 == Cut(a).0 + Cut(Cut(a).1 + b).0
    ensures Cut(a + b).1 == Cut(Cut(a).1 + b).1
  {
    if a == "" {
      assert a + b == b;
    } else {
      assert (a + b)[1..] == a[1..] + b;
      CutAppend(a[1..], b);
      var (lines, rest) := Cut(a[1..]);
      var more := Cut(rest + b).0;
      if a[0] == '\n' {
        assert [""] + (lines + more) == [""] + lines + more;
      } else if lines == [] {
        assert lines + more == more;
        assert ([a[0]] + rest + b)[1..] == rest + b;
      } else {
        LongerFirst(a[0], lines, more);
      }
    }
  }

  // ---------------------------------------------------------------- the layer

  /** `handled` is history: the lines given to `processLine`, in order; `asked` counts password prompts. */
  datatype State = State(buffer: string, running: bool, listening: bool, handled: seq<string>, asked: nat)

  const STARTED := State("", true, true, [], 0)

  predicate Includes(s: string, part: string) {
    StartsWith(s, part) || (s != "" && Includes(s[1..], part))
  }

  predicate IsSudoPrompt(output: string) {
    || Includes(output, "[sudo] password for") || Includes(output, "Password:")
    || Includes(output, "sudo: a password is required") || Includes(output, "sudo: a terminal is required")
  }

  predicate IsEnd(line: string) {
    var d := ProcessLine(line);
    d.OtherDirective? && d.name == "END"
  }

  /** The unfinished line that the end of the script handles, unless it is blank. */
  function Leftover(buffer: string): seq<string> {
    if Trim(buffer) != "" then [buffer] else []
  }

  /** The end of the script: the unfinished line is handled at once and the listener is removed. */
  function End(s: State): State {
    if !s.running then s
    else s.(buffer := "", running := false, listening := false, handled := s.handled + Leftover(s.buffer))
  }

  function HandleLine(s: State, line: string): State {
    var t := s.(handled := s.handled + [line]);
    if IsEnd(line) then End(t) else t
  }

  /** `lines.forEach(...)` does not stop at the end of the script. */
  function HandleLines(s: State, lines: seq<string>): State
    decreases |lines|
  {
    if lines == [] then s else HandleLines(HandleLine(s, lines[0]), lines[1..])
  }

  /** A chunk that holds a password prompt asks for the password and goes nowhere else. */
  function Receive(s: State, chunk: string): State {
    if !s.listening then s
    else if IsSudoPrompt(chunk) then s.(asked := s.asked + 1)
    else
      var (lines, rest) := Cut(s.buffer + chunk);
      HandleLines(s.(buffer := rest), lines)
  }

  function ReceiveAll(s: State, chunks: seq<string>): State
    decreases |chunks|
  {
    if chunks == [] then s else ReceiveAll(Receive(s, chunks[0]), chunks[1..])
  }

  // ---------------------------------------------------------------- the class

  class ScriptLayer {
    var buffer: string
    var running: bool
    var listening: bool
    ghost var handled: seq<string>
    ghost var asked: nat

    ghost function Now(): State
      reads this
    {
      State(buffer, running, listening, handled, asked)
    }

    constructor ()
      ensures Now() == STARTED
    {
      buffer, running, listening, handled, asked := "", true, true, [], 0;
    }

    /** `data.toString()` decodes the buffer by itself. */
    method OnData(data: seq<Byte>)
      modifies this
      ensures Now() == Receive(old(Now()), Decode(data))
    {
      if !listening {
        return;
      }
      var output := Decode(data);
      if IsSudoPrompt(output) {
        asked := asked + 1;
        return;
      }
      buffer := buffer + output;
      var (lines, rest) := Cut(buffer);
      buffer := rest;
      ghost var start := Now();
      for i := 0 to |lines|
        invariant HandleLines(Now(), lines[i..]) == HandleLines(start, lines)
      {
        assert lines[i..][1..] == lines[i + 1..];
        OnLine(lines[i]);
      }
    }

    method OnLine(line: string)
      modifies this
      ensures Now() == HandleLine(old(Now()), line)
    {
      handled := handled + [line];
      if IsEnd(line) {
        HandleEnd();
      }
    }

    /** The unfinished line is handled after `running` is cleared, so an end marker in it has no effect. */
    method HandleEnd()
      modifies this
      ensures Now() == End(old(Now()))
    {
      if !running {
        return;
      }
      running := false;
      handled := handled + Leftover(buffer);
      buffer := "";
      listening := false;
    }
  }
}
