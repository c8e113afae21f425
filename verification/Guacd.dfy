/**
 The client side of a guacd connection (server/lib/GuacdClient.js): the handshake, instructions printed
 with length prefixes, and the reassembly of a stream that is cut anywhere.
 */
module Guacd {
  import opened Chunks
  import opened Utf8
  import opened Wrappers

  // ---------------------------------------------------------------- instructions

  predicate IsDigit(c: char) {
    '0' <= c <= '9'
  }

  function Digit(n: nat): (c: char)
    requires n < 10
    ensures IsDigit(c)
  {
    ('0' as int + n) as char
  }

  function Decimal(n: nat): (s: string)
    ensures s != "" && forall i :: 0 <= i < |s| ==> IsDigit(s[i])
  {
    if n < 10 then [Digit(n)] else Decimal(n / 10) + [Digit(n % 10)]
  }

  function Value(s: string): nat
    requires forall i :: 0 <= i < |s| ==> IsDigit(s[i])
  {
    if s == "" then 0
    else
      assert IsDigit(s[|s| - 1]);
      10 * Value(s[..|s| - 1]) + (s[|s| - 1] as int - '0' as int)
  }

  function Element(p: string): string {
    Decimal(|p|) + "." + p
  }

  function Elements(parts: seq<string>): string
    requires parts != []
  {
    if |parts| == 1 then Element(parts[0]) else Element(parts[0]) + "," + Elements(parts[1..])
  }

  /** `sendOpCode` */
  function OpCode(parts: seq<string>): string
    requires parts != []
  {
    Elements(parts) + ";"
  }

  /** How many digits a text starts with. */
  function Digits(s: string): (n: nat)
    ensures n <= |s| && (forall i :: 0 <= i < n ==> IsDigit(s[i])) && (n < |s| ==> !IsDigit(s[n]))
  {
    if s == "" || !IsDigit(s[0]) then 0 else 1 + Digits(s[1..])
  }

  /** The receiving side: an element's text is as long as its prefix says, whatever it contains. */
  function ReadElement(s: string): (r: Option<(string, string)>)
    ensures r != None ==> |r.value.1| < |s|
  {
    var d := Digits(s);
    if d == 0 || d == |s| || s[d] != '.' then None
    else
      var n, rest := Value(s[..d]), s[d + 1..];
      if |rest| < n then None else Some((rest[..n], rest[n..]))
  }

  function ReadInstruction(s: string): Option<(seq<string>, string)>
    decreases |s|
  {
    var first := ReadElement(s);
    if first == None then None
    else
      var (part, rest) := first.value;
      if rest == "" then None
      else if rest[0] == ';' then Some(([part], rest[1..]))
      else if rest[0] == ',' then
        var more := ReadInstruction(rest[1..]);
        if more == None then None else Some(([part] + more.value.0, more.value.1))
      else None
  }

  lemma {:induction false} DecimalValue(n: nat)
    ensures Value(Decimal(n)) == n
  {
    if n >= 10 {
      DecimalValue(n / 10);
      var s := Decimal(n);
      assert s[..|s| - 1] == Decimal(n / 10);
    } else {
      assert [Digit(n)][..0] == "";
    }
  }

  lemma {:induction false} DigitsOf(s: string, rest: string)
    requires forall i :: 0 <= i < |s| ==> IsDigit(s[i])
    requires rest != "" && !IsDigit(rest[0])
    ensures Digits(s + rest) == |s|
  {
    if s == "" {
      assert s + rest == rest;
    } else {
      assert (s + rest)[1..] == s[1..] + rest;
      DigitsOf(s[1..], rest);
    }
  }

  lemma ElementReadsBack(p: string, rest: string)
    ensures ReadElement(Element(p) + rest) == Some((p, rest))
  {
    var d := Decimal(|p|);
    var tail := "." + (p + rest);
    assert Element(p) + rest == d + tail;
    DigitsOf(d, tail);
    DecimalValue(|p|);
    var s := d + tail;
    assert s[..|d|] == d && s[|d| + 1..] == p + rest;
    assert (p + rest)[..|p|] == p && (p + rest)[|p|..] == rest;
  }

  lemma ReadLast(p: string, rest: string)
    ensures ReadInstruction(Element(p) + (";" + rest)) == Some(([p], rest))
  {
    ElementReadsBack(p, ";" + rest);
    assert (";" + rest)[1..] == rest;
  }

  lemma ReadMore(p: string, parts: seq<string>, more: string, rest: string)
    requires ReadInstruction(more) == Some((parts, rest))
    ensures ReadInstruction(Element(p) + ("," + more)) == Some(([p] + parts, rest))
  {
    ElementReadsBack(p, "," + more);
    assert ("," + more)[1..] == more;
  }

  lemma OpCodeParts(parts: seq<string>, rest: string)
    requires parts != []
    ensures OpCode(parts) + rest
            == Element(parts[0]) + if |parts| == 1 then ";" + rest else "," + (OpCode(parts[1..]) + rest)
  {
  }

  lemma OpCodeStep(parts: seq<string>, text: string, more: string, rest: string)
    requires |parts| > 1 && text == Element(parts[0]) + ("," + more)
    requires ReadInstruction(more) == Some((parts[1..], rest))
    ensures ReadInstruction(text) == Some((parts, rest))
  {
    ReadMore(parts[0], parts[1..], more, rest);
    FirstAndRest(parts);
  }

  lemma FirstAndRest(parts: seq<string>)
    requires parts != []
    ensures [parts[0]] + parts[1..] == parts
  {
  }

  lemma OpCodeLast(parts: seq<string>, rest: string)
    requires |parts| == 1
    ensures ReadInstruction(OpCode(parts) + rest) == Some((parts, rest))
  {
    OpCodeParts(parts, rest);
    ReadLast(parts[0], rest);
    assert parts == [parts[0]];
  }

  /** A printed instruction reads back as its parts, whatever commas and semicolons they contain. */
  lemma {:induction false} OpCodeReadsBack(parts: seq<string>, rest: string)
    requires parts != []
    ensures ReadInstruction(OpCode(parts) + rest) == Some((parts, rest))
    decreases |parts|
  {
    if |parts| == 1 {
      OpCodeLast(parts, rest);
    } else {
      OpCodeReadsBack(parts[1..], rest);
      OpCodeParts(parts, rest);
      OpCodeStep(parts, OpCode(parts) + rest, OpCode(parts[1..]) + rest, rest);
    }
  }

  // ---------------------------------------------------------------- the handshake reply

  /** `handshake.split(",")` */
  function SplitCommas(s: string): (parts: seq<string>)
    ensures parts != []
  {
    if s == "" then [""]
    else
      var rest := SplitCommas(s[1..]);
      if s[0] == ',' then [""] + rest else [[s[0]] + rest[0]] + rest[1..]
  }

  /** `attr.substring(attr.indexOf(".") + 1)`: without a dot, all of it. */
  function AfterDot(s: string): string {
    if '.' !in s then s else if s[0] == '.' then s[1..] else AfterDot(s[1..])
  }

  /** The values of one connect instruction: blank when joining, otherwise looked up by name. */
  function Values(attributes: seq<string>, join: bool, settings: map<string, string>): (values: seq<string>)
    ensures |values| == |attributes|
    ensures forall i :: 0 <= i < |values| ==>
              values[i] == if !join && AfterDot(attributes[i]) in settings then settings[AfterDot(attributes[i])] else ""
  {
    if attributes == [] then []
    else
      var name := AfterDot(attributes[0]);
      [if !join && name in settings then settings[name] else ""] + Values(attributes[1..], join, settings)
  }

  datatype Config = Config(isMaster: bool, join: bool, size: seq<string>, audio: seq<string>, settings: map<string, string>)

  function Reply(c: Config, handshake: string): (r: seq<seq<string>>)
    ensures forall i :: 0 <= i < |r| ==> r[i] != []
  {
    [["size"] + c.size, ["audio"] + c.audio, ["video"], ["image"],
     ["connect"] + Values(SplitCommas(handshake)[1..], c.join, c.settings)]
  }

  function OpCodes(instructions: seq<seq<string>>): string
    requires forall i :: 0 <= i < |instructions| ==> instructions[i] != []
  {
    if instructions == [] then "" else OpCode(instructions[0]) + OpCodes(instructions[1..])
  }

  function ReadInstructions(s: string, n: nat): Option<seq<seq<string>>>
    decreases n
  {
    if n == 0 then if s == "" then Some([]) else None
    else
      var first := ReadInstruction(s);
      if first == None then None
      else
        var more := ReadInstructions(first.value.1, n - 1);
        if more == None then None else Some([first.value.0] + more.value)
  }

  lemma {:induction false} OpCodesReadBack(instructions: seq<seq<string>>)
    requires forall i :: 0 <= i < |instructions| ==> instructions[i] != []
    ensures ReadInstructions(OpCodes(instructions), |instructions|) == Some(instructions)
  {
    if instructions != [] {
      OpCodeReadsBack(instructions[0], OpCodes(instructions[1..]));
      OpCodesReadBack(instructions[1..]);
      assert [instructions[0]] + instructions[1..] == instructions;
    }
  }

  // ---------------------------------------------------------------- blocks

  /** The length of the text up to its last semicolon, inclusive. */
  function SentLength(s: string): (n: nat)
    ensures n <= |s| && (n > 0 ==> s[n - 1] == ';') && forall i :: n <= i < |s| ==> s[i] != ';'
    decreases |s|
  {
    if s == "" then 0 else if s[|s| - 1] == ';' then |s| else SentLength(s[..|s| - 1])
  }

  function Sent(s: string): string {
    s[..SentLength(s)]
  }

  function Kept(s: string): string {
    s[SentLength(s)..]
  }

  lemma SentLengthIs(s: string, n: nat)
    requires n <= |s| && (n > 0 ==> s[n - 1] == ';') && forall i :: n <= i < |s| ==> s[i] != ';'
    ensures SentLength(s) == n
  {
  }

  /** What was kept and what comes next is cut as if it had come together. */
  lemma SentAppend(a: string, b: string)
    ensures Sent(a + b) == Sent(a) + Sent(Kept(a) + b)
    ensures Kept(a + b) == Kept(Kept(a) + b)
  {
    SentLengthAppend(a, b);
    KeptAppend(a, b, SentLength(a), SentLength(Kept(a) + b));
  }

  lemma KeptAppend(a: string, b: string, n: nat, m: nat)
    requires n <= |a| && m <= |a[n..] + b|
    ensures (a + b)[..n + m] == a[..n] + (a[n..] + b)[..m]
    ensures (a + b)[n + m..] == (a[n..] + b)[m..]
  {
    assert a + b == a[..n] + (a[n..] + b);
  }

  predicate Whole(s: string) {
    s == "" || s[|s| - 1] == ';'
  }

  lemma SentLengthTail(front: string, tail: string)
    requires Whole(front)
    ensures SentLength(front + tail) == |front| + SentLength(tail)
  {
    var s, m := front + tail, SentLength(tail);
    forall i | |front| + m <= i < |s|
      ensures s[i] != ';'
    {
      assert s[i] == tail[i - |front|];
    }
    assert m > 0 ==> s[|front| + m - 1] == tail[m - 1];
    assert front != "" ==> s[|front| - 1] == front[|front| - 1];
    SentLengthIs(s, |front| + m);
  }

  lemma SentLengthAppend(a: string, b: string)
    ensures SentLength(a + b) == SentLength(a) + SentLength(Kept(a) + b)
  {
    assert a + b == Sent(a) + (Kept(a) + b);
    SentLengthTail(Sent(a), Kept(a) + b);
  }

  function FirstSemicolon(s: string): (i: nat)
    requires ';' in s
    ensures i < |s| && s[i] == ';' && forall j :: 0 <= j < i ==> s[j] != ';'
  {
    if s[0] == ';' then 0 else 1 + FirstSemicolon(s[1..])
  }

  /** What follows the handshake. */
  function AfterHandshake(s: string): string
    requires ';' in s
  {
    s[FirstSemicolon(s) + 1..]
  }

  // ---------------------------------------------------------------- what the client looks for

  predicate StartsWith(s: string, prefix: string) {
    |prefix| <= |s| && s[..|prefix|] == prefix
  }

  /** `\d\.error,(\d+)\.([^,]+),` at the start of the text. */
  predicate ErrorAt(s: string) {
    && s != "" && IsDigit(s[0]) && StartsWith(s[1..], ".error,")
    && var t := s[8..];
       var d := Digits(t);
       d > 0 && d + 1 < |t| && t[d] == '.' && t[d + 1] != ',' && ',' in t[d + 1..]
  }

  predicate ErrorIn(s: string) {
    s != "" && (ErrorAt(s) || ErrorIn(s[1..]))
  }

  /** `5\.ready,(\d+)\.([^;]+);` at the start of the text: the second group. */
  function ReadyAt(s: string): (id: Option<string>)
    ensures id != None ==> id.value != ""
  {
    if !StartsWith(s, "5.ready,") then None
    else
      var t := s[8..];
      var d := Digits(t);
      if d == 0 || d == |t| || t[d] != '.' || ';' !in t[d + 1..] then None
      else
        var i := FirstSemicolon(t[d + 1..]);
        if i == 0 then None else Some(t[d + 1..][..i])
  }

  function FirstReady(s: string): (id: Option<string>)
    ensures id != None ==> id.value != ""
  {
    if s == "" then None else if ReadyAt(s) != None then ReadyAt(s) else FirstReady(s[1..])
  }

  // ---------------------------------------------------------------- the client

  datatype Phase = Connecting | Open | Closed

  /** `written`, `forwarded` and `reported` are history: what went to guacd, to the browser and to the session. */
  datatype State = State(
    phase: Phase, buffer: string, connectionId: Option<string>,
    written: string, forwarded: string, reported: seq<string>)

  const STARTED := State(Connecting, "", None, "", "", [])

  function Process(c: Config, s: State): State {
    if ';' !in s.buffer then s
    else
      var block := Sent(s.buffer);
      var t := s.(buffer := Kept(s.buffer));
      if ErrorIn(block) then t.(phase := Closed)
      else
        var ready := FirstReady(block);
        var found := c.isMaster && s.connectionId == None && ready != None;
        t.(connectionId := if found then ready else s.connectionId,
           reported := if found then s.reported + [ready.value] else s.reported,
           forwarded := s.forwarded + block)
  }

  function CompleteHandshake(c: Config, s: State): State
    requires ';' in s.buffer
  {
    s.(phase := Open, buffer := AfterHandshake(s.buffer),
       written := s.written + OpCodes(Reply(c, s.buffer[..FirstSemicolon(s.buffer)])))
  }

  /** A closed client has no listeners left. */
  function Receive(c: Config, s: State, data: string): State {
    var t := s.(buffer := s.buffer + data);
    match s.phase
    case Closed => s
    case Connecting => if ';' in t.buffer then Process(c, CompleteHandshake(c, t)) else t
    case Open => Process(c, t)
  }

  function ReceiveAll(c: Config, s: State, chunks: seq<string>): State
    decreases |chunks|
  {
    if chunks == [] then s else ReceiveAll(c, Receive(c, s, chunks[0]), chunks[1..])
  }

  // ---------------------------------------------------------------- the class

  class GuacdClient {
    const config: Config
    var phase: Phase
    var receivedBuffer: string
    var guacdConnectionId: Option<string>
    ghost var written: string
    ghost var forwarded: string
    ghost var reported: seq<string>

    ghost function Now(): State
      reads this
    {
      State(phase, receivedBuffer, guacdConnectionId, written, forwarded, reported)
    }

    constructor (c: Config)
      ensures Now() == STARTED && config == c
    {
      config, phase, receivedBuffer, guacdConnectionId := c, Connecting, "", None;
      written, forwarded, reported := "", "", [];
    }

    /** Adding a buffer to a string decodes the buffer by itself. */
    method OnData(data: seq<Byte>)
      modifies this
      ensures Now() == Receive(config, old(Now()), Decode(data))
    {
      if phase == Closed {
        return;
      }
      receivedBuffer := receivedBuffer + Decode(data);
      if phase == Connecting {
        if ';' in receivedBuffer {
          FinishHandshake();
        }
        return;
      }
      ProcessData();
    }

    method FinishHandshake()
      requires ';' in receivedBuffer
      modifies this
      ensures Now() == Process(config, CompleteHandshake(config, old(Now())))
    {
      var delimiter := FirstSemicolon(receivedBuffer);
      var serverHandshake := receivedBuffer[..delimiter];
      receivedBuffer := receivedBuffer[delimiter + 1..];
      written := written + OpCodes(Reply(config, serverHandshake));
      phase := Open;
      assert Now() == CompleteHandshake(config, old(Now()));
      ProcessData();
    }

    /** Scans backwards for the last delimiter. */
    method LastSemicolon(s: string) returns (i: int)
      ensures i == SentLength(s) - 1
    {
      i := |s| - 1;
      while i >= 0 && s[i] != ';'
        invariant -1 <= i < |s| && forall j :: i < j < |s| ==> s[j] != ';'
      {
        i := i - 1;
      }
      SentLengthIs(s, i + 1);
    }

    method ProcessData()
      modifies this
      ensures Now() == Process(config, old(Now()))
    {
      var delimiter := LastSemicolon(receivedBuffer);
      if delimiter == -1 {
        return;
      }
      assert receivedBuffer[delimiter] == ';';
      var dataToSend := receivedBuffer[..delimiter + 1];
      receivedBuffer := receivedBuffer[delimiter + 1..];
      if ErrorIn(dataToSend) {
        phase := Closed;
        return;
      }
      if config.isMaster && guacdConnectionId == None {
        guacdConnectionId := FirstReady(dataToSend);
        if guacdConnectionId != None {
          reported := reported + [guacdConnectionId.value];
        }
      }
      forwarded := forwarded + dataToSend;
    }
  }
}
