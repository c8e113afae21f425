/**
 The two instructions that the client itself acts on: the ready instruction of a master, and errors.
 */
module GuacdMessages {
  import opened Chunks
  import opened Guacd
  import opened GuacdStream
  import opened GuacdHandshake
  import opened Wrappers

  // ---------------------------------------------------------------- ready

  lemma ReadyParts(name: string, digits: string, id: string, rest: string)
    ensures name + "," + (digits + "." + id) + ";" + rest == name + "," + (digits + ("." + (id + (";" + rest))))
  {
  }

  lemma ElementsTwo(a: string, b: string)
    ensures Elements([a, b]) == Element(a) + "," + Element(b)
  {
    assert [a, b][1..] == [b];
  }

  lemma ReadyName()
    ensures Element("ready") == "5.ready" && Element("error") == "5.error"
  {
    assert Decimal(5) == "5";
  }

  lemma ReadyText(id: string, rest: string)
    ensures OpCode(["ready", id]) + rest == "5.ready" + "," + (Decimal(|id|) + ("." + (id + (";" + rest))))
  {
    ElementsTwo("ready", id);
    ReadyName();
    ReadyParts(Element("ready"), Decimal(|id|), id, rest);
  }

  lemma IdOf(id: string, rest: string)
    requires id != "" && ';' !in id
    ensures var u := id + (";" + rest); ';' in u && FirstSemicolon(u) == |id| && u[..|id|] == id
  {
    FirstIs(id + (";" + rest), |id|);
  }

  lemma AfterDigits(digits: string, u: string)
    requires forall i :: 0 <= i < |digits| ==> IsDigit(digits[i])
    ensures var t := digits + ("." + u);
            Digits(t) == |digits| && t[|digits|] == '.' && t[|digits| + 1..] == u
  {
    DigitsOf(digits, "." + u);
  }

  lemma ReadyHere(s: string, t: string, digits: string, u: string, id: string)
    requires s == "5.ready" + "," + t && t == digits + ("." + u)
    requires digits != "" && forall i :: 0 <= i < |digits| ==> IsDigit(digits[i])
    requires ';' in u && FirstSemicolon(u) == |id| && id != "" && u[..|id|] == id
    ensures ReadyAt(s) == Some(id)
  {
    assert s[..8] == "5.ready," && s[8..] == t;
    AfterDigits(digits, u);
  }

  /** The ready instruction is read as its id. */
  lemma ReadyIsRead(id: string, rest: string)
    requires id != "" && ';' !in id
    ensures FirstReady(OpCode(["ready", id]) + rest) == Some(id)
  {
    var d, u := Decimal(|id|), id + (";" + rest);
    ReadyText(id, rest);
    IdOf(id, rest);
    ReadyHere(OpCode(["ready", id]) + rest, d + ("." + u), d, u, id);
  }

  lemma WholeFirst(first: string, rest: string)
    requires Whole(first)
    ensures Sent(first + rest) == first + Sent(rest)
  {
    SentLengthTail(first, rest);
  }

  /** A master reports the id of a ready instruction that comes first, under every cut, and nobody else reports one. */
  lemma ReadyIsReported(c: Config, chunks: seq<string>, id: string, rest: string)
    requires id != "" && ';' !in id && ';' in Concat(chunks)
    requires AfterHandshake(Concat(chunks)) == OpCode(["ready", id]) + rest
    requires !ErrorIn(Sent(OpCode(["ready", id]) + rest))
    ensures ReceiveAll(c, STARTED, chunks).reported == if c.isMaster then [id] else []
    ensures ReceiveAll(c, STARTED, chunks).connectionId == if c.isMaster then Some(id) else None
  {
    RunTracks(c, chunks);
    ReadyComesFirst(id, rest);
  }

  lemma ReadyComesFirst(id: string, rest: string)
    requires id != "" && ';' !in id
    ensures FirstReady(Sent(OpCode(["ready", id]) + rest)) == Some(id)
  {
    WholeFirst(OpCode(["ready", id]), rest);
    ReadyIsRead(id, Sent(rest));
  }

  // ---------------------------------------------------------------- errors

  lemma ErrorParts(name: string, digits: string, message: string, last: string)
    ensures name + "," + ((digits + "." + message) + "," + last) + ";"
         == name + "," + (digits + ("." + (message + ("," + (last + ";")))))
  {
  }

  lemma ElementsThree(a: string, b: string, c: string)
    ensures Elements([a, b, c]) == Element(a) + "," + (Element(b) + "," + Element(c))
  {
    assert [a, b, c][1..] == [b, c];
    ElementsTwo(b, c);
  }

  lemma ErrorText(message: string, code: string)
    ensures OpCode(["error", message, code])
            == "5.error" + "," + (Decimal(|message|) + ("." + (message + ("," + (Element(code) + ";")))))
  {
    ElementsThree("error", message, code);
    ReadyName();
    ErrorParts(Element("error"), Decimal(|message|), message, Element(code));
  }

  lemma ErrorHere(s: string, t: string, digits: string, u: string)
    requires s == "5.error" + "," + t && t == digits + ("." + u)
    requires digits != "" && forall i :: 0 <= i < |digits| ==> IsDigit(digits[i])
    requires u != "" && u[0] != ',' && ',' in u
    ensures ErrorAt(s)
  {
    assert s[0] == '5' && s[1..][..7] == ".error," && s[8..] == t;
    AfterDigits(digits, u);
    assert t[|digits| + 1] == t[|digits| + 1..][0];
  }

  lemma ErrorRead(message: string, code: string)
    requires message != "" && message[0] != ','
    ensures ErrorIn(OpCode(["error", message, code]))
  {
    ErrorText(message, code);
    var u := message + ("," + (Element(code) + ";"));
    assert u[|message|] == ',';
    ErrorHere(OpCode(["error", message, code]), Decimal(|message|) + ("." + u), Decimal(|message|), u);
  }

  /** An error instruction with a message is recognised wherever it stands. */
  lemma ErrorIsSeen(before: string, message: string, code: string, rest: string)
    requires message != "" && message[0] != ','
    ensures ErrorIn(before + OpCode(["error", message, code]) + rest)
  {
    ErrorRead(message, code);
    ErrorInLater(before, OpCode(["error", message, code]));
    ErrorInLonger(before + OpCode(["error", message, code]), rest);
  }

  predicate OneInstruction(s: string) {
    s != "" && s[|s| - 1] == ';' && ';' !in s[..|s| - 1]
  }

  /** A slice that starts before an instruction and ends after it holds it. */
  lemma SliceHolds(all: string, n: nat, m: nat, k: nat, part: string)
    requires n <= k && k + |part| <= m <= |all| && all[k..k + |part|] == part
    ensures all[n..m] == all[n..k] + part + all[k + |part|..m]
  {
  }

  /** No cut between blocks falls inside an instruction. */
  lemma NoCutInside(all: string, k: nat, part: string, n: nat)
    requires OneInstruction(part) && k + |part| <= |all| && all[k..k + |part|] == part
    requires 0 < n <= |all| && all[n - 1] == ';'
    ensures n <= k || k + |part| <= n
  {
    var inner := part[..|part| - 1];
    forall i | k <= i < k + |part| - 1
      ensures all[i] != ';'
    {
      assert all[i] == all[k..k + |part|][i - k] == inner[i - k];
      assert inner[i - k] in inner;
    }
  }

  lemma SentEnds(s: string)
    ensures Sent(s) == s[..|Sent(s)|] && (Sent(s) != "" ==> s[|Sent(s)| - 1] == ';')
    ensures forall i :: |Sent(s)| <= i < |s| ==> s[i] != ';'
  {
  }

  /** The block that brings the end of an instruction holds all of it. */
  lemma BlockHolds(was: string, data: string, k: nat, part: string)
    requires OneInstruction(part) && k + |part| <= |was + data| && (was + data)[k..k + |part|] == part
    requires |Sent(was)| < k + |part|
    ensures var m := |Sent(was + data)|;
            |Sent(was)| <= k && k + |part| <= m
            && Sent(Kept(was) + data) == (was + data)[|Sent(was)|..k] + part + (was + data)[k + |part|..m]
  {
    var all, n := was + data, |Sent(was)|;
    SentEnds(was);
    SentEnds(all);
    if n > 0 {
      assert all[n - 1] == was[n - 1];
      NoCutInside(all, k, part, n);
    }
    assert all[k + |part| - 1] == all[k..k + |part|][|part| - 1] == ';';
    SentAppend(was, data);
    assert Sent(Kept(was) + data) == all[n..|Sent(all)|];
    SliceHolds(all, n, |Sent(all)|, k, part);
  }

  lemma ErrorInside(block: string, x: string, part: string, y: string)
    requires ErrorIn(part) && block == x + part + y
    ensures ErrorIn(block)
  {
    ErrorInLater(x, part);
    ErrorInLonger(x + part, y);
  }

  lemma OpenBlockCloses(c: Config, s: State, stream: string, data: string, k: nat, part: string)
    requires s.phase == Open && s.buffer == Kept(stream) && OneInstruction(part) && ErrorIn(part)
    requires k + |part| <= |stream + data| && (stream + data)[k..k + |part|] == part && |Sent(stream)| < k + |part|
    ensures Receive(c, s, data).phase == Closed
  {
    BlockHolds(stream, data, k, part);
    var block := Sent(s.buffer + data);
    ErrorInside(block, (stream + data)[|Sent(stream)|..k], part, (stream + data)[k + |part|..|Sent(stream + data)|]);
    SentNonempty(s.buffer + data);
    ErrorBlock(c, s.(buffer := s.buffer + data));
  }

  lemma FirstBlockWithError(c: Config, s: State, text: string, data: string, k: nat, part: string)
    requires Tracks(c, s, text) && ';' !in text && ';' in text + data && OneInstruction(part) && ErrorIn(part)
    requires var stream := Stream(text + data); k + |part| <= |stream| && stream[k..k + |part|] == part
    ensures Receive(c, s, data).phase == Closed
  {
    StreamHolds(Stream(text + data), k, part);
    GreetAndClose(c, s, data);
  }

  lemma StreamHolds(stream: string, k: nat, part: string)
    requires OneInstruction(part) && ErrorIn(part) && k + |part| <= |stream| && stream[k..k + |part|] == part
    ensures ErrorIn(Sent(stream))
  {
    SentReaches(stream, k, part);
    SliceHolds(stream, 0, |Sent(stream)|, k, part);
    ErrorInside(Sent(stream), stream[0..k], part, stream[k + |part|..|Sent(stream)|]);
  }

  /** The chunk that completes an error instruction closes the client. */
  lemma ChunkCloses(c: Config, s: State, text: string, data: string, k: nat, part: string)
    requires Tracks(c, s, text) && ';' in text + data && OneInstruction(part) && ErrorIn(part)
    requires var stream := Stream(text + data); k + |part| <= |stream| && stream[k..k + |part|] == part
    requires |Sent(Stream(text))| < k + |part|
    ensures Receive(c, s, data).phase == Closed
  {
    if ';' in text {
      HandshakeAppend(text, data);
      OpenBlockCloses(c, s, Stream(text), data, k, part);
    } else {
      FirstBlockWithError(c, s, text, data, k, part);
    }
  }

  lemma SentReaches(stream: string, k: nat, part: string)
    requires OneInstruction(part) && k + |part| <= |stream| && stream[k..k + |part|] == part
    ensures |Sent(stream)| >= k + |part|
  {
    SentEnds(stream);
    assert stream[k + |part| - 1] == stream[k..k + |part|][|part| - 1];
  }

  lemma SlicePrefix(front: string, more: string, k: nat, part: string)
    requires k + |part| <= |front + more| && (front + more)[k..k + |part|] == part && k + |part| <= |front|
    ensures front[k..k + |part|] == part
  {
  }

  lemma {:induction false} ErrorCloses(c: Config, s: State, text: string, chunks: seq<string>, k: nat, part: string)
    requires Tracks(c, s, text) && OneInstruction(part) && ErrorIn(part)
    requires ';' in text + Concat(chunks)
    requires var stream := Stream(text + Concat(chunks)); k + |part| <= |stream| && stream[k..k + |part|] == part
    requires |Stream(text)| < k + |part|
    ensures ReceiveAll(c, s, chunks).phase == Closed
    decreases |chunks|
  {
    if chunks == [] {
      NothingArrived(text);
    } else {
      var now, more, next := text + chunks[0], Concat(chunks[1..]), Receive(c, s, chunks[0]);
      ConcatStep(text, chunks);
      assert text + Concat(chunks) == now + more;
      if next.phase == Closed {
        ClosedStays(c, next, chunks[1..]);
      } else {
        ReceiveTracks(c, s, text, chunks[0]);
        NotYet(c, s, text, chunks[0], more, k, part);
        ErrorCloses(c, next, now, chunks[1..], k, part);
      }
    }
  }

  lemma NothingArrived(text: string)
    ensures text + Concat<char>([]) == text
  {
  }

  /** While the client is open, the instruction is not complete. */
  lemma NotYet(c: Config, s: State, text: string, data: string, more: string, k: nat, part: string)
    requires Tracks(c, s, text) && OneInstruction(part) && ErrorIn(part) && Receive(c, s, data).phase != Closed
    requires ';' in text + data + more
    requires var stream := Stream(text + data + more); k + |part| <= |stream| && stream[k..k + |part|] == part
    requires |Stream(text)| < k + |part|
    ensures |Stream(text + data)| < k + |part|
  {
    if ';' in text + data && |Stream(text + data)| >= k + |part| {
      HandshakeAppend(text + data, more);
      SlicePrefix(Stream(text + data), more, k, part);
      ChunkCloses(c, s, text, data, k, part);
    }
  }

  /**
   An error instruction closes the client under every cut of the text, wherever it comes, once all of it has
   arrived.
   */
  lemma ErrorsClose(c: Config, chunks: seq<string>, before: string, message: string, code: string, rest: string)
    requires ';' in Concat(chunks)
    requires AfterHandshake(Concat(chunks)) == before + OpCode(["error", message, code]) + rest
    requires message != "" && message[0] != ',' && ';' !in message && ';' !in code
    ensures ReceiveAll(c, STARTED, chunks).phase == Closed
  {
    var part := OpCode(["error", message, code]);
    ErrorRead(message, code);
    ErrorIsOne(message, code);
    assert "" + Concat(chunks) == Concat(chunks);
    var stream := Stream(Concat(chunks));
    assert stream[|before|..|before| + |part|] == part;
    ErrorCloses(c, STARTED, "", chunks, |before|, part);
  }

  lemma ErrorIsOne(message: string, code: string)
    requires ';' !in message && ';' !in code
    ensures OneInstruction(OpCode(["error", message, code]))
  {
    ElementsThree("error", message, code);
    ElementPlain("error");
    ElementPlain(message);
    ElementPlain(code);
    var part := OpCode(["error", message, code]);
    assert part[..|part| - 1] == Element("error") + "," + (Element(message) + "," + Element(code));
  }

  lemma ElementPlain(name: string)
    requires ';' !in name
    ensures ';' !in Element(name)
  {
    var d := Decimal(|name|);
    assert forall i :: 0 <= i < |d| ==> d[i] != ';';
  }
}
