/**
 What the cuts of guacd's stream do to a client: nothing, as long as they split no character and the
 stream holds no error; and exactly when they show.
 */
module GuacdStream {
  import opened Chunks
  import opened Guacd
  import opened Utf8
  import opened Wrappers

  // ---------------------------------------------------------------- chunks leave no trace

  /** The text after the handshake that has arrived, of a whole input. */
  function Stream(text: string): string {
    if ';' in text then AfterHandshake(text) else ""
  }

  /** An open client after a stream without errors. */
  predicate TracksStream(c: Config, s: State, stream: string) {
    && s.phase == Open && s.buffer == Kept(stream) && s.forwarded == Sent(stream)
    && s.connectionId == (if c.isMaster then FirstReady(Sent(stream)) else None)
    && s.reported == (if s.connectionId == None then [] else [s.connectionId.value])
  }

  /** The state after an input without errors, which depends on the input alone. */
  predicate Tracks(c: Config, s: State, text: string) {
    if ';' !in text then s == State(Connecting, text, None, "", "", [])
    else TracksStream(c, s, Stream(text)) && s.written == OpCodes(Reply(c, text[..FirstSemicolon(text)]))
  }

  lemma DigitsAppend(s: string, b: string)
    requires Digits(s) < |s|
    ensures Digits(s + b) == Digits(s)
  {
    assert forall i :: 0 <= i < |s| ==> (s + b)[i] == s[i];
  }

  lemma SemicolonAppend(s: string, b: string)
    requires ';' in s
    ensures ';' in s + b && FirstSemicolon(s + b) == FirstSemicolon(s)
  {
    var i := FirstSemicolon(s);
    assert (s + b)[i] == ';';
    assert forall j :: 0 <= j < |s| ==> (s + b)[j] == s[j];
  }

  /** An instruction that has ended is read the same way whatever follows. */
  lemma ReadyAtAppend(s: string, b: string)
    requires s != "" && Whole(s)
    ensures ReadyAt(s + b) == ReadyAt(s)
  {
    if |s| < 8 {
      assert s[|s| - 1] == ';' && (s + b)[|s| - 1] == ';';
      assert StartsWith(s + b, "5.ready,") ==> (s + b)[..8][|s| - 1] == "5.ready,"[|s| - 1];
    } else {
      assert (s + b)[..8] == s[..8] && (s + b)[8..] == s[8..] + b;
      if StartsWith(s, "5.ready,") {
        assert s[7] == ',';
        ReadyTail(s[8..], b);
      }
    }
  }

  lemma ReadyTail(t: string, b: string)
    requires t != "" && Whole(t)
    ensures Digits(t) < |t| && Digits(t + b) == Digits(t)
    ensures var d := Digits(t);
            && (t + b)[d] == t[d]
            && (t[d] == '.' ==>
                  var u := t[d + 1..];
                  && (t + b)[d + 1..] == u + b
                  && ';' in u && ';' in u + b
                  && FirstSemicolon(u + b) == FirstSemicolon(u)
                  && (u + b)[..FirstSemicolon(u)] == u[..FirstSemicolon(u)])
  {
    var d := Digits(t);
    assert !IsDigit(t[|t| - 1]);
    DigitsAppend(t, b);
    if t[d] == '.' {
      ReadyId(t, d, b);
    }
  }

  lemma ReadyId(t: string, d: nat, b: string)
    requires d < |t| && t[d] == '.' && t[|t| - 1] == ';'
    ensures var u := t[d + 1..];
            && (t + b)[d + 1..] == u + b
            && ';' in u && ';' in u + b
            && FirstSemicolon(u + b) == FirstSemicolon(u)
            && (u + b)[..FirstSemicolon(u)] == u[..FirstSemicolon(u)]
  {
    var u := t[d + 1..];
    assert u != "" && u[|u| - 1] == ';';
    SemicolonAppend(u, b);
  }

  /** Blocks end with an instruction, so the first ready instruction lies within one block. */
  lemma {:induction false} FirstReadyAppend(a: string, b: string)
    requires Whole(a)
    ensures FirstReady(a + b) == if FirstReady(a) != None then FirstReady(a) else FirstReady(b)
  {
    if a == "" {
      assert a + b == b;
    } else {
      ReadyAtAppend(a, b);
      assert (a + b)[1..] == a[1..] + b;
      FirstReadyAppend(a[1..], b);
    }
  }

  lemma NoSemicolon(s: string)
    requires ';' !in s
    ensures Sent(s) == "" && Kept(s) == s
  {
    SentLengthIs(s, 0);
  }

  /** One block: the client forwards what ends with an instruction and keeps the rest. */
  lemma ProcessTracks(c: Config, s: State, was: string, data: string)
    requires s.buffer == Kept(was) + data && s.forwarded == Sent(was)
    requires s.connectionId == (if c.isMaster then FirstReady(Sent(was)) else None)
    requires s.reported == (if s.connectionId == None then [] else [s.connectionId.value])
    requires Process(c, s).phase != Closed
    ensures var t := Process(c, s);
            && t.phase == s.phase && t.written == s.written
            && t.buffer == Kept(was + data) && t.forwarded == Sent(was + data)
            && t.connectionId == (if c.isMaster then FirstReady(Sent(was + data)) else None)
            && t.reported == (if t.connectionId == None then [] else [t.connectionId.value])
  {
    SentAppend(was, data);
    if ';' !in s.buffer {
      NoSemicolon(s.buffer);
      assert Sent(was) + "" == Sent(was);
    } else {
      FirstReadyAppend(Sent(was), Sent(s.buffer));
    }
  }

  lemma HandshakeAppend(text: string, data: string)
    requires ';' in text
    ensures ';' in text + data && FirstSemicolon(text + data) == FirstSemicolon(text)
    ensures AfterHandshake(text + data) == AfterHandshake(text) + data
    ensures (text + data)[..FirstSemicolon(text)] == text[..FirstSemicolon(text)]
  {
    SemicolonAppend(text, data);
  }

  lemma ReceiveTracks(c: Config, s: State, text: string, data: string)
    requires Tracks(c, s, text) && Receive(c, s, data).phase != Closed
    ensures Tracks(c, Receive(c, s, data), text + data)
  {
    if ';' in text {
      HandshakeAppend(text, data);
      ProcessTracks(c, s.(buffer := s.buffer + data), Stream(text), data);
    } else if ';' in text + data {
      var t := CompleteHandshake(c, s.(buffer := text + data));
      assert "" + OpCodes(Reply(c, (text + data)[..FirstSemicolon(text + data)])) == t.written;
      NoSemicolon("");
      assert "" + t.buffer == t.buffer;
      ProcessTracks(c, t, "", t.buffer);
    }
  }

  lemma {:induction false} ClosedStays(c: Config, s: State, chunks: seq<string>)
    requires s.phase == Closed
    ensures ReceiveAll(c, s, chunks) == s
    decreases |chunks|
  {
    if chunks != [] {
      ClosedStays(c, s, chunks[1..]);
    }
  }

  /**
   However the text is cut, a client that did not close has forwarded everything after the handshake up
   to the last instruction, keeps the rest, and knows the first ready id.
   */
  lemma {:induction false} StreamIgnoresChunks(c: Config, s: State, text: string, chunks: seq<string>)
    requires Tracks(c, s, text) && ReceiveAll(c, s, chunks).phase != Closed
    ensures Tracks(c, ReceiveAll(c, s, chunks), text + Concat(chunks))
    decreases |chunks|
  {
    if chunks == [] {
      assert text + Concat(chunks) == text;
    } else {
      var t := Receive(c, s, chunks[0]);
      if t.phase == Closed {
        ClosedStays(c, t, chunks[1..]);
      } else {
        ReceiveTracks(c, s, text, chunks[0]);
        StreamIgnoresChunks(c, t, text + chunks[0], chunks[1..]);
        ConcatStep(text, chunks);
      }
    }
  }

  // ---------------------------------------------------------------- errors

  lemma {:induction false} ErrorInLater(a: string, s: string)
    requires ErrorIn(s)
    ensures ErrorIn(a + s)
  {
    if a == "" {
      assert a + s == s;
    } else {
      assert (a + s)[1..] == a[1..] + s;
      ErrorInLater(a[1..], s);
    }
  }

  lemma ErrorTailLonger(t: string, b: string)
    requires var d := Digits(t);
             d > 0 && d + 1 < |t| && t[d] == '.' && t[d + 1] != ',' && ',' in t[d + 1..]
    ensures var d := Digits(t + b);
            d > 0 && d + 1 < |t + b| && (t + b)[d] == '.' && (t + b)[d + 1] != ',' && ',' in (t + b)[d + 1..]
  {
    DigitsAppend(t, b);
    assert (t + b)[Digits(t) + 1..] == t[Digits(t) + 1..] + b;
  }

  lemma ErrorAtLonger(s: string, b: string)
    requires ErrorAt(s)
    ensures ErrorAt(s + b)
  {
    assert (s + b)[0] == s[0] && (s + b)[1..][..7] == s[1..][..7];
    assert (s + b)[8..] == s[8..] + b;
    ErrorTailLonger(s[8..], b);
  }

  lemma {:induction false} ErrorInLonger(s: string, b: string)
    requires ErrorIn(s)
    ensures ErrorIn(s + b)
  {
    if ErrorAt(s) {
      ErrorAtLonger(s, b);
    } else {
      assert (s + b)[1..] == s[1..] + b;
      ErrorInLonger(s[1..], b);
    }
  }

  /** What has been cut into blocks so far is the front of what will be. */
  lemma StreamGrows(text: string, more: string)
    ensures Sent(Stream(text)) <= Sent(Stream(text + more))
  {
    if ';' in text {
      HandshakeAppend(text, more);
      SentAppend(Stream(text), more);
    } else {
      NoSemicolon("");
    }
  }

  lemma ErrorStays(text: string, more: string)
    requires ErrorIn(Sent(Stream(text)))
    ensures ErrorIn(Sent(Stream(text + more)))
  {
    StreamGrows(text, more);
    ErrorInFront(Sent(Stream(text)), Sent(Stream(text + more)));
  }

  lemma ErrorInFront(a: string, b: string)
    requires a <= b && ErrorIn(a)
    ensures ErrorIn(b)
  {
    ErrorInLonger(a, b[|a|..]);
    assert a + b[|a|..] == b;
  }

  /** A client closes on a block that is part of the stream. */
  lemma CloseMeansError(c: Config, s: State, text: string, data: string)
    requires Tracks(c, s, text) && Receive(c, s, data).phase == Closed
    ensures ErrorIn(Sent(Stream(text + data)))
  {
    if ';' in text {
      HandshakeAppend(text, data);
      SentAppend(Stream(text), data);
      ErrorInLater(Sent(Stream(text)), Sent(s.buffer + data));
    }
  }

  lemma {:induction false} NoErrorNoClose(c: Config, s: State, text: string, chunks: seq<string>)
    requires Tracks(c, s, text) && !ErrorIn(Sent(Stream(text + Concat(chunks))))
    ensures Tracks(c, ReceiveAll(c, s, chunks), text + Concat(chunks))
    decreases |chunks|
  {
    if chunks == [] {
      assert text + Concat(chunks) == text;
    } else {
      ConcatStep(text, chunks);
      if Receive(c, s, chunks[0]).phase == Closed {
        CloseMeansError(c, s, text, chunks[0]);
        ErrorStays(text + chunks[0], Concat(chunks[1..]));
      } else {
        ReceiveTracks(c, s, text, chunks[0]);
        NoErrorNoClose(c, Receive(c, s, chunks[0]), text + chunks[0], chunks[1..]);
      }
    }
  }

  lemma RunTracks(c: Config, chunks: seq<string>)
    requires !ErrorIn(Sent(Stream(Concat(chunks))))
    ensures Tracks(c, ReceiveAll(c, STARTED, chunks), Concat(chunks))
  {
    assert "" + Concat(chunks) == Concat(chunks);
    NoErrorNoClose(c, STARTED, "", chunks);
  }

  lemma TracksOne(c: Config, s: State, t: State, text: string)
    requires Tracks(c, s, text) && Tracks(c, t, text)
    ensures s == t
  {
  }

  lemma ErrorBlock(c: Config, s: State)
    requires ';' in s.buffer && ErrorIn(Sent(s.buffer))
    ensures Process(c, s) == s.(buffer := Kept(s.buffer), phase := Closed)
  {
  }

  lemma SentNonempty(s: string)
    requires Sent(s) != ""
    ensures ';' in s
  {
    assert s[SentLength(s) - 1] == ';';
  }

  /** The chunk that completes the handshake brings the error. */
  lemma GreetAndClose(c: Config, s: State, data: string)
    requires s.phase == Connecting && s.written == "" && s.forwarded == ""
    requires ';' in s.buffer + data && ErrorIn(Sent(AfterHandshake(s.buffer + data)))
    ensures var t, text := Receive(c, s, data), s.buffer + data;
            && t.phase == Closed && t.forwarded == "" && t.reported == s.reported && t.connectionId == s.connectionId
            && t.written == OpCodes(Reply(c, text[..FirstSemicolon(text)]))
  {
    var t := CompleteHandshake(c, s.(buffer := s.buffer + data));
    SentNonempty(t.buffer);
    ErrorBlock(c, t);
  }

  lemma ReceiveOne(c: Config, s: State, data: string)
    ensures ReceiveAll(c, s, [data]) == Receive(c, s, data)
  {
    assert [data][1..] == [];
  }

  lemma UncutCloses(c: Config, text: string)
    requires ErrorIn(Sent(Stream(text)))
    ensures var s := ReceiveAll(c, STARTED, [text]); s.phase == Closed && s.forwarded == ""
  {
    ReceiveOne(c, STARTED, text);
    assert "" + text == text;
    GreetAndClose(c, STARTED, text);
  }

  /** A client stays open under every cut of a text exactly when the instructions in it hold no error. */
  lemma NeverClosesIff(c: Config, text: string)
    ensures (forall chunks :: Concat(chunks) == text ==> ReceiveAll(c, STARTED, chunks).phase != Closed)
            <==> !ErrorIn(Sent(Stream(text)))
  {
    if ErrorIn(Sent(Stream(text))) {
      ConcatOne(text);
      UncutCloses(c, text);
    } else {
      forall chunks | Concat(chunks) == text
        ensures ReceiveAll(c, STARTED, chunks).phase != Closed
      {
        RunTracks(c, chunks);
      }
    }
  }

  lemma TracksMeans(c: Config, s: State, text: string)
    requires Tracks(c, s, text) && ';' in text
    ensures s.forwarded + s.buffer == AfterHandshake(text) && ';' !in s.buffer
    ensures s.reported == if c.isMaster && FirstReady(s.forwarded) != None then [FirstReady(s.forwarded).value] else []
  {
    SplitAt(Stream(text), SentLength(Stream(text)));
  }

  /** Nothing after the handshake is lost, repeated or reordered, and no finished instruction waits. */
  lemma NothingIsLost(c: Config, chunks: seq<string>)
    requires !ErrorIn(Sent(Stream(Concat(chunks)))) && ';' in Concat(chunks)
    ensures var s := ReceiveAll(c, STARTED, chunks);
            && s.forwarded + s.buffer == AfterHandshake(Concat(chunks))
            && ';' !in s.buffer
            && s.reported == (if c.isMaster && FirstReady(s.forwarded) != None then [FirstReady(s.forwarded).value] else [])
  {
    RunTracks(c, chunks);
    TracksMeans(c, ReceiveAll(c, STARTED, chunks), Concat(chunks));
  }

  // ---------------------------------------------------------------- the reply, errors or not

  predicate Greeted(c: Config, s: State, text: string) {
    if ';' !in text then s == State(Connecting, text, None, "", "", [])
    else s.phase != Connecting && s.written == OpCodes(Reply(c, text[..FirstSemicolon(text)]))
  }

  lemma ReceiveGreets(c: Config, s: State, text: string, data: string)
    requires Greeted(c, s, text)
    ensures Greeted(c, Receive(c, s, data), text + data)
  {
    if ';' in text {
      HandshakeAppend(text, data);
    } else if ';' in text + data {
      var reply := OpCodes(Reply(c, (text + data)[..FirstSemicolon(text + data)]));
      assert "" + reply == reply;
    }
  }

  lemma {:induction false} RunGreets(c: Config, s: State, text: string, chunks: seq<string>)
    requires Greeted(c, s, text)
    ensures Greeted(c, ReceiveAll(c, s, chunks), text + Concat(chunks))
    decreases |chunks|
  {
    if chunks == [] {
      assert text + Concat(chunks) == text;
    } else {
      ReceiveGreets(c, s, text, chunks[0]);
      RunGreets(c, Receive(c, s, chunks[0]), text + chunks[0], chunks[1..]);
      ConcatStep(text, chunks);
    }
  }

  /** What the client writes is read by guacd as its five instructions, one value per requested attribute. */
  lemma ReplyReadsBack(c: Config, chunks: seq<string>)
    requires ';' in Concat(chunks)
    ensures var handshake := Concat(chunks)[..FirstSemicolon(Concat(chunks))];
            var read := ReadInstructions(ReceiveAll(c, STARTED, chunks).written, 5);
            && read == Some(Reply(c, handshake))
            && |read.value[4]| == |SplitCommas(handshake)|
  {
    assert "" + Concat(chunks) == Concat(chunks);
    RunGreets(c, STARTED, "", chunks);
    OpCodesReadBack(Reply(c, Concat(chunks)[..FirstSemicolon(Concat(chunks))]));
  }

  // ---------------------------------------------------------------- when cuts show

  /** What others see of a client: all but the text it still holds back. */
  datatype Seen = Seen(phase: Phase, connectionId: Option<string>, written: string, forwarded: string, reported: seq<string>)

  function SeenOf(s: State): Seen {
    Seen(s.phase, s.connectionId, s.written, s.forwarded, s.reported)
  }

  function FirstInstruction(stream: string): string {
    if ';' in stream then stream[..FirstSemicolon(stream) + 1] else ""
  }

  ghost predicate CutsAgree(c: Config, text: string) {
    forall a, b :: Concat(a) == text && Concat(b) == text ==>
      SeenOf(ReceiveAll(c, STARTED, a)) == SeenOf(ReceiveAll(c, STARTED, b))
  }

  lemma FirstInstructionStays(stream: string, more: string)
    requires ';' in stream
    ensures FirstInstruction(stream + more) == FirstInstruction(stream)
    ensures FirstInstruction(stream) <= Sent(stream)
  {
    SemicolonAppend(stream, more);
    assert FirstSemicolon(stream) < SentLength(stream);
  }

  lemma FirstInSent(stream: string)
    requires ';' in stream && ErrorIn(FirstInstruction(stream))
    ensures ErrorIn(Sent(stream))
  {
    FirstInstructionStays(stream, "");
    ErrorInFront(FirstInstruction(stream), Sent(stream));
  }

  lemma NothingSent(c: Config, s: State, stream: string)
    requires TracksStream(c, s, stream) && ';' !in stream
    ensures s.buffer == stream && s.forwarded == ""
  {
    NoSemicolon(stream);
  }

  lemma NothingReported(c: Config, s: State, stream: string)
    requires TracksStream(c, s, stream) && s.forwarded == ""
    ensures s.connectionId == None && s.reported == []
  {
  }

  lemma OpenAndClose(c: Config, s: State, data: string)
    requires s.phase == Open && s.forwarded == "" && s.connectionId == None && s.reported == []
    requires ';' in s.buffer + data && ErrorIn(Sent(s.buffer + data))
    ensures SeenOf(Receive(c, s, data)) == Seen(Closed, None, s.written, "", [])
  {
    ErrorBlock(c, s.(buffer := s.buffer + data));
  }

  /** The block that brings the first instruction starts with it. */
  lemma FirstBlockCloses(c: Config, s: State, text: string, data: string)
    requires Tracks(c, s, text) && ';' !in Stream(text) && ';' in Stream(text + data)
    requires ErrorIn(FirstInstruction(Stream(text + data)))
    ensures SeenOf(Receive(c, s, data))
            == Seen(Closed, None, OpCodes(Reply(c, (text + data)[..FirstSemicolon(text + data)])), "", [])
  {
    FirstInSent(Stream(text + data));
    if ';' in text {
      HandshakeAppend(text, data);
      NothingSent(c, s, Stream(text));
      NothingReported(c, s, Stream(text));
      OpenAndClose(c, s, data);
    } else {
      GreetAndClose(c, s, data);
    }
  }

  lemma QuietStep(c: Config, s: State, text: string, data: string)
    requires Tracks(c, s, text) && ';' !in Stream(text + data)
    ensures Tracks(c, Receive(c, s, data), text + data)
  {
    if Receive(c, s, data).phase == Closed {
      CloseMeansError(c, s, text, data);
      NoSemicolon(Stream(text + data));
    } else {
      ReceiveTracks(c, s, text, data);
    }
  }

  lemma {:induction false} FirstErrorCloses(c: Config, s: State, text: string, chunks: seq<string>)
    requires Tracks(c, s, text) && ';' !in Stream(text)
    requires ';' in Stream(text + Concat(chunks)) && ErrorIn(FirstInstruction(Stream(text + Concat(chunks))))
    ensures var whole := text + Concat(chunks);
            ';' in whole && SeenOf(ReceiveAll(c, s, chunks))
                            == Seen(Closed, None, OpCodes(Reply(c, whole[..FirstSemicolon(whole)])), "", [])
    decreases |chunks|
  {
    if chunks == [] {
      NothingYet(text);
    } else {
      var now, more := text + chunks[0], Concat(chunks[1..]);
      ConcatStep(text, chunks);
      if ';' in Stream(now) {
        HandshakeAppend(now, more);
        FirstInstructionStays(Stream(now), more);
        FirstBlockCloses(c, s, text, chunks[0]);
        ClosedStays(c, Receive(c, s, chunks[0]), chunks[1..]);
      } else {
        QuietStep(c, s, text, chunks[0]);
        FirstErrorCloses(c, Receive(c, s, chunks[0]), now, chunks[1..]);
      }
    }
  }

  lemma NothingYet(text: string)
    requires ';' !in Stream(text)
    ensures ';' !in Stream(text + "")
  {
    assert text + "" == text;
  }

  lemma {:induction false} ForwardedGrows(c: Config, s: State, chunks: seq<string>)
    ensures |s.forwarded| <= |ReceiveAll(c, s, chunks).forwarded|
    decreases |chunks|
  {
    if chunks != [] {
      ForwardedGrows(c, Receive(c, s, chunks[0]), chunks[1..]);
    }
  }

  lemma StreamAfter(head: string, rest: string)
    requires ';' in head && FirstSemicolon(head) == |head| - 1
    ensures Stream(head + rest) == rest
  {
    HandshakeAppend(head, rest);
    assert AfterHandshake(head) == "";
  }

  /** The text up to the end of its first instruction, and what follows. */
  lemma AfterFirst(text: string) returns (front: string, back: string)
    requires ';' in Stream(text)
    ensures text == front + back && Stream(front) == FirstInstruction(Stream(text)) != ""
  {
    var i, j := FirstSemicolon(text) + 1, FirstSemicolon(Stream(text)) + 1;
    var head, stream := text[..i], text[i..];
    HeadOf(text);
    StreamAfter(head, stream[..j]);
    front, back := head + stream[..j], stream[j..];
    SplitAt(text, i);
    SplitAt(stream, j);
    Regroup(head, stream[..j], back);
  }

  lemma HeadOf(text: string)
    requires ';' in text
    ensures var head := text[..FirstSemicolon(text) + 1]; ';' in head && FirstSemicolon(head) == |head| - 1
  {
    var head := text[..FirstSemicolon(text) + 1];
    assert head[|head| - 1] == ';';
  }

  /** Cut after its first instruction, the text gets that far before it closes the client. */
  lemma CutAfterFirst(c: Config, text: string) returns (chunks: seq<string>)
    requires ';' in Stream(text) && !ErrorIn(FirstInstruction(Stream(text)))
    ensures Concat(chunks) == text && ReceiveAll(c, STARTED, chunks).forwarded != ""
  {
    var front, back := AfterFirst(text);
    chunks := [front, back];
    ConcatTwo(front, back);
    ForwardsFirst(c, front);
    assert chunks[1..] == [back];
    ForwardedGrows(c, Receive(c, STARTED, front), [back]);
  }

  lemma ForwardsFirst(c: Config, front: string)
    requires ';' in Stream(front) && FirstInstruction(Stream(front)) == Stream(front) && !ErrorIn(Stream(front))
    ensures Receive(c, STARTED, front).forwarded == Stream(front)
  {
    WholeIsSent(Stream(front));
    ConcatOne(front);
    RunTracks(c, [front]);
    ReceiveOne(c, STARTED, front);
  }

  lemma AgreeWithoutErrors(c: Config, text: string)
    requires !ErrorIn(Sent(Stream(text)))
    ensures CutsAgree(c, text)
  {
    forall a, b | Concat(a) == text && Concat(b) == text
      ensures ReceiveAll(c, STARTED, a) == ReceiveAll(c, STARTED, b)
    {
      CutsDoNotMatter(c, a, b);
    }
  }

  lemma FirstErrorSeen(c: Config, text: string, chunks: seq<string>)
    requires Concat(chunks) == text && ';' in Stream(text) && ErrorIn(FirstInstruction(Stream(text)))
    ensures ';' in text && SeenOf(ReceiveAll(c, STARTED, chunks))
                           == Seen(Closed, None, OpCodes(Reply(c, text[..FirstSemicolon(text)])), "", [])
  {
    assert "" + text == text;
    FirstErrorCloses(c, STARTED, "", chunks);
  }

  lemma AgreeOnFirstError(c: Config, text: string)
    requires ErrorIn(FirstInstruction(Stream(text)))
    ensures CutsAgree(c, text)
  {
    forall a, b | Concat(a) == text && Concat(b) == text
      ensures SeenOf(ReceiveAll(c, STARTED, a)) == SeenOf(ReceiveAll(c, STARTED, b))
    {
      FirstErrorSeen(c, text, a);
      FirstErrorSeen(c, text, b);
    }
  }

  lemma DisagreeOnLaterError(c: Config, text: string)
    requires ErrorIn(Sent(Stream(text))) && !ErrorIn(FirstInstruction(Stream(text)))
    ensures !CutsAgree(c, text)
  {
    SentNonempty(Stream(text));
    var chunks := CutAfterFirst(c, text);
    UncutCloses(c, text);
    ConcatOne(text);
    assert SeenOf(ReceiveAll(c, STARTED, chunks)).forwarded != SeenOf(ReceiveAll(c, STARTED, [text])).forwarded;
  }

  /**
   All ways of cutting a text show the same, in what is written, forwarded and reported and in whether
   the client closes, exactly when its instructions hold no error or the first one already does.
   */
  lemma CutsAgreeIff(c: Config, text: string)
    ensures CutsAgree(c, text) <==> !ErrorIn(Sent(Stream(text))) || ErrorIn(FirstInstruction(Stream(text)))
  {
    if !ErrorIn(Sent(Stream(text))) {
      AgreeWithoutErrors(c, text);
    } else if ErrorIn(FirstInstruction(Stream(text))) {
      AgreeOnFirstError(c, text);
    } else {
      DisagreeOnLaterError(c, text);
    }
  }

  /** Without errors the states agree altogether. */
  lemma CutsDoNotMatter(c: Config, a: seq<string>, b: seq<string>)
    requires Concat(a) == Concat(b) && !ErrorIn(Sent(Stream(Concat(a))))
    ensures ReceiveAll(c, STARTED, a) == ReceiveAll(c, STARTED, b)
  {
    RunTracks(c, a);
    RunTracks(c, b);
    TracksOne(c, ReceiveAll(c, STARTED, a), ReceiveAll(c, STARTED, b), Concat(a));
  }

  lemma WholeIsSent(s: string)
    requires Whole(s)
    ensures Sent(s) == s && Kept(s) == ""
  {
    SentLengthIs(s, |s|);
  }

  lemma ReceiveWhole(c: Config, s: State, block: string)
    requires s.phase == Open && s.buffer == "" && block != "" && Whole(block)
    ensures var t := Receive(c, s, block);
            && t.buffer == ""
            && t.phase == (if ErrorIn(block) then Closed else Open)
            && t.forwarded == (if ErrorIn(block) then s.forwarded else s.forwarded + block)
  {
    WholeIsSent(block);
    assert "" + block == block && block[|block| - 1] == ';';
  }

  /**
   With an error the cuts do show: instructions that arrive in the error's own chunk are dropped with it,
   in an earlier chunk they are forwarded. The client closes either way.
   */
  lemma ErrorSwallowsItsChunk(c: Config, s: State, before: string, error: string)
    requires s.phase == Open && s.buffer == ""
    requires before != "" && Whole(before) && !ErrorIn(before)
    requires error != "" && Whole(error) && ErrorIn(error)
    ensures var t := Receive(c, s, before + error); t.phase == Closed && t.forwarded == s.forwarded
    ensures var t := Receive(c, Receive(c, s, before), error);
            t.phase == Closed && t.forwarded == s.forwarded + before
  {
    assert (before + error)[|before + error| - 1] == error[|error| - 1];
    ErrorInLater(before, error);
    ReceiveWhole(c, s, before + error);
    ReceiveWhole(c, s, before);
    ReceiveWhole(c, Receive(c, s, before), error);
  }

  // ---------------------------------------------------------------- cuts of the bytes

  /** The bytes arrive in chunks, and each chunk becomes text on its own. */
  function ReceiveBytes(c: Config, s: State, chunks: seq<seq<Byte>>): State {
    ReceiveAll(c, s, Texts(chunks))
  }

  ghost predicate ByteCutsAgree(c: Config, bytes: seq<Byte>) {
    forall a: seq<seq<Byte>>, b: seq<seq<Byte>> :: Concat(a) == bytes && Concat(b) == bytes && OnCharacters(a) && OnCharacters(b) ==>
      SeenOf(ReceiveBytes(c, STARTED, a)) == SeenOf(ReceiveBytes(c, STARTED, b))
  }

  lemma AgreeOnBytes(c: Config, bytes: seq<Byte>)
    requires CutsAgree(c, Decode(bytes))
    ensures ByteCutsAgree(c, bytes)
  {
    forall a: seq<seq<Byte>>, b: seq<seq<Byte>> | Concat(a) == bytes && Concat(b) == bytes && OnCharacters(a) && OnCharacters(b)
      ensures SeenOf(ReceiveBytes(c, STARTED, a)) == SeenOf(ReceiveBytes(c, STARTED, b))
    {
      CutsAreHarmlessIff(a);
      CutsAreHarmlessIff(b);
    }
  }

  lemma AgreeOnText(c: Config, bytes: seq<Byte>)
    requires ByteCutsAgree(c, bytes)
    ensures CutsAgree(c, Decode(bytes))
  {
    forall s, t | Concat(s) == Decode(bytes) && Concat(t) == Decode(bytes)
      ensures SeenOf(ReceiveAll(c, STARTED, s)) == SeenOf(ReceiveAll(c, STARTED, t))
    {
      var a := CutsOfText(bytes, s);
      var b := CutsOfText(bytes, t);
      assert SeenOf(ReceiveBytes(c, STARTED, a)) == SeenOf(ReceiveBytes(c, STARTED, b));
    }
  }

  /** The same for every cut of the bytes that splits no character. */
  lemma ByteCutsAgreeIff(c: Config, bytes: seq<Byte>)
    ensures var stream := Stream(Decode(bytes));
            ByteCutsAgree(c, bytes) <==> !ErrorIn(Sent(stream)) || ErrorIn(FirstInstruction(stream))
  {
    CutsAgreeIff(c, Decode(bytes));
    if CutsAgree(c, Decode(bytes)) {
      AgreeOnBytes(c, bytes);
    } else if ByteCutsAgree(c, bytes) {
      AgreeOnText(c, bytes);
    }
  }

  /** An open client has forwarded or kept exactly the text it received. */
  lemma {:induction false} OpenAccountsForAll(c: Config, s: State, chunks: seq<string>)
    requires s.phase == Open && ReceiveAll(c, s, chunks).phase != Closed
    ensures var t := ReceiveAll(c, s, chunks);
            t.phase == Open && t.forwarded + t.buffer == s.forwarded + s.buffer + Concat(chunks)
    decreases |chunks|
  {
    if chunks == [] {
      assert s.forwarded + s.buffer + [] == s.forwarded + s.buffer;
    } else {
      var t := Receive(c, s, chunks[0]);
      if t.phase == Closed {
        ClosedStays(c, t, chunks[1..]);
      } else {
        OpenStep(c, s, chunks[0]);
        OpenAccountsForAll(c, t, chunks[1..]);
        ConcatStep(s.forwarded + s.buffer, chunks);
      }
    }
  }

  lemma OpenStep(c: Config, s: State, data: string)
    requires s.phase == Open && Receive(c, s, data).phase != Closed
    ensures var t := Receive(c, s, data);
            t.phase == Open && t.forwarded + t.buffer == s.forwarded + s.buffer + data
  {
    var whole := s.buffer + data;
    assert whole == Sent(whole) + Kept(whole);
    Regroup(s.forwarded, Sent(whole), Kept(whole));
    Regroup(s.forwarded, s.buffer, data);
  }

  lemma SplitAt(s: string, i: nat)
    requires i <= |s|
    ensures s == s[..i] + s[i..]
  {
  }

  lemma Regroup(a: string, b: string, c: string)
    ensures a + b + c == a + (b + c)
  {
  }

  /**
   Cuts of the bytes as such: an open client that stays open has the text of the uncut bytes exactly when
   no cut splits a character.
   */
  lemma SplitCharactersShowIff(c: Config, s: State, chunks: seq<seq<Byte>>)
    requires s.phase == Open
    requires ReceiveBytes(c, s, chunks).phase != Closed && ReceiveBytes(c, s, [Concat(chunks)]).phase != Closed
    ensures var cut, uncut := ReceiveBytes(c, s, chunks), ReceiveBytes(c, s, [Concat(chunks)]);
            cut.forwarded + cut.buffer == uncut.forwarded + uncut.buffer <==> OnCharacters(chunks)
  {
    var whole := [Concat(chunks)];
    OpenAccountsForAll(c, s, Texts(chunks));
    OpenAccountsForAll(c, s, Texts(whole));
    assert Texts(whole) == [Decode(Concat(chunks))];
    ConcatOne(Decode(Concat(chunks)));
    CutsAreHarmlessIff(chunks);
    SamePrefix(s.forwarded + s.buffer, Concat(Texts(chunks)), Decode(Concat(chunks)));
  }

  lemma SamePrefix(front: string, a: string, b: string)
    ensures front + a == front + b <==> a == b
  {
    assert (front + a)[|front|..] == a && (front + b)[|front|..] == b;
  }
}
