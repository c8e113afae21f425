/**
 Cuts of guacd's stream inside the characters of its handshake: the frame of the reply is safe under every
 cut, and here is exactly when the client ends in the same state.
 */
module GuacdHandshake {
  import opened Chunks
  import opened Guacd
  import opened GuacdStream
  import opened Utf8
  import opened Wrappers

  const DELIMITER: Byte := 0x3B

  function HandshakeOf(text: string): string
    requires ';' in text
  {
    text[..FirstSemicolon(text)]
  }

  // ---------------------------------------------------------------- delimiters survive

  lemma {:induction false} SemicolonInAscii(text: string)
    ensures ';' in text <==> ';' in AsciiOf(text)
  {
    if text != "" {
      SemicolonInAscii(text[1..]);
      assert text == [text[0]] + text[1..];
    }
  }

  lemma AsciiStep(c: char, text: string)
    ensures AsciiOf([c] + text) == (if c as int < 0x80 then [c] else "") + AsciiOf(text)
  {
    assert ([c] + text)[1..] == text;
  }

  lemma HandshakeStep(c: char, text: string)
    requires c != ';' && ';' in text
    ensures HandshakeOf([c] + text) == [c] + HandshakeOf(text)
  {
    assert ([c] + text)[1..] == text;
  }

  lemma {:induction false} HandshakeInAscii(text: string)
    requires ';' in text
    ensures ';' in AsciiOf(text) && AsciiOf(HandshakeOf(text)) == HandshakeOf(AsciiOf(text))
  {
    var c, rest := text[0], text[1..];
    assert text == [c] + rest;
    SemicolonInAscii(text);
    AsciiStep(c, rest);
    if c == ';' {
      assert HandshakeOf(text) == "";
    } else {
      HandshakeInAscii(rest);
      HandshakeStep(c, rest);
      AsciiStep(c, HandshakeOf(rest));
      if c as int < 0x80 {
        HandshakeStep(c, AsciiOf(rest));
      } else {
        assert "" + AsciiOf(rest) == AsciiOf(rest);
      }
    }
  }

  lemma CommaStep(c: char, text: string)
    ensures |SplitCommas([c] + text)| == (if c == ',' then 1 else 0) + |SplitCommas(text)|
  {
    assert ([c] + text)[1..] == text;
  }

  lemma {:induction false} CommasInAscii(s: string)
    ensures |SplitCommas(s)| == |SplitCommas(AsciiOf(s))|
  {
    if s != "" {
      var c, rest := s[0], s[1..];
      assert s == [c] + rest;
      CommasInAscii(rest);
      CommaStep(c, rest);
      AsciiStep(c, rest);
      if c as int < 0x80 {
        CommaStep(c, AsciiOf(rest));
      } else {
        assert "" + AsciiOf(rest) == AsciiOf(rest);
      }
    }
  }

  /** A reply has one value per attribute, and a joining client sends blanks. */
  lemma ReplyFrame(c: Config, one: string, other: string)
    requires |SplitCommas(one)| == |SplitCommas(other)|
    ensures |Reply(c, one)[4]| == |Reply(c, other)[4]|
    ensures c.join ==> Reply(c, one) == Reply(c, other)
  {
    var a := Values(SplitCommas(one)[1..], c.join, c.settings);
    var b := Values(SplitCommas(other)[1..], c.join, c.settings);
    assert c.join ==> a == b;
  }

  lemma SameFrame(chunks: seq<seq<Byte>>)
    requires ';' in Decode(Concat(chunks))
    ensures ';' in Concat(Texts(chunks))
    ensures |SplitCommas(HandshakeOf(Concat(Texts(chunks))))| == |SplitCommas(HandshakeOf(Decode(Concat(chunks))))|
  {
    var cut, uncut := Concat(Texts(chunks)), Decode(Concat(chunks));
    CutsKeepAscii(chunks);
    SemicolonInAscii(cut);
    SemicolonInAscii(uncut);
    HandshakeInAscii(cut);
    HandshakeInAscii(uncut);
    CommasInAscii(HandshakeOf(cut));
    CommasInAscii(HandshakeOf(uncut));
  }

  lemma Greets(c: Config, chunks: seq<seq<Byte>>)
    requires ';' in Concat(Texts(chunks))
    ensures ReceiveBytes(c, STARTED, chunks).written == OpCodes(Reply(c, HandshakeOf(Concat(Texts(chunks)))))
  {
    assert "" + Concat(Texts(chunks)) == Concat(Texts(chunks));
    RunGreets(c, STARTED, "", Texts(chunks));
  }

  lemma UncutText(bytes: seq<Byte>)
    ensures Concat(Texts([bytes])) == Decode(bytes) && Concat([bytes]) == bytes
  {
    assert Texts([bytes]) == [Decode(bytes)];
    ConcatOne(Decode(bytes));
    ConcatOne(bytes);
  }

  lemma SameReply(one: seq<seq<string>>, other: seq<seq<string>>)
    requires |one| == |other| && (forall i :: 0 <= i < |one| ==> one[i] != [] && other[i] != [])
    ensures OpCodes(one) == OpCodes(other) <==> one == other
  {
    OpCodesReadBack(one);
    OpCodesReadBack(other);
  }

  /**
   Under every cut of the bytes, errors or not, the reply has as many values as under none, and a client that
   joins writes the same reply.
   */
  lemma EveryCutKeepsTheFrame(c: Config, chunks: seq<seq<Byte>>)
    requires ';' in Decode(Concat(chunks))
    ensures var cut := ReadInstructions(ReceiveBytes(c, STARTED, chunks).written, 5);
            var uncut := ReadInstructions(ReceiveBytes(c, STARTED, [Concat(chunks)]).written, 5);
            && cut != None && uncut != None && |cut.value| == |uncut.value| == 5
            && |cut.value[4]| == |uncut.value[4]|
            && (c.join ==> cut == uncut)
  {
    SameFrame(chunks);
    UncutText(Concat(chunks));
    Greets(c, chunks);
    Greets(c, [Concat(chunks)]);
    var one, other := HandshakeOf(Concat(Texts(chunks))), HandshakeOf(Decode(Concat(chunks)));
    ReplyFrame(c, one, other);
    OpCodesReadBack(Reply(c, one));
    OpCodesReadBack(Reply(c, other));
  }

  // ---------------------------------------------------------------- what the reply says

  predicate Plain(name: string) {
    ',' !in name && ';' !in name
  }

  lemma {:induction false} DigitsBeforeDot(digits: string, name: string)
    requires forall i :: 0 <= i < |digits| ==> IsDigit(digits[i])
    ensures AfterDot(digits + ("." + name)) == name
  {
    var s := digits + ("." + name);
    assert s[|digits|] == '.';
    if digits == "" {
      assert s == "." + name && s[1..] == name;
    } else {
      assert s[1..] == digits[1..] + ("." + name);
      DigitsBeforeDot(digits[1..], name);
    }
  }

  lemma NameOfElement(name: string)
    ensures AfterDot(Element(name)) == name
  {
    DigitsBeforeDot(Decimal(|name|), name);
    assert Element(name) == Decimal(|name|) + ("." + name);
  }

  lemma ElementIsPlain(name: string)
    requires Plain(name)
    ensures Plain(Element(name))
  {
    var d := Decimal(|name|);
    assert forall i :: 0 <= i < |d| ==> d[i] != ',' && d[i] != ';';
  }

  lemma {:induction false} SplitOne(part: string)
    requires ',' !in part
    ensures SplitCommas(part) == [part]
  {
    if part != "" {
      SplitOne(part[1..]);
      assert [part[0]] + part[1..] == part;
    }
  }

  lemma {:induction false} SplitFirst(part: string, rest: string)
    requires ',' !in part
    ensures SplitCommas(part + ("," + rest)) == [part] + SplitCommas(rest)
  {
    var s := part + ("," + rest);
    if part == "" {
      assert s[1..] == rest;
    } else {
      assert s[1..] == part[1..] + ("," + rest);
      SplitFirst(part[1..], rest);
      assert [part[0]] + part[1..] == part;
    }
  }

  /** The list that guacd sends is read as the list of its elements. */
  lemma {:induction false} SplitElements(parts: seq<string>)
    requires parts != [] && forall i :: 0 <= i < |parts| ==> Plain(parts[i])
    ensures |SplitCommas(Elements(parts))| == |parts|
    ensures forall i :: 0 <= i < |parts| ==> SplitCommas(Elements(parts))[i] == Element(parts[i])
    decreases |parts|
  {
    ElementIsPlain(parts[0]);
    if |parts| == 1 {
      SplitOne(Element(parts[0]));
    } else {
      SplitElements(parts[1..]);
      SplitFirst(Element(parts[0]), Elements(parts[1..]));
      assert Elements(parts) == Element(parts[0]) + ("," + Elements(parts[1..]));
    }
  }

  /** What the client answers to a requested name: its setting, unless it joins or has none. */
  predicate AnswersNames(c: Config, names: seq<string>, connect: seq<string>) {
    && |connect| == |names| + 1 && connect[0] == "connect"
    && forall i :: 0 <= i < |names| ==>
         connect[i + 1] == if !c.join && names[i] in c.settings then c.settings[names[i]] else ""
  }

  lemma AttributesNamed(version: string, names: seq<string>)
    requires Plain(version) && forall i :: 0 <= i < |names| ==> Plain(names[i])
    ensures var attributes := SplitCommas(Elements([version] + names))[1..];
            |attributes| == |names| && forall i :: 0 <= i < |names| ==> AfterDot(attributes[i]) == names[i]
  {
    var parts := [version] + names;
    SplitElements(parts);
    var attributes := SplitCommas(Elements(parts))[1..];
    forall i | 0 <= i < |names|
      ensures AfterDot(attributes[i]) == names[i]
    {
      assert attributes[i] == Element(parts[i + 1]);
      NameOfElement(names[i]);
    }
  }

  lemma ValuesAnswer(c: Config, attributes: seq<string>, names: seq<string>)
    requires |attributes| == |names| && forall i :: 0 <= i < |names| ==> AfterDot(attributes[i]) == names[i]
    ensures AnswersNames(c, names, ["connect"] + Values(attributes, c.join, c.settings))
  {
  }

  lemma ReplyAnswers(c: Config, version: string, names: seq<string>)
    requires Plain(version) && forall i :: 0 <= i < |names| ==> Plain(names[i])
    ensures AnswersNames(c, names, Reply(c, Elements([version] + names))[4])
  {
    AttributesNamed(version, names);
    ValuesAnswer(c, SplitCommas(Elements([version] + names))[1..], names);
  }

  /**
   The reply to a handshake that asks for these names, errors in the stream or not: guacd reads the size, the
   audio types, two empty lists, and for each name the value that was set for it.
   */
  lemma ReplyIs(c: Config, chunks: seq<string>, version: string, names: seq<string>)
    requires ';' in Concat(chunks) && HandshakeOf(Concat(chunks)) == Elements([version] + names)
    requires Plain(version) && forall i :: 0 <= i < |names| ==> Plain(names[i])
    ensures var read := ReadInstructions(ReceiveAll(c, STARTED, chunks).written, 5);
            && read != None && |read.value| == 5
            && read.value[0] == ["size"] + c.size && read.value[1] == ["audio"] + c.audio
            && read.value[2] == ["video"] && read.value[3] == ["image"]
            && AnswersNames(c, names, read.value[4])
  {
    ReplyReadsBack(c, chunks);
    ReplyAnswers(c, version, names);
    ReplyHeads(c, HandshakeOf(Concat(chunks)));
  }

  lemma ReplyHeads(c: Config, handshake: string)
    ensures var r := Reply(c, handshake);
            |r| == 5 && r[0] == ["size"] + c.size && r[1] == ["audio"] + c.audio && r[2] == ["video"] && r[3] == ["image"]
  {
  }

  // ---------------------------------------------------------------- what follows the handshake

  function FirstDelimiter(s: seq<Byte>): (i: nat)
    requires DELIMITER in s
    ensures i < |s| && s[i] == DELIMITER && forall j :: 0 <= j < i ==> s[j] != DELIMITER
  {
    if s[0] == DELIMITER then 0 else 1 + FirstDelimiter(s[1..])
  }

  /** The chunks without the bytes of the handshake. */
  function AfterDelimiter(chunks: seq<seq<Byte>>): seq<seq<Byte>>
    decreases |chunks|
  {
    if chunks == [] then []
    else if DELIMITER in chunks[0] then [chunks[0][FirstDelimiter(chunks[0]) + 1..]] + chunks[1..]
    else AfterDelimiter(chunks[1..])
  }

  lemma {:induction false} SemicolonInBytes(s: seq<Byte>)
    ensures ';' in AsciiBytes(s) <==> DELIMITER in s
  {
    if s != [] {
      SemicolonInBytes(s[1..]);
      assert s == [s[0]] + s[1..];
    }
  }

  lemma SemicolonDecoded(s: seq<Byte>)
    ensures ';' in Decode(s) <==> DELIMITER in s
  {
    DecodeKeepsAscii(s);
    SemicolonInAscii(Decode(s));
    SemicolonInBytes(s);
  }

  lemma FirstIs(s: string, i: nat)
    requires i < |s| && s[i] == ';' && forall j :: 0 <= j < i ==> s[j] != ';'
    ensures ';' in s && FirstSemicolon(s) == i
  {
  }

  lemma AfterPlain(a: string, b: string)
    requires ';' !in a
    ensures ';' in a + (";" + b) && AfterHandshake(a + (";" + b)) == b
    ensures ';' in b ==> ';' in a + b && AfterHandshake(a + b) == AfterHandshake(b)
  {
    FirstIs(a + (";" + b), |a|);
    if ';' in b {
      AfterMore(a, b, FirstSemicolon(b));
    }
  }

  lemma AfterMore(a: string, b: string, i: nat)
    requires ';' !in a && ';' in b && i == FirstSemicolon(b)
    ensures ';' in a + b && AfterHandshake(a + b) == AfterHandshake(b)
  {
    var s := a + b;
    forall j | 0 <= j < |a| + i
      ensures s[j] != ';'
    {
      assert s[j] == if j < |a| then a[j] else b[j - |a|];
    }
    FirstIs(s, |a| + i);
    assert s[|a| + i + 1..] == b[i + 1..];
  }

  lemma AfterDelimiterIn(s: seq<Byte>, more: string)
    requires DELIMITER in s
    ensures ';' in Decode(s) + more
    ensures AfterHandshake(Decode(s) + more) == Decode(s[FirstDelimiter(s) + 1..]) + more
  {
    var i := FirstDelimiter(s);
    DecodeAround(s, i);
    assert [s[i] as char] == ";";
    SemicolonDecoded(s[..i]);
    AfterWhole(Decode(s), Decode(s[..i]), Decode(s[i + 1..]), more);
  }

  lemma AfterWhole(whole: string, a: string, b: string, more: string)
    requires whole == a + (";" + b) && ';' !in a
    ensures ';' in whole + more && AfterHandshake(whole + more) == b + more
  {
    AfterPlain(a, b + more);
    Regrouped(a, b, more);
  }

  lemma Regrouped(a: string, b: string, more: string)
    ensures a + (";" + b) + more == a + (";" + (b + more))
  {
  }

  lemma {:induction false} AfterHandshakeIs(chunks: seq<seq<Byte>>)
    requires DELIMITER in Concat(chunks)
    ensures ';' in Concat(Texts(chunks))
    ensures AfterHandshake(Concat(Texts(chunks))) == Concat(Texts(AfterDelimiter(chunks)))
    decreases |chunks|
  {
    TextsStep(chunks);
    if DELIMITER in chunks[0] {
      var rest := [chunks[0][FirstDelimiter(chunks[0]) + 1..]] + chunks[1..];
      AfterDelimiterIn(chunks[0], Concat(Texts(chunks[1..])));
      TextsStep(rest);
      assert rest[1..] == chunks[1..];
    } else {
      SemicolonDecoded(chunks[0]);
      AfterHandshakeIs(chunks[1..]);
      AfterPlain(Decode(chunks[0]), Concat(Texts(chunks[1..])));
    }
  }

  lemma ConcatCons(first: seq<Byte>, chunks: seq<seq<Byte>>)
    ensures Concat([first] + chunks) == first + Concat(chunks)
  {
    assert ([first] + chunks)[1..] == chunks;
  }

  lemma BytesAfterFirst(chunks: seq<seq<Byte>>)
    requires chunks != [] && DELIMITER in chunks[0]
    ensures DELIMITER in Concat(chunks)
    ensures Concat(AfterDelimiter(chunks)) == Concat(chunks)[FirstDelimiter(Concat(chunks)) + 1..]
  {
    FirstInFront(chunks[0], Concat(chunks[1..]));
    ConcatCons(chunks[0][FirstDelimiter(chunks[0]) + 1..], chunks[1..]);
  }

  lemma {:induction false} BytesAfterDelimiter(chunks: seq<seq<Byte>>)
    requires DELIMITER in Concat(chunks)
    ensures Concat(AfterDelimiter(chunks)) == Concat(chunks)[FirstDelimiter(Concat(chunks)) + 1..]
    decreases |chunks|
  {
    if DELIMITER in chunks[0] {
      BytesAfterFirst(chunks);
    } else {
      BytesAfterDelimiter(chunks[1..]);
      FirstBehind(chunks[0], Concat(chunks[1..]));
    }
  }

  lemma FirstInFront(s: seq<Byte>, more: seq<Byte>)
    requires DELIMITER in s
    ensures DELIMITER in s + more && FirstDelimiter(s + more) == FirstDelimiter(s)
    ensures (s + more)[FirstDelimiter(s) + 1..] == s[FirstDelimiter(s) + 1..] + more
  {
    var i := FirstDelimiter(s);
    assert (s + more)[i] == s[i];
    assert forall j :: 0 <= j < i ==> (s + more)[j] == s[j];
  }

  lemma FirstBehind(s: seq<Byte>, more: seq<Byte>)
    requires DELIMITER !in s && DELIMITER in more
    ensures DELIMITER in s + more && FirstDelimiter(s + more) == |s| + FirstDelimiter(more)
    ensures (s + more)[|s| + FirstDelimiter(more) + 1..] == more[FirstDelimiter(more) + 1..]
  {
    var i := FirstDelimiter(more);
    assert (s + more)[|s| + i] == more[i];
    assert forall j :: 0 <= j < |s| ==> (s + more)[j] == s[j];
    assert forall j :: |s| <= j < |s| + i ==> (s + more)[j] == more[j - |s|];
  }

  lemma UncutRest(bytes: seq<Byte>)
    requires DELIMITER in bytes
    ensures ';' in Decode(bytes) && AfterHandshake(Decode(bytes)) == Decode(bytes[FirstDelimiter(bytes) + 1..])
  {
    AfterDelimiterIn(bytes, "");
    NothingMore(Decode(bytes));
    NothingMore(Decode(bytes[FirstDelimiter(bytes) + 1..]));
  }

  lemma NothingMore(text: string)
    ensures text + "" == text
  {
  }

  /** What comes after the handshake is the text of the uncut bytes exactly when no cut splits a character there. */
  lemma RestHarmlessIff(chunks: seq<seq<Byte>>)
    requires DELIMITER in Concat(chunks)
    ensures ';' in Concat(Texts(chunks)) && ';' in Decode(Concat(chunks))
    ensures AfterHandshake(Concat(Texts(chunks))) == AfterHandshake(Decode(Concat(chunks)))
            <==> OnCharacters(AfterDelimiter(chunks))
  {
    AfterHandshakeIs(chunks);
    BytesAfterDelimiter(chunks);
    CutsAreHarmlessIff(AfterDelimiter(chunks));
    UncutRest(Concat(chunks));
  }

  // ---------------------------------------------------------------- from the first byte on

  /** The state of an open client shows the text after the handshake and the reply. */
  lemma TracksDiffer(c: Config, s: State, t: State, a: string, b: string)
    requires ';' in a && ';' in b && Tracks(c, s, a) && Tracks(c, t, b)
    ensures s == t <==> Reply(c, HandshakeOf(a)) == Reply(c, HandshakeOf(b)) && AfterHandshake(a) == AfterHandshake(b)
  {
    SameReply(Reply(c, HandshakeOf(a)), Reply(c, HandshakeOf(b)));
    TracksMeans(c, s, a);
    TracksMeans(c, t, b);
  }

  lemma OpenTracks(c: Config, chunks: seq<seq<Byte>>)
    requires ReceiveBytes(c, STARTED, chunks).phase != Closed
    ensures Tracks(c, ReceiveBytes(c, STARTED, chunks), Concat(Texts(chunks)))
  {
    assert "" + Concat(Texts(chunks)) == Concat(Texts(chunks));
    StreamIgnoresChunks(c, STARTED, "", Texts(chunks));
  }

  /**
   Any cut of the bytes, from the first one on: a client that stays open ends in the state of the uncut bytes
   exactly when no cut splits a character after the handshake and those inside the handshake leave the reply
   as it is.
   */
  lemma SplitFromTheStartIff(c: Config, chunks: seq<seq<Byte>>)
    requires DELIMITER in Concat(chunks)
    requires ReceiveBytes(c, STARTED, chunks).phase != Closed && ReceiveBytes(c, STARTED, [Concat(chunks)]).phase != Closed
    ensures ';' in Concat(Texts(chunks)) && ';' in Decode(Concat(chunks))
    ensures ReceiveBytes(c, STARTED, chunks) == ReceiveBytes(c, STARTED, [Concat(chunks)]) <==>
              && OnCharacters(AfterDelimiter(chunks))
              && Reply(c, HandshakeOf(Concat(Texts(chunks)))) == Reply(c, HandshakeOf(Decode(Concat(chunks))))
  {
    RestHarmlessIff(chunks);
    UncutText(Concat(chunks));
    OpenTracks(c, chunks);
    OpenTracks(c, [Concat(chunks)]);
    TracksDiffer(c, ReceiveBytes(c, STARTED, chunks), ReceiveBytes(c, STARTED, [Concat(chunks)]),
                 Concat(Texts(chunks)), Decode(Concat(chunks)));
  }
}
