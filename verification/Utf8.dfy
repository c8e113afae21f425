/**
 How a received buffer becomes text: UTF-8 as in section 3.9 of the Unicode Standard, each maximal
 subpart of an ill-formed sequence replaced by U+FFFD. The server decodes every chunk on its own
 (server/lib/GuacdClient.js:66, server/lib/ScriptLayer.js:75), so a cut inside a character shows.
 */
module Utf8 {
  import opened Chunks

  type Byte = n: nat | n < 0x100

  const REPLACEMENT := '\U{FFFD}'

  // ---------------------------------------------------------------- one character

  predicate IsContinuation(b: Byte) {
    0x80 <= b < 0xC0
  }

  /** The length of the character that starts with this byte; 0 when none does. */
  function Need(b: Byte): (n: nat)
    ensures n <= 4
  {
    if b < 0x80 then 1
    else if 0xC2 <= b < 0xE0 then 2
    else if 0xE0 <= b < 0xF0 then 3
    else if 0xF0 <= b < 0xF5 then 4
    else 0
  }

  /** The second byte excludes overlong forms, surrogates and values above U+10FFFF. */
  predicate IsSecond(first: Byte, b: Byte) {
    (if first == 0xE0 then 0xA0 else if first == 0xF0 then 0x90 else 0x80) <= b
    < (if first == 0xED then 0xA0 else if first == 0xF4 then 0x90 else 0xC0)
  }

  /** How many bytes the first character of a buffer takes, or the first ill-formed part of it. */
  function Reach(s: seq<Byte>): (n: nat)
    requires s != []
    ensures 0 < n <= |s| && n <= 4
  {
    var need := Need(s[0]);
    if need < 2 || |s| < 2 || !IsSecond(s[0], s[1]) then 1
    else if need < 3 || |s| < 3 || !IsContinuation(s[2]) then 2
    else if need < 4 || |s| < 4 || !IsContinuation(s[3]) then 3
    else 4
  }

  function First(s: seq<Byte>): char
    requires s != []
  {
    if Reach(s) != Need(s[0]) then REPLACEMENT
    else
      match Reach(s)
      case 1 => s[0] as char
      case 2 => (Bits(s[0], 0xC0) * 64 + Bits(s[1], 0x80)) as char
      case 3 => (Bits(s[0], 0xE0) * 4096 + Bits(s[1], 0x80) * 64 + Bits(s[2], 0x80)) as char
      case _ => (Bits(s[0], 0xF0) * 262144 + Bits(s[1], 0x80) * 4096 + Bits(s[2], 0x80) * 64 + Bits(s[3], 0x80)) as char
  }

  function Bits(b: Byte, marker: int): int {
    b as int - marker
  }

  /** `buffer.toString()` */
  function Decode(s: seq<Byte>): string {
    if s == [] then "" else [First(s)] + Decode(s[Reach(s)..])
  }

  /** Position `k` lies between two characters of the buffer. */
  predicate OnBoundary(s: seq<Byte>, k: nat)
    requires k <= |s|
    decreases |s|
  {
    k == 0 || (Reach(s) <= k && OnBoundary(s[Reach(s)..], k - Reach(s)))
  }

  // ---------------------------------------------------------------- what a sender writes

  /** The bytes of one character. */
  function EncodeChar(c: char): (s: seq<Byte>)
    ensures 1 <= |s| <= 4
  {
    var n := c as int;
    if n < 0x80 then [n]
    else if n < 0x800 then [0xC0 + n / 64, 0x80 + n % 64]
    else if n < 0x10000 then [0xE0 + n / 4096, 0x80 + n / 64 % 64, 0x80 + n % 64]
    else [0xF0 + n / 262144, 0x80 + n / 4096 % 64, 0x80 + n / 64 % 64, 0x80 + n % 64]
  }

  function Encode(text: string): seq<Byte> {
    if text == "" then [] else EncodeChar(text[0]) + Encode(text[1..])
  }

  lemma CharReadsBack(c: char, rest: seq<Byte>)
    ensures var s := EncodeChar(c) + rest; s != [] && Reach(s) == |EncodeChar(c)| && First(s) == c
  {
    var n, s := c as int, EncodeChar(c) + rest;
    assert forall i :: 0 <= i < |EncodeChar(c)| ==> s[i] == EncodeChar(c)[i];
    if n >= 0x10000 {
      FourBytes(n);
    } else if n >= 0x800 {
      ThreeBytes(n);
    }
  }

  lemma ThreeBytes(n: int)
    requires 0x800 <= n < 0x10000
    ensures n == n / 4096 * 4096 + n / 64 % 64 * 64 + n % 64
    ensures n < 0x1000 ==> n / 64 % 64 >= 0x20
    ensures 0xD000 <= n < 0xD800 ==> n / 64 % 64 < 0x20
  {
  }

  lemma FourBytes(n: int)
    requires 0x10000 <= n < 0x110000
    ensures n == n / 262144 * 262144 + n / 4096 % 64 * 4096 + n / 64 % 64 * 64 + n % 64
    ensures n < 0x40000 ==> n / 4096 % 64 >= 0x10
    ensures n >= 0x100000 ==> n / 4096 % 64 < 0x10
  {
    var a, b, c := n / 64, n / 4096, n / 262144;
    SixBits(n);
    assert n == a * 64 + n % 64;
    assert a == b * 64 + a % 64;
    assert b == c * 64 + b % 64;
  }

  lemma SixBits(n: int)
    requires 0 <= n
    ensures n / 64 / 64 == n / 4096 && n / 4096 / 64 == n / 262144
  {
  }

  /** Every text is read back from its bytes. */
  lemma {:induction false} EncodeReadsBack(text: string)
    ensures Decode(Encode(text)) == text
  {
    if text != "" {
      var rest := Encode(text[1..]);
      CharReadsBack(text[0], rest);
      assert (EncodeChar(text[0]) + rest)[|EncodeChar(text[0])|..] == rest;
      EncodeReadsBack(text[1..]);
      assert [text[0]] + text[1..] == text;
    }
  }

  // ---------------------------------------------------------------- one cut

  lemma FirstOfPrefix(a: seq<Byte>, b: seq<Byte>)
    requires a != [] && Reach(a + b) <= |a|
    ensures Reach(a) == Reach(a + b) && First(a) == First(a + b)
  {
    assert forall i :: 0 <= i < |a| ==> (a + b)[i] == a[i];
  }

  /** A cut inside a character: the front is ill-formed, and the tail starts with stray bytes. */
  lemma FirstCutShort(a: seq<Byte>, b: seq<Byte>)
    requires a != [] && Reach(a + b) > |a|
    ensures Reach(a) == |a| && First(a) == REPLACEMENT
    ensures forall i :: 0 <= i < Reach(a + b) - |a| ==> IsContinuation(b[i])
  {
    var s := a + b;
    assert forall i :: 0 <= i < |a| ==> s[i] == a[i];
    assert forall i :: 0 <= i < |b| ==> b[i] == s[|a| + i];
    assert forall i :: 1 <= i < Reach(s) ==> IsContinuation(s[i]);
  }

  lemma StrayByte(s: seq<Byte>)
    requires s != [] && IsContinuation(s[0])
    ensures |Decode(s)| == 1 + |Decode(s[1..])|
  {
    assert Reach(s) == 1;
  }

  lemma {:induction false} StrayBytes(s: seq<Byte>, m: nat)
    requires m <= |s| && forall i :: 0 <= i < m ==> IsContinuation(s[i])
    ensures |Decode(s)| == m + |Decode(s[m..])|
    decreases m
  {
    if m > 0 {
      StrayByte(s);
      assert s[1..][m - 1..] == s[m..];
      StrayBytes(s[1..], m - 1);
    } else {
      assert s[0..] == s;
    }
  }

  /** The first character lies before the cut. */
  lemma DecodeBefore(a: seq<Byte>, b: seq<Byte>)
    requires a != [] && Reach(a + b) <= |a|
    ensures var n := Reach(a + b);
            && (a + b)[n..] == a[n..] + b
            && Decode(a) == [First(a + b)] + Decode(a[n..])
            && Decode(a + b) == [First(a + b)] + Decode(a[n..] + b)
  {
    FirstOfPrefix(a, b);
    assert (a + b)[Reach(a)..] == a[Reach(a)..] + b;
  }

  /** The first character is cut. */
  lemma DecodeInside(a: seq<Byte>, b: seq<Byte>)
    requires a != [] && Reach(a + b) > |a|
    ensures |Decode(a + b)| < |Decode(a)| + |Decode(b)|
  {
    var n := Reach(a + b);
    FirstCutShort(a, b);
    assert a[|a|..] == [];
    assert (a + b)[n..] == b[n - |a|..];
    StrayBytes(b, n - |a|);
  }

  /**
   One cut: on a character boundary the two texts join to the text of the whole, and anywhere else the
   two have more characters than the whole.
   */
  lemma {:induction false} DecodeAppend(a: seq<Byte>, b: seq<Byte>)
    ensures if OnBoundary(a + b, |a|) then Decode(a + b) == Decode(a) + Decode(b)
            else |Decode(a + b)| < |Decode(a)| + |Decode(b)|
    decreases |a|
  {
    if a == [] {
      assert a + b == b;
    } else if Reach(a + b) <= |a| {
      DecodeBefore(a, b);
      DecodeAppend(a[Reach(a + b)..], b);
    } else {
      DecodeInside(a, b);
    }
  }

  // ---------------------------------------------------------------- any number of cuts

  /** Each chunk decoded on its own, as the server does. */
  function Texts(chunks: seq<seq<Byte>>): (texts: seq<string>)
    ensures |texts| == |chunks|
    ensures forall i :: 0 <= i < |chunks| ==> texts[i] == Decode(chunks[i])
  {
    seq(|chunks|, i requires 0 <= i < |chunks| => Decode(chunks[i]))
  }

  /** Every cut lies between two characters. */
  predicate OnCharacters(chunks: seq<seq<Byte>>)
    decreases |chunks|
  {
    chunks != [] ==>
      && |chunks[0]| <= |Concat(chunks)|
      && OnBoundary(Concat(chunks), |chunks[0]|)
      && OnCharacters(chunks[1..])
  }

  lemma TextsStep(chunks: seq<seq<Byte>>)
    requires chunks != []
    ensures Texts(chunks)[1..] == Texts(chunks[1..]) && Concat(Texts(chunks)) == Decode(chunks[0]) + Concat(Texts(chunks[1..]))
  {
    assert Texts(chunks)[1..] == Texts(chunks[1..]);
  }

  lemma {:induction false} TextsLength(chunks: seq<seq<Byte>>)
    ensures if OnCharacters(chunks) then Concat(Texts(chunks)) == Decode(Concat(chunks))
            else |Concat(Texts(chunks))| > |Decode(Concat(chunks))|
    decreases |chunks|
  {
    if chunks != [] {
      TextsStep(chunks);
      TextsLength(chunks[1..]);
      DecodeAppend(chunks[0], Concat(chunks[1..]));
    }
  }

  /** The chunks decode to the text of the whole exactly when no cut splits a character. */
  lemma CutsAreHarmlessIff(chunks: seq<seq<Byte>>)
    ensures Concat(Texts(chunks)) == Decode(Concat(chunks)) <==> OnCharacters(chunks)
  {
    TextsLength(chunks);
  }

  /** The two bytes of "é" in two chunks are two replacement characters. */
  lemma SplitAccent()
    ensures Decode([0xC3, 0xA9]) == "\U{E9}"
    ensures Concat(Texts([[0xC3], [0xA9]])) == [REPLACEMENT, REPLACEMENT]
    ensures !OnCharacters([[0xC3], [0xA9]])
  {
    assert [0xC3, 0xA9][2..] == [];
    assert Decode([0xC3]) == [REPLACEMENT] by { assert [0xC3][1..] == []; }
    assert Decode([0xA9]) == [REPLACEMENT] by { assert [0xA9][1..] == []; }
    var chunks: seq<seq<Byte>> := [[0xC3], [0xA9]];
    ConcatTwo(Texts(chunks)[0], Texts(chunks)[1]);
    assert Texts(chunks) == [Texts(chunks)[0], Texts(chunks)[1]];
    ConcatTwo(chunks[0], chunks[1]);
    assert chunks[0] + chunks[1] == [0xC3, 0xA9];
    CutsAreHarmlessIff(chunks);
  }

  // ---------------------------------------------------------------- ASCII is never touched

  /** The ASCII characters of a text, in order. */
  function AsciiOf(text: string): string {
    if text == "" then "" else (if text[0] as int < 0x80 then [text[0]] else "") + AsciiOf(text[1..])
  }

  function AsciiBytes(s: seq<Byte>): string {
    if s == [] then "" else (if s[0] < 0x80 then [s[0] as char] else "") + AsciiBytes(s[1..])
  }

  lemma {:induction false} AsciiAppend(a: string, b: string)
    ensures AsciiOf(a + b) == AsciiOf(a) + AsciiOf(b)
  {
    if a == "" {
      assert a + b == b;
    } else {
      assert (a + b)[1..] == a[1..] + b;
      AsciiAppend(a[1..], b);
    }
  }

  lemma {:induction false} AsciiBytesAppend(a: seq<Byte>, b: seq<Byte>)
    ensures AsciiBytes(a + b) == AsciiBytes(a) + AsciiBytes(b)
  {
    if a == [] {
      assert a + b == b;
    } else {
      assert (a + b)[1..] == a[1..] + b;
      AsciiBytesAppend(a[1..], b);
    }
  }

  lemma {:induction false} NoAsciiBytes(s: seq<Byte>)
    requires forall i :: 0 <= i < |s| ==> s[i] >= 0x80
    ensures AsciiBytes(s) == ""
  {
    if s != [] {
      NoAsciiBytes(s[1..]);
    }
  }

  /** A character comes from one ASCII byte, or from bytes that are none. */
  lemma FirstIsAsciiIff(s: seq<Byte>)
    requires s != []
    ensures First(s) as int < 0x80 <==> s[0] < 0x80
    ensures s[0] < 0x80 ==> Reach(s) == 1 && First(s) == s[0] as char
    ensures s[0] >= 0x80 ==> forall i :: 0 <= i < Reach(s) ==> s[i] >= 0x80
  {
  }

  lemma {:induction false} DecodeKeepsAscii(s: seq<Byte>)
    ensures AsciiOf(Decode(s)) == AsciiBytes(s)
    decreases |s|
  {
    if s != [] {
      var n := Reach(s);
      FirstIsAsciiIff(s);
      DecodeKeepsAscii(s[n..]);
      AsciiAppend([First(s)], Decode(s[n..]));
      assert s == s[..n] + s[n..];
      AsciiBytesAppend(s[..n], s[n..]);
      if s[0] >= 0x80 {
        NoAsciiBytes(s[..n]);
      } else {
        assert s[..n][1..] == [];
      }
    }
  }

  lemma {:induction false} TextsKeepAscii(chunks: seq<seq<Byte>>)
    ensures AsciiOf(Concat(Texts(chunks))) == AsciiBytes(Concat(chunks))
    decreases |chunks|
  {
    if chunks != [] {
      TextsStep(chunks);
      TextsKeepAscii(chunks[1..]);
      DecodeKeepsAscii(chunks[0]);
      AsciiAppend(Decode(chunks[0]), Concat(Texts(chunks[1..])));
      AsciiBytesAppend(chunks[0], Concat(chunks[1..]));
    }
  }

  /** Whatever the cuts do to other characters, every ASCII character arrives, once and in order. */
  lemma CutsKeepAscii(chunks: seq<seq<Byte>>)
    ensures AsciiOf(Concat(Texts(chunks))) == AsciiOf(Decode(Concat(chunks)))
  {
    TextsKeepAscii(chunks);
    DecodeKeepsAscii(Concat(chunks));
  }

  lemma {:induction false} AsciiOnBoundary(s: seq<Byte>, i: nat)
    requires i < |s| && s[i] < 0x80
    ensures OnBoundary(s, i)
    decreases |s|
  {
    if i > 0 {
      FirstIsAsciiIff(s);
      var n := Reach(s);
      assert n <= i;
      assert s[n..][i - n] == s[i];
      AsciiOnBoundary(s[n..], i - n);
    }
  }

  /** The text around an ASCII byte. */
  lemma DecodeAround(s: seq<Byte>, i: nat)
    requires i < |s| && s[i] < 0x80
    ensures Decode(s) == Decode(s[..i]) + ([s[i] as char] + Decode(s[i + 1..]))
  {
    AsciiOnBoundary(s, i);
    assert s == s[..i] + s[i..];
    DecodeAppend(s[..i], s[i..]);
    FirstIsAsciiIff(s[i..]);
    assert s[i..][1..] == s[i + 1..];
  }

  // ---------------------------------------------------------------- cuts of the text are cuts of the bytes

  lemma PrefixStep(s: seq<Byte>, m: nat)
    requires s != [] && Reach(s) + m <= |s|
    ensures var r := Reach(s);
            && s[r + m..] == s[r..][m..]
            && Decode(s[..r + m]) == [First(s)] + Decode(s[r..][..m])
  {
    var a, b := s[..Reach(s) + m], s[Reach(s) + m..];
    assert a + b == s;
    FirstOfPrefix(a, b);
    assert a[Reach(s)..] == s[Reach(s)..][..m];
  }

  predicate CutsInto(s: seq<Byte>, n: nat, front: string, back: string) {
    n <= |s| && OnBoundary(s, n) && Decode(s[..n]) == front && Decode(s[n..]) == back
  }

  lemma DecodeHead(s: seq<Byte>, front: string, back: string)
    requires front != "" && Decode(s) == front + back
    ensures s != [] && First(s) == front[0] && Decode(s[Reach(s)..]) == front[1..] + back
  {
    assert Decode(s)[0] == (front + back)[0];
    assert (front + back)[1..] == front[1..] + back;
  }

  lemma CutNext(s: seq<Byte>, m: nat, front: string, back: string)
    requires s != [] && CutsInto(s[Reach(s)..], m, front, back)
    ensures CutsInto(s, Reach(s) + m, [First(s)] + front, back)
  {
    PrefixStep(s, m);
  }

  lemma {:induction false} CharacterAt(s: seq<Byte>, front: string, back: string) returns (n: nat)
    requires Decode(s) == front + back
    ensures CutsInto(s, n, front, back)
    decreases |front|
  {
    if front == "" {
      n := 0;
      assert s[0..] == s && front + back == back;
    } else {
      DecodeHead(s, front, back);
      var m := CharacterAt(s[Reach(s)..], front[1..], back);
      CutNext(s, m, front[1..], back);
      n := Reach(s) + m;
      assert [front[0]] + front[1..] == front;
    }
  }

  lemma CutsAdd(s: seq<Byte>, n: nat, texts: seq<string>, more: seq<seq<Byte>>)
    requires texts != [] && CutsInto(s, n, texts[0], Concat(texts[1..]))
    requires Concat(more) == s[n..] && OnCharacters(more) && Texts(more) == texts[1..]
    ensures var chunks := [s[..n]] + more;
            Concat(chunks) == s && OnCharacters(chunks) && Texts(chunks) == texts
  {
    var chunks := [s[..n]] + more;
    assert chunks[1..] == more && s[..n] + s[n..] == s;
    TextsStep(chunks);
    assert Texts(chunks) == [texts[0]] + texts[1..];
  }

  /** Every way of cutting the text comes from a way of cutting the bytes between characters. */
  lemma {:induction false} CutsOfText(s: seq<Byte>, texts: seq<string>) returns (chunks: seq<seq<Byte>>)
    requires Concat(texts) == Decode(s)
    ensures Concat(chunks) == s && OnCharacters(chunks) && Texts(chunks) == texts
    decreases |texts|
  {
    if texts == [] {
      chunks := [];
    } else {
      var n := CharacterAt(s, texts[0], Concat(texts[1..]));
      var more := CutsOfText(s[n..], texts[1..]);
      CutsAdd(s, n, texts, more);
      chunks := [s[..n]] + more;
    }
  }
}
