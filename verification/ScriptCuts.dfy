/**
 What the cuts of a script's output do to the lines that are handled: nothing, as long as they split no
 character, no chunk holds a password prompt and the script has not ended; and exactly when they show.
 */
module ScriptCuts {
  import opened Chunks
  import opened ScriptStream
  import opened ScriptText
  import opened Utf8
  import opened Wrappers

  predicate NoNewline(s: string) {
    forall i :: 0 <= i < |s| ==> s[i] != '\n'
  }

  predicate NoPrompts(chunks: seq<string>) {
    forall i :: 0 <= i < |chunks| ==> !IsSudoPrompt(chunks[i])
  }

  predicate NoEnd(lines: seq<string>) {
    forall i :: 0 <= i < |lines| ==> !IsEnd(lines[i])
  }

  /** The first end marker is line `k`. */
  predicate EndsAt(lines: seq<string>, k: nat) {
    k < |lines| && NoEnd(lines[..k]) && IsEnd(lines[k])
  }

  // ---------------------------------------------------------------- handling lines

  lemma {:induction false} HandleNoEnd(s: State, lines: seq<string>)
    requires NoEnd(lines)
    ensures HandleLines(s, lines) == s.(handled := s.handled + lines)
    decreases |lines|
  {
    if lines == [] {
      assert s.handled + lines == s.handled;
    } else {
      HandleNoEnd(HandleLine(s, lines[0]), lines[1..]);
      assert s.handled + lines == s.handled + [lines[0]] + lines[1..];
    }
  }

  lemma {:induction false} HandleSplit(s: State, a: seq<string>, b: seq<string>)
    ensures HandleLines(s, a + b) == HandleLines(HandleLines(s, a), b)
    decreases |a|
  {
    if a == [] {
      assert a + b == b;
    } else {
      assert (a + b)[1..] == a[1..] + b;
      HandleSplit(HandleLine(s, a[0]), a[1..], b);
    }
  }

  /** After the end, lines are still handled and nothing else happens. */
  lemma {:induction false} HandleAfterEnd(s: State, lines: seq<string>)
    requires !s.running
    ensures HandleLines(s, lines) == s.(handled := s.handled + lines)
    decreases |lines|
  {
    if lines == [] {
      assert s.handled + lines == s.handled;
    } else {
      HandleAfterEnd(HandleLine(s, lines[0]), lines[1..]);
      assert s.handled + lines == s.handled + [lines[0]] + lines[1..];
    }
  }

  function Halted(s: State, handled: seq<string>): State {
    s.(buffer := "", running := false, listening := false, handled := handled)
  }

  lemma HandleToEnd(s: State, before: seq<string>, end: string, after: seq<string>)
    requires NoEnd(before) && IsEnd(end) && s.running
    ensures HandleLines(s, before + ([end] + after))
            == Halted(s, s.handled + before + [end] + Leftover(s.buffer) + after)
  {
    HandleSplit(s, before, [end] + after);
    HandleNoEnd(s, before);
    var mid := s.(handled := s.handled + before);
    assert ([end] + after)[1..] == after;
    HandleAfterEnd(HandleLine(mid, end), after);
  }

  lemma AroundIndex(lines: seq<string>, k: nat)
    requires k < |lines|
    ensures lines == lines[..k] + ([lines[k]] + lines[k + 1..])
  {
  }

  lemma EarlierLines(a: seq<string>, b: seq<string>)
    requires NoEnd(a + b)
    ensures NoEnd(a) && NoEnd(b)
  {
    assert forall i :: 0 <= i < |a| ==> a[i] == (a + b)[i];
    assert forall i :: 0 <= i < |b| ==> b[i] == (a + b)[|a| + i];
  }

  lemma {:induction false} Deaf(s: State, chunks: seq<string>)
    requires !s.listening
    ensures ReceiveAll(s, chunks) == s
    decreases |chunks|
  {
    if chunks != [] {
      Deaf(s, chunks[1..]);
    }
  }

  lemma {:induction false} ReceiveSplit(s: State, a: seq<string>, b: seq<string>)
    ensures ReceiveAll(s, a + b) == ReceiveAll(ReceiveAll(s, a), b)
    decreases |a|
  {
    if a == [] {
      assert a + b == b;
    } else {
      assert (a + b)[1..] == a[1..] + b;
      ReceiveSplit(Receive(s, a[0]), a[1..], b);
    }
  }

  // ---------------------------------------------------------------- before the end

  /** The state after a text without an end marker: its lines are handled, its rest is in the buffer. */
  predicate Tracks(s: State, text: string) {
    NoEnd(Cut(text).0) && s == State(Cut(text).1, true, true, Cut(text).0, 0)
  }

  lemma ReceiveTracks(s: State, text: string, chunk: string)
    requires Tracks(s, text) && !IsSudoPrompt(chunk) && NoEnd(Cut(text + chunk).0)
    ensures Tracks(Receive(s, chunk), text + chunk)
  {
    CutAppend(text, chunk);
    var (lines, rest) := Cut(Cut(text).1 + chunk);
    EarlierLines(Cut(text).0, lines);
    HandleNoEnd(s.(buffer := rest), lines);
  }

  lemma NoEndYet(text: string, more: string)
    requires NoEnd(Cut(text + more).0)
    ensures NoEnd(Cut(text).0)
  {
    CutAppend(text, more);
    EarlierLines(Cut(text).0, Cut(Cut(text).1 + more).0);
  }

  /**
   While the script runs and asks for no password, the handled lines are the complete lines of its output
   and the buffer is the unfinished one: the cuts between chunks leave no trace.
   */
  lemma {:induction false} LinesIgnoreChunks(s: State, text: string, chunks: seq<string>)
    requires Tracks(s, text) && NoPrompts(chunks) && NoEnd(Cut(text + Concat(chunks)).0)
    ensures Tracks(ReceiveAll(s, chunks), text + Concat(chunks))
    decreases |chunks|
  {
    if chunks == [] {
      assert text + Concat(chunks) == text;
    } else {
      ConcatStep(text, chunks);
      NoEndYet(text + chunks[0], Concat(chunks[1..]));
      ReceiveTracks(s, text, chunks[0]);
      LinesIgnoreChunks(Receive(s, chunks[0]), text + chunks[0], chunks[1..]);
    }
  }

  // ---------------------------------------------------------------- the end

  /**
   What a chunk leaves that brings the end marker and completes the output to `text`: the lines up to the
   marker, then the unfinished line, then the other lines of the chunk.
   */
  function EndState(text: string, k: nat): State
    requires k < |Cut(text).0|
  {
    var (lines, rest) := Cut(text);
    State("", false, false, lines[..k + 1] + Leftover(rest) + lines[k + 1..], 0)
  }

  lemma EndIsNew(text: string, chunk: string, k: nat)
    requires NoEnd(Cut(text).0) && EndsAt(Cut(text + chunk).0, k)
    ensures |Cut(text).0| <= k && Cut(text).0 <= Cut(text + chunk).0
  {
    CutAppend(text, chunk);
    assert forall i :: 0 <= i < |Cut(text).0| ==> Cut(text + chunk).0[i] == Cut(text).0[i];
  }

  lemma SplitLines(was: seq<string>, lines: seq<string>, k: nat)
    requires |was| <= k < |was + lines|
    ensures (was + lines)[..k] == was + lines[..k - |was|] && (was + lines)[k] == lines[k - |was|]
    ensures (was + lines)[..k + 1] == was + lines[..k - |was|] + [lines[k - |was|]]
    ensures (was + lines)[k + 1..] == lines[k - |was| + 1..]
  {
  }

  lemma ReceiveEnd(s: State, text: string, chunk: string, k: nat)
    requires Tracks(s, text) && !IsSudoPrompt(chunk) && EndsAt(Cut(text + chunk).0, k)
    ensures Receive(s, chunk) == EndState(text + chunk, k)
  {
    CutAppend(text, chunk);
    EndIsNew(text, chunk, k);
    var was := Cut(text).0;
    var (lines, rest) := Cut(Cut(text).1 + chunk);
    var j := k - |was|;
    SplitLines(was, lines, k);
    EarlierLines(was, lines[..j]);
    HandleToEnd(s.(buffer := rest), lines[..j], lines[j], lines[j + 1..]);
    AroundIndex(lines, j);
  }

  lemma EndsLater(text: string, more: string, k: nat)
    requires EndsAt(Cut(text + more).0, k)
    ensures if k < |Cut(text).0| then EndsAt(Cut(text).0, k) else NoEnd(Cut(text).0)
  {
    CutAppend(text, more);
    var here, all := Cut(text).0, Cut(text + more).0;
    assert here <= all;
    if k < |here| {
      assert here[..k] == all[..k] && here[k] == all[k];
    } else {
      assert all[..k] == here + all[|here|..k];
      EarlierLines(here, all[|here|..k]);
    }
  }

  lemma NotEnded(text: string, k: nat)
    requires NoEnd(Cut(text).0)
    ensures !EndsAt(Cut(text + "").0, k)
  {
    assert text + "" == text;
  }

  lemma FirstChunks(text: string, chunks: seq<string>, n: nat)
    requires chunks != [] && n <= |chunks| - 1
    ensures text + Concat(chunks[..n + 1]) == text + chunks[0] + Concat(chunks[1..][..n])
  {
    assert chunks[..n + 1][1..] == chunks[1..][..n];
    ConcatStep(text, chunks[..n + 1]);
  }

  /** Exactly what is handled once the output holds the end marker: it depends on the chunk that brings it. */
  lemma {:induction false} EndInChunk(s: State, text: string, chunks: seq<string>, k: nat) returns (n: nat)
    requires Tracks(s, text) && NoPrompts(chunks) && EndsAt(Cut(text + Concat(chunks)).0, k)
    ensures n < |chunks|
    ensures |Cut(text + Concat(chunks[..n])).0| <= k < |Cut(text + Concat(chunks[..n + 1])).0|
    ensures ReceiveAll(s, chunks) == EndState(text + Concat(chunks[..n + 1]), k)
    decreases |chunks|
  {
    n := 0;
    if chunks == [] {
      NotEnded(text, k);
    } else {
      var now := text + chunks[0];
      ConcatStep(text, chunks);
      EndsLater(now, Concat(chunks[1..]), k);
      FirstChunks(text, chunks, 0);
      assert now + "" == now && text + "" == text;
      if k < |Cut(now).0| {
        EndIsNew(text, chunks[0], k);
        ReceiveEnd(s, text, chunks[0], k);
        Deaf(Receive(s, chunks[0]), chunks[1..]);
      } else {
        ReceiveTracks(s, text, chunks[0]);
        var m := EndInChunk(Receive(s, chunks[0]), now, chunks[1..], k);
        n := m + 1;
        FirstChunks(text, chunks, m);
        FirstChunks(text, chunks, m + 1);
      }
    }
  }

  // ---------------------------------------------------------------- when cuts show, without prompts

  /** The end marker is the last complete line, and what follows it is blank. */
  predicate EndsCleanly(text: string) {
    var (lines, rest) := Cut(text);
    lines != [] && EndsAt(lines, |lines| - 1) && Trim(rest) == ""
  }

  predicate Blank(s: string) {
    forall i :: 0 <= i < |s| ==> IsSpace(s[i])
  }

  lemma {:induction false} TrimEndOfBlank(s: string)
    requires Blank(s)
    ensures TrimEnd(s) == ""
    decreases |s|
  {
    if s != "" {
      TrimEndOfBlank(s[..|s| - 1]);
    }
  }

  lemma {:induction false} TrimEndKeepsHead(s: string)
    requires s != "" && !IsSpace(s[0])
    ensures TrimEnd(s) != ""
    decreases |s|
  {
    if IsSpace(s[|s| - 1]) {
      TrimEndKeepsHead(s[..|s| - 1]);
    }
  }

  lemma {:induction false} TrimBlankIff(s: string)
    ensures Trim(s) == "" <==> Blank(s)
  {
    if s != "" && IsSpace(s[0]) {
      TrimBlankIff(s[1..]);
      assert Blank(s[1..]) <==> Blank(s) by {
        assert forall i :: 0 < i < |s| ==> s[i] == s[1..][i - 1];
      }
    } else if s != "" {
      TrimEndKeepsHead(s);
    }
  }

  lemma {:induction false} NoLinesMeansRest(s: string)
    requires Cut(s).0 == []
    ensures Cut(s).1 == s
  {
    if s != "" {
      NoLinesMeansRest(s[1..]);
    }
  }

  /** With a clean end the chunk that brings it has no say. */
  lemma CleanEndIsOne(text: string, more: string, k: nat)
    requires EndsCleanly(text + more) && k == |Cut(text + more).0| - 1 && k < |Cut(text).0|
    ensures EndState(text, k) == State("", false, false, Cut(text + more).0, 0)
  {
    CutAppend(text, more);
    var here, rest := Cut(text).0, Cut(text).1;
    assert Cut(rest + more).0 == [];
    NoLinesMeansRest(rest + more);
    TrimBlankIff(rest + more);
    TrimBlankIff(rest);
    assert forall i :: 0 <= i < |rest| ==> rest[i] == (rest + more)[i];
    assert Leftover(rest) == [] && here[..k + 1] == here;
  }

  lemma CleanEndAgrees(chunks: seq<string>)
    requires NoPrompts(chunks) && EndsCleanly(Concat(chunks))
    ensures ReceiveAll(STARTED, chunks) == State("", false, false, Cut(Concat(chunks)).0, 0)
  {
    assert "" + Concat(chunks) == Concat(chunks);
    var k := |Cut(Concat(chunks)).0| - 1;
    var n := EndInChunk(STARTED, "", chunks, k);
    var front, back := chunks[..n + 1], chunks[n + 1..];
    assert chunks == front + back && "" + Concat(front) == Concat(front);
    ConcatAppend(front, back);
    CleanEndIsOne(Concat(front), Concat(back), k);
  }

  lemma {:induction false} FirstEnd(lines: seq<string>) returns (k: nat)
    requires !NoEnd(lines)
    ensures EndsAt(lines, k)
    decreases |lines|
  {
    if IsEnd(lines[0]) {
      k := 0;
    } else {
      var j := FirstEnd(EndInRest(lines));
      k := j + 1;
      assert lines[..k] == [lines[0]] + lines[1..][..j];
    }
  }

  function EndInRest(lines: seq<string>): (rest: seq<string>)
    requires !NoEnd(lines) && !IsEnd(lines[0])
    ensures rest == lines[1..] && !NoEnd(rest)
  {
    assert NoEnd(lines[1..]) ==> NoEnd(lines) by {
      assert forall i :: 0 < i < |lines| ==> lines[i] == lines[1..][i - 1];
    }
    lines[1..]
  }

  lemma CutNewline(before: string)
    ensures Cut(before + "\n") == (Cut(before).0 + [Cut(before).1], "")
  {
    CutAppend(before, "\n");
    LineOnly(before);
  }

  lemma LineOnly(before: string)
    ensures Cut(Cut(before).1 + "\n") == ([Cut(before).1], "")
  {
    CutLeavesNoNewline(before);
    OneLine(Cut(before).1);
  }

  /** Neither the lines nor the rest contain a line end. */
  lemma {:induction false} CutLeavesNoNewline(s: string)
    ensures NoNewline(Cut(s).1) && forall i :: 0 <= i < |Cut(s).0| ==> NoNewline(Cut(s).0[i])
  {
    if s != "" {
      CutLeavesNoNewline(s[1..]);
    }
  }

  lemma {:induction false} OneLine(line: string)
    requires NoNewline(line)
    ensures Cut(line + "\n") == ([line], "")
  {
    var s := line + "\n";
    if line == "" {
      assert s == "\n" && s[1..] == "" && [""] + [] == [""];
    } else {
      assert s[1..] == line[1..] + "\n";
      OneLine(line[1..]);
      assert [line[0]] + line[1..] == line;
      assert [line] + [line[1..]][1..] == [line];
    }
  }

  /** The text around the line end of line `k`. */
  lemma {:induction false} LineEnd(text: string, k: nat) returns (before: string, after: string)
    requires k < |Cut(text).0|
    ensures text == before + "\n" + after
    ensures |Cut(before).0| == k
    decreases |text|
  {
    var c, tail := text[0], text[1..];
    if c == '\n' && k == 0 {
      before, after := "", tail;
      assert text == "\n" + tail;
    } else {
      var b, a := LineEnd(tail, if c == '\n' then k - 1 else k);
      before, after := [c] + b, a;
      assert before[1..] == b;
      assert text == [c] + tail;
      assert [c] + b + "\n" + a == [c] + (b + "\n" + a);
    }
  }

  /** Lines before and after a line end. */
  lemma AroundLineEnd(before: string, after: string)
    ensures Cut(before + "\n" + after).0 == Cut(before + "\n").0 + Cut(after).0
    ensures Cut(before + "\n" + after).1 == Cut(after).1
  {
    CutNewline(before);
    CutAppend(before + "\n", after);
    assert "" + after == after;
  }

  // ---------------------------------------------------------------- what can be a prompt

  lemma {:induction false} IncludedAt(s: string, part: string) returns (i: nat)
    requires Includes(s, part)
    ensures i + |part| <= |s| && s[i..i + |part|] == part
  {
    if StartsWith(s, part) {
      i := 0;
    } else {
      var j := IncludedAt(s[1..], part);
      i := j + 1;
      assert s[1..][j..j + |part|] == s[i..i + |part|];
    }
  }

  lemma {:induction false} IncludesInner(a: string, s: string, b: string, part: string)
    requires Includes(s, part)
    ensures Includes(a + s + b, part)
  {
    if a != "" {
      assert (a + s + b)[1..] == a[1..] + s + b;
      IncludesInner(a[1..], s, b, part);
    } else if StartsWith(s, part) {
      assert (a + s + b)[..|part|] == s[..|part|];
    } else {
      assert (a + s + b)[1..] == "" + s[1..] + b;
      IncludesInner("", s[1..], b, part);
    }
  }

  lemma PromptInner(a: string, s: string, b: string)
    requires IsSudoPrompt(s)
    ensures IsSudoPrompt(a + s + b)
  {
    if Includes(s, "[sudo] password for") { IncludesInner(a, s, b, "[sudo] password for"); }
    if Includes(s, "Password:") { IncludesInner(a, s, b, "Password:"); }
    if Includes(s, "sudo: a password is required") { IncludesInner(a, s, b, "sudo: a password is required"); }
    if Includes(s, "sudo: a terminal is required") { IncludesInner(a, s, b, "sudo: a terminal is required"); }
  }

  lemma PromptInPart(a: string, b: string)
    requires IsSudoPrompt(a) || IsSudoPrompt(b)
    ensures IsSudoPrompt(a + b)
  {
    if IsSudoPrompt(a) {
      PromptInner("", a, b);
      assert "" + a + b == a + b;
    } else {
      PromptInner(a, b, "");
      assert a + b + "" == a + b;
    }
  }

  /** Chunks of a text without a prompt hold none. */
  lemma {:induction false} ChunksHoldNoPrompt(chunks: seq<string>)
    requires !IsSudoPrompt(Concat(chunks))
    ensures NoPrompts(chunks)
    decreases |chunks|
  {
    if chunks != [] {
      var c, rest := chunks[0], Concat(chunks[1..]);
      if IsSudoPrompt(c) || IsSudoPrompt(rest) {
        PromptInPart(c, rest);
      } else {
        ChunksHoldNoPrompt(chunks[1..]);
        assert chunks == [c] + chunks[1..];
      }
    }
  }

  /** At most the last character is visible. */
  predicate LateInk(s: string) {
    forall i :: 0 <= i < |s| - 1 ==> IsSpace(s[i])
  }

  lemma LateInkExcludes(s: string, part: string)
    requires LateInk(s) && |part| > 1 && !IsSpace(part[0])
    ensures !Includes(s, part)
  {
    if Includes(s, part) {
      var i := IncludedAt(s, part);
    }
  }

  /** A prompt takes more than one visible character. */
  lemma LateInkIsNoPrompt(s: string)
    requires LateInk(s)
    ensures !IsSudoPrompt(s)
  {
    LateInkExcludes(s, "[sudo] password for");
    LateInkExcludes(s, "Password:");
    LateInkExcludes(s, "sudo: a password is required");
    LateInkExcludes(s, "sudo: a terminal is required");
  }

  lemma SinglesHoldNoPrompt(s: string)
    ensures NoPrompts(Singles(s))
  {
    forall i | 0 <= i < |Singles(s)|
      ensures !IsSudoPrompt(Singles(s)[i])
    {
      LateInkIsNoPrompt(Singles(s)[i]);
    }
  }

  lemma NoPromptsAppend(a: seq<string>, b: seq<string>)
    requires NoPrompts(a) && NoPrompts(b)
    ensures NoPrompts(a + b)
  {
  }

  // ---------------------------------------------------------------- two cuts that differ

  /** The shortest front that ends a line or shows something. */
  lemma {:induction false} FirstInk(s: string) returns (m: nat)
    requires Cut(s).0 != [] || Trim(Cut(s).1) != ""
    ensures 0 < m <= |s| && LateInk("\n" + s[..m])
    ensures Cut(s[..m]).0 != [] || Trim(Cut(s[..m]).1) != ""
  {
    if s[0] == '\n' {
      m := 1;
      assert s[..1] == "\n";
      assert Cut("\n").0 == [""] + Cut("").0;
    } else if !IsSpace(s[0]) {
      m := 1;
      assert s[..1] == [s[0]];
      TrimBlankIff(s[..1]);
      NoLinesMeansRest(s[..1]);
    } else {
      InkAfterBlank(s);
      var j := FirstInk(s[1..]);
      m := j + 1;
      assert s[..m] == [s[0]] + s[1..][..j];
      BlankBeforeInk(s[0], s[1..][..j]);
    }
  }

  lemma InkAfterBlank(s: string)
    requires s != "" && IsSpace(s[0]) && s[0] != '\n'
    requires Cut(s).0 != [] || Trim(Cut(s).1) != ""
    ensures Cut(s[1..]).0 != [] || Trim(Cut(s[1..]).1) != ""
  {
    TrimBlankIff(Cut(s).1);
    TrimBlankIff(Cut(s[1..]).1);
  }

  lemma BlankBeforeInk(c: char, s: string)
    requires IsSpace(c) && c != '\n' && LateInk("\n" + s)
    requires Cut(s).0 != [] || Trim(Cut(s).1) != ""
    ensures LateInk("\n" + ([c] + s))
    ensures Cut([c] + s).0 != [] || Trim(Cut([c] + s).1) != ""
  {
    var t := [c] + s;
    assert t[1..] == s;
    assert forall i :: 1 < i < |t| + 1 ==> ("\n" + t)[i] == ("\n" + s)[i - 1];
    TrimBlankIff(Cut(s).1);
    TrimBlankIff(Cut(t).1);
    assert Cut(s).0 == [] ==> Cut(t).1 == [c] + Cut(s).1;
    if Cut(s).0 == [] {
      assert Cut(t).1[1..] == Cut(s).1;
    }
  }

  /** The output up to the line end of the marker, character by character. */
  lemma BeforeMarker(before: string)
    requires NoEnd(Cut(before).0)
    ensures Tracks(ReceiveAll(STARTED, Singles(before)), before)
  {
    SinglesHoldNoPrompt(before);
    ConcatSingles(before);
    assert "" + before == before;
    LinesIgnoreChunks(STARTED, "", Singles(before));
  }

  /** The marker's line end with `more` in its chunk, everything else character by character. */
  lemma MarkerChunk(before: string, more: string, after: string) returns (chunks: seq<string>)
    requires NoEnd(Cut(before).0) && IsEnd(Cut(before).1) && LateInk("\n" + more)
    ensures Concat(chunks) == before + "\n" + more + after && NoPrompts(chunks)
    ensures ReceiveAll(STARTED, chunks).handled == Cut(before + "\n").0 + Leftover(Cut(more).1) + Cut(more).0
  {
    var chunk := "\n" + more;
    var front, back := Singles(before), [chunk] + Singles(after);
    chunks := front + back;
    ConcatAppend(front, back);
    ConcatSingles(before);
    ConcatSingles(after);
    assert back[1..] == Singles(after);
    Regroup4(before, more, after);
    LateInkIsNoPrompt(chunk);
    SinglesHoldNoPrompt(before);
    SinglesHoldNoPrompt(after);
    NoPromptsAppend([chunk], Singles(after));
    NoPromptsAppend(front, back);
    BeforeMarker(before);
    ReceiveSplit(STARTED, front, back);
    assert before + chunk == before + "\n" + more;
    MarkerEnds(ReceiveAll(STARTED, front), before, chunk, more);
    Deaf(Receive(ReceiveAll(STARTED, front), chunk), Singles(after));
  }

  lemma Regroup4(a: string, b: string, c: string)
    ensures a + ("\n" + b + c) == a + "\n" + b + c
  {
  }

  lemma MarkerEnds(s: State, before: string, chunk: string, more: string)
    requires Tracks(s, before) && IsEnd(Cut(before).1) && !IsSudoPrompt(chunk)
    requires before + chunk == before + "\n" + more
    ensures var t := Receive(s, chunk);
            !t.listening && t.handled == Cut(before + "\n").0 + Leftover(Cut(more).1) + Cut(more).0
  {
    MarkerAt(before, more);
    ReceiveEnd(s, before, chunk, |Cut(before).0|);
  }

  lemma MarkerAt(before: string, more: string)
    requires NoEnd(Cut(before).0) && IsEnd(Cut(before).1)
    ensures var text, k := before + "\n" + more, |Cut(before).0|;
            && EndsAt(Cut(text).0, k)
            && EndState(text, k) == State("", false, false, Cut(before + "\n").0 + Leftover(Cut(more).1) + Cut(more).0, 0)
  {
    CutNewline(before);
    AroundLineEnd(before, more);
    AroundMarker(Cut(before).0, Cut(before).1, Cut(more).0);
  }

  lemma AroundMarker(before: seq<string>, marker: string, after: seq<string>)
    ensures var all, k := before + [marker] + after, |before|;
            && all[..k] == before && all[k] == marker
            && all[..k + 1] == before + [marker] && all[k + 1..] == after
  {
  }

  /** The output around the line end of its first end marker. */
  lemma AtMarker(text: string) returns (before: string, after: string)
    requires !NoEnd(Cut(text).0)
    ensures text == before + "\n" + after && NoEnd(Cut(before).0) && IsEnd(Cut(before).1)
    ensures !EndsCleanly(text) ==> Cut(after).0 != [] || Trim(Cut(after).1) != ""
  {
    var k := FirstEnd(Cut(text).0);
    before, after := LineEnd(text, k);
    CutNewline(before);
    AroundLineEnd(before, after);
    var lines := Cut(before + "\n").0;
    assert Cut(text).0[..k] == lines[..k] == Cut(before).0;
    assert Cut(text).0[k] == lines[k] == Cut(before).1;
    assert Cut(after).0 == [] ==> Cut(text).0 == lines;
  }

  lemma UncleanEndDiffers(text: string) returns (a: seq<string>, b: seq<string>)
    requires !NoEnd(Cut(text).0) && !EndsCleanly(text)
    ensures Concat(a) == text == Concat(b) && NoPrompts(a) && NoPrompts(b)
    ensures ReceiveAll(STARTED, a).handled != ReceiveAll(STARTED, b).handled
  {
    var before, after := AtMarker(text);
    var m := FirstInk(after);
    a := MarkerChunk(before, "", after);
    b := MarkerChunk(before, after[..m], after[m..]);
    SplitInk(before, after, m);
    assert Trim("") == "" && Cut("") == ([], "");
    assert |ReceiveAll(STARTED, a).handled| < |ReceiveAll(STARTED, b).handled|;
  }

  lemma SplitInk(before: string, after: string, m: nat)
    requires m <= |after|
    ensures before + "\n" + "" + after == before + "\n" + after
    ensures before + "\n" + after[..m] + after[m..] == before + "\n" + after
  {
    assert after == after[..m] + after[m..];
  }

  // ---------------------------------------------------------------- prompts and end markers

  predicate PromptText(p: string) {
    p in {"[sudo] password for", "Password:", "sudo: a password is required", "sudo: a terminal is required"}
  }

  /** Output asks for a password exactly when it contains one of the four texts. */
  lemma PromptIff(output: string)
    ensures IsSudoPrompt(output) <==> exists a, p, b :: PromptText(p) && output == a + p + b
  {
    if IsSudoPrompt(output) {
      var p :| PromptText(p) && Includes(output, p);
      var i := IncludedAt(output, p);
      assert output == output[..i] + p + output[i + |p|..];
    }
    if a, p, b :| PromptText(p) && output == a + p + b {
      IncludesItself(p);
      IncludesInner(a, p, b, p);
    }
  }

  lemma IncludesItself(p: string)
    ensures Includes(p, p)
  {
    assert StartsWith(p, p);
  }

  predicate NoLetterC(s: string) {
    forall i :: 0 <= i < |s| ==> s[i] != 'c' && s[i] != 'C'
  }

  lemma {:induction false} NoEcho(s: string)
    requires NoLetterC(s)
    ensures !EchoLike(s)
  {
    if s != "" {
      NoEcho(s[1..]);
      if |s| >= 2 {
        assert Lowered(s[1..]) == [Lower(s[1])] + Lowered(s[1..][1..]);
        assert Lowered(s)[1] == Lower(s[1]) != 'c';
      }
    }
  }

  /** The line that the last command of a script prints ends the script, whatever number it reports. */
  lemma EndLineEnds(code: string)
    requires NoLetterC(code)
    ensures IsEnd("INFRA_W_END:" + code)
  {
    var line := "INFRA_W_END:" + code;
    NoEcho(line);
    NoPrompt(line);
    EndMarker(line, code);
  }

  lemma EndMarker(line: string, code: string)
    requires line == "INFRA_W_END:" + code
    ensures FindMarker(line) == Some(("END", code))
  {
    assert line[..8] == "INFRA_W_";
    assert line[8..] == "END:" + code;
    EndName("END:" + code, code);
    assert line[12..] == code;
  }

  lemma EndName(s: string, code: string)
    requires s == "END:" + code
    ensures NameAt(s) == Some("END")
  {
    assert s[0] == 'E' && s[1] == 'N' && s[..4] == "END:";
    assert !StartsWith(s, "ERROR:") by {
      assert "ERROR:"[1] == 'R';
    }
  }

  /** And no line ends it that does not contain the marker. */
  lemma EndsByMarker(line: string)
    requires IsEnd(line)
    ensures exists a, b :: line == a + "INFRA_W_END:" + b
  {
    var i := EndMarkerAt(line);
    assert line == line[..i] + "INFRA_W_END:" + line[i + 12..];
  }

  lemma {:induction false} EndMarkerAt(s: string) returns (i: nat)
    requires FindMarker(s).Some? && FindMarker(s).value.0 == "END"
    ensures i + 12 <= |s| && s[i..i + 12] == "INFRA_W_END:"
  {
    if StartsWith(s, "INFRA_W_") && NameAt(s[8..]).Some? && 9 + |NameAt(s[8..]).value| <= |s| {
      i := 0;
      assert s[8..][..4] == "END:";
      assert s[..12] == s[..8] + s[8..][..4];
    } else {
      i := EndMarkerAt(s[1..]);
      i := i + 1;
    }
  }

  // ---------------------------------------------------------------- the exact conditions

  ghost predicate PromptFreeCutsAgree(text: string) {
    forall a, b :: Concat(a) == text && Concat(b) == text && NoPrompts(a) && NoPrompts(b) ==>
      ReceiveAll(STARTED, a) == ReceiveAll(STARTED, b)
  }

  lemma NoEndAgrees(text: string, a: seq<string>, b: seq<string>)
    requires Concat(a) == text == Concat(b) && NoPrompts(a) && NoPrompts(b) && NoEnd(Cut(text).0)
    ensures ReceiveAll(STARTED, a) == ReceiveAll(STARTED, b)
  {
    assert "" + text == text;
    LinesIgnoreChunks(STARTED, "", a);
    LinesIgnoreChunks(STARTED, "", b);
  }

  /**
   Cuts without a prompt in any chunk all end in the same state exactly when the output has no end marker,
   or its first one is the last complete line and only blanks follow.
   */
  lemma PromptFreeCutsAgreeIff(text: string)
    ensures PromptFreeCutsAgree(text) <==> NoEnd(Cut(text).0) || EndsCleanly(text)
  {
    if NoEnd(Cut(text).0) || EndsCleanly(text) {
      forall a, b | Concat(a) == text && Concat(b) == text && NoPrompts(a) && NoPrompts(b)
        ensures ReceiveAll(STARTED, a) == ReceiveAll(STARTED, b)
      {
        if NoEnd(Cut(text).0) {
          NoEndAgrees(text, a, b);
        } else {
          CleanEndAgrees(a);
          CleanEndAgrees(b);
        }
      }
    } else {
      var a, b := UncleanEndDiffers(text);
    }
  }

  ghost predicate CutsAgree(text: string) {
    forall a, b :: Concat(a) == text && Concat(b) == text ==> ReceiveAll(STARTED, a) == ReceiveAll(STARTED, b)
  }

  lemma {:induction false} NobodyAsked(s: State, chunks: seq<string>)
    requires NoPrompts(chunks)
    ensures ReceiveAll(s, chunks).asked == s.asked
    decreases |chunks|
  {
    if chunks != [] {
      var (lines, rest) := Cut(s.buffer + chunks[0]);
      HandlingAsksNothing(s.(buffer := rest), lines);
      NobodyAsked(Receive(s, chunks[0]), chunks[1..]);
    }
  }

  lemma {:induction false} HandlingAsksNothing(s: State, lines: seq<string>)
    ensures HandleLines(s, lines).asked == s.asked
    decreases |lines|
  {
    if lines != [] {
      HandlingAsksNothing(HandleLine(s, lines[0]), lines[1..]);
    }
  }

  /** In one chunk a prompt swallows everything, in single characters it is not seen. */
  lemma PromptDiffers(text: string) returns (a: seq<string>, b: seq<string>)
    requires IsSudoPrompt(text)
    ensures Concat(a) == text == Concat(b)
    ensures ReceiveAll(STARTED, a) == STARTED.(asked := 1) && ReceiveAll(STARTED, b).asked == 0
  {
    a, b := [text], Singles(text);
    ConcatOne(text);
    ConcatSingles(text);
    assert [text][1..] == [];
    SinglesHoldNoPrompt(text);
    NobodyAsked(STARTED, b);
  }

  /** All cuts whatsoever agree exactly when, besides, the output holds no password prompt. */
  lemma CutsAgreeIff(text: string)
    ensures CutsAgree(text) <==> !IsSudoPrompt(text) && (NoEnd(Cut(text).0) || EndsCleanly(text))
  {
    PromptFreeCutsAgreeIff(text);
    if IsSudoPrompt(text) {
      var a, b := PromptDiffers(text);
    } else {
      forall chunks | Concat(chunks) == text
        ensures NoPrompts(chunks)
      {
        ChunksHoldNoPrompt(chunks);
      }
    }
  }

  /** A finished line in the chunk of a password prompt is lost; cut off before the prompt it is handled. */
  lemma PromptSwallowsLine(line: string, prompt: string)
    requires NoNewline(line) && !IsEnd(line) && !IsSudoPrompt(line + "\n") && IsSudoPrompt(prompt)
    ensures ReceiveAll(STARTED, [line + "\n" + prompt]).handled == []
    ensures ReceiveAll(STARTED, [line + "\n", prompt]).handled == [line]
  {
    var first := line + "\n";
    PromptInPart(first, prompt);
    assert [first + prompt][1..] == [] && [first, prompt][1..] == [prompt] && [prompt][1..] == [];
    OneLineHandled(line);
    assert ReceiveAll(Receive(STARTED, first), [prompt]) == Receive(Receive(STARTED, first), prompt);
  }

  lemma OneLineHandled(line: string)
    requires NoNewline(line) && !IsEnd(line) && !IsSudoPrompt(line + "\n")
    ensures Receive(STARTED, line + "\n") == STARTED.(handled := [line])
  {
    OneLine(line);
    assert "" + (line + "\n") == line + "\n";
    HandleNoEnd(STARTED, [line]);
    assert STARTED.handled + [line] == [line];
  }

  /** After the end the cuts show: a line in the end marker's own chunk is handled, in a later one not. */
  lemma AfterEndChunksShow(end: string, extra: string)
    requires NoNewline(end) && NoNewline(extra) && IsEnd(end)
    requires !IsSudoPrompt(end + "\n" + (extra + "\n")) && !IsSudoPrompt(end + "\n")
    ensures ReceiveAll(STARTED, [end + "\n" + (extra + "\n")]).handled == [end, extra]
    ensures ReceiveAll(STARTED, [end + "\n", extra + "\n"]).handled == [end]
  {
    var a, b := end + "\n", extra + "\n";
    OneLine(end);
    OneLine(extra);
    CutAppend(a, b);
    assert "" + (a + b) == a + b && "" + a == a && "" + b == b;
    HandleToEnd(STARTED, [], end, [extra]);
    HandleToEnd(STARTED, [], end, []);
    assert [] + ([end] + [extra]) == [end] + [extra] && [] + ([end] + []) == [end];
    assert Trim("") == "" && [] + [] + [end] + [] + [extra] == [end, extra] && [] + [] + [end] + [] + [] == [end];
    Deaf(Receive(STARTED, a), [b]);
    assert [a, b][1..] == [b] && [a + b][1..] == [];
  }

  // ---------------------------------------------------------------- cuts of the bytes

  /** The bytes arrive in chunks, and each chunk becomes text on its own. */
  function ReceiveBytes(s: State, chunks: seq<seq<Byte>>): State {
    ReceiveAll(s, Texts(chunks))
  }

  ghost predicate ByteCutsAgree(bytes: seq<Byte>) {
    forall a: seq<seq<Byte>>, b: seq<seq<Byte>> ::
      Concat(a) == bytes && Concat(b) == bytes && OnCharacters(a) && OnCharacters(b) ==>
        ReceiveBytes(STARTED, a) == ReceiveBytes(STARTED, b)
  }

  lemma AgreeOnBytes(bytes: seq<Byte>)
    requires CutsAgree(Decode(bytes))
    ensures ByteCutsAgree(bytes)
  {
    forall a: seq<seq<Byte>>, b: seq<seq<Byte>> | Concat(a) == bytes && Concat(b) == bytes && OnCharacters(a) && OnCharacters(b)
      ensures ReceiveBytes(STARTED, a) == ReceiveBytes(STARTED, b)
    {
      CutsAreHarmlessIff(a);
      CutsAreHarmlessIff(b);
    }
  }

  lemma AgreeOnText(bytes: seq<Byte>)
    requires ByteCutsAgree(bytes)
    ensures CutsAgree(Decode(bytes))
  {
    forall s, t | Concat(s) == Decode(bytes) && Concat(t) == Decode(bytes)
      ensures ReceiveAll(STARTED, s) == ReceiveAll(STARTED, t)
    {
      var a := CutsOfText(bytes, s);
      var b := CutsOfText(bytes, t);
      assert ReceiveBytes(STARTED, a) == ReceiveBytes(STARTED, b);
    }
  }

  /** The same for all cuts of the bytes that split no character. */
  lemma ByteCutsAgreeIff(bytes: seq<Byte>)
    ensures var text := Decode(bytes);
            ByteCutsAgree(bytes) <==> !IsSudoPrompt(text) && (NoEnd(Cut(text).0) || EndsCleanly(text))
  {
    CutsAgreeIff(Decode(bytes));
    if CutsAgree(Decode(bytes)) {
      AgreeOnBytes(bytes);
    } else if ByteCutsAgree(bytes) {
      AgreeOnText(bytes);
    }
  }

  /** The text behind a state is all there: what was handled and what is kept. */
  lemma TracksDiffer(s: State, t: State, a: string, b: string)
    requires Tracks(s, a) && Tracks(t, b)
    ensures s == t <==> a == b
  {
    CutIsExact(a);
    CutIsExact(b);
  }

  /** Cuts of the bytes as such, without a prompt or an end: they show exactly when one splits a character. */
  lemma SplitCharactersShowIff(chunks: seq<seq<Byte>>)
    requires NoPrompts(Texts(chunks)) && !IsSudoPrompt(Decode(Concat(chunks)))
    requires NoEnd(Cut(Concat(Texts(chunks))).0) && NoEnd(Cut(Decode(Concat(chunks))).0)
    ensures ReceiveBytes(STARTED, chunks) == ReceiveBytes(STARTED, [Concat(chunks)]) <==> OnCharacters(chunks)
  {
    var cut, whole := Texts(chunks), Texts([Concat(chunks)]);
    assert whole == [Decode(Concat(chunks))];
    ConcatOne(Decode(Concat(chunks)));
    assert "" + Concat(cut) == Concat(cut) && "" + Concat(whole) == Concat(whole);
    LinesIgnoreChunks(STARTED, "", cut);
    LinesIgnoreChunks(STARTED, "", whole);
    TracksDiffer(ReceiveAll(STARTED, cut), ReceiveAll(STARTED, whole), Concat(cut), Concat(whole));
    CutsAreHarmlessIff(chunks);
  }
}
