/** Exactly which lines of a terminal are directives: those with a marker, unless the terminal shows a command. */
module ScriptDirectives {
  import opened Wrappers
  import opened Shell
  import opened ScriptText

  predicate IsMarkerName(name: string) {
    name in {"INPUT", "SELECT", "STEP", "WARN", "INFO", "ERROR", "CONFIRM", "PROGRESS", "SUCCESS", "SUMMARY", "TABLE",
             "MSGBOX", "END"}
  }

  lemma NameAtIs(s: string)
    requires NameAt(s).Some?
    ensures IsMarkerName(NameAt(s).value) && StartsWith(s, NameAt(s).value + ":")
  {
  }

  lemma NameAtFinds(s: string, name: string)
    requires IsMarkerName(name) && StartsWith(s, name + ":")
    ensures NameAt(s).Some?
  {
  }

  /** A marker at the front of the line: the prefix, the name, a colon and the rest. */
  lemma MarkerHere(s: string, name: string)
    requires |s| >= 8 && s[..8] == "INFRA_W_" && StartsWith(s[8..], name + ":")
    ensures 9 + |name| <= |s| && s == "INFRA_W_" + (name + (":" + s[9 + |name|..]))
  {
    var t := s[8..];
    assert t[..|name| + 1] == name + ":";
    assert t == t[..|name| + 1] + t[|name| + 1..];
    assert t[|name| + 1..] == s[9 + |name|..];
    assert s == s[..8] + t;
  }

  lemma {:induction false} MarkerAt(s: string) returns (i: nat)
    requires FindMarker(s).Some?
    ensures var (name, rest) := FindMarker(s).value;
            IsMarkerName(name) && i <= |s| && s[i..] == "INFRA_W_" + (name + (":" + rest))
  {
    if StartsWith(s, "INFRA_W_") && NameAt(s[8..]).Some? {
      i := 0;
      NameAtIs(s[8..]);
      MarkerHere(s, NameAt(s[8..]).value);
    } else {
      i := MarkerAt(s[1..]);
      assert s[i + 1..] == s[1..][i..];
      i := i + 1;
    }
  }

  lemma {:induction false} MarkerFound(a: string, name: string, rest: string)
    requires IsMarkerName(name)
    ensures FindMarker(a + ("INFRA_W_" + (name + (":" + rest)))).Some?
  {
    var tail := "INFRA_W_" + (name + (":" + rest));
    var s := a + tail;
    if a == "" {
      assert s == tail && s[..8] == "INFRA_W_" && s[8..] == name + (":" + rest);
      assert s[8..][..|name| + 1] == name + ":";
      NameAtFinds(s[8..], name);
      NameAtIs(s[8..]);
    } else {
      assert s[1..] == a[1..] + tail;
      MarkerFound(a[1..], name, rest);
    }
  }

  /** The line holds a marker with one of the thirteen names. */
  ghost predicate HasMarker(line: string) {
    exists a, name, rest :: IsMarkerName(name) && line == a + ("INFRA_W_" + (name + (":" + rest)))
  }

  /** A line is a directive exactly when it holds a marker and shows no command. */
  lemma DirectiveIff(line: string)
    ensures ProcessLine(line) != NotADirective <==> HasMarker(line) && !EchoLike(line) && !PromptLike(Trim(line))
  {
    if FindMarker(line).Some? {
      var i := MarkerAt(line);
      var (name, rest) := FindMarker(line).value;
      assert line == line[..i] + ("INFRA_W_" + (name + (":" + rest)));
    }
    if HasMarker(line) {
      var a, name, rest :| IsMarkerName(name) && line == a + ("INFRA_W_" + (name + (":" + rest)));
      MarkerFound(a, name, rest);
    }
  }

  // ---------------------------------------------------------------- commands that the terminal shows

  lemma {:induction false} LoweredAt(s: string, i: nat)
    requires i < |s|
    ensures |Lowered(s)| == |s| && Lowered(s)[i] == Lower(s[i])
  {
    LoweredLength(s);
    if i > 0 {
      LoweredAt(s[1..], i - 1);
    }
  }

  lemma {:induction false} LoweredLength(s: string)
    ensures |Lowered(s)| == |s|
  {
    if s != "" {
      LoweredLength(s[1..]);
    }
  }

  lemma LoweredStarts(s: string, word: string)
    requires |word| <= |s| && forall i :: 0 <= i < |word| ==> Lower(s[i]) == word[i]
    ensures StartsWith(Lowered(s), word)
  {
    LoweredLength(s);
    forall i | 0 <= i < |word|
      ensures Lowered(s)[..|word|][i] == word[i]
    {
      LoweredAt(s, i);
    }
  }

  lemma {:induction false} EchoInside(a: string, s: string)
    requires EchoLike(s)
    ensures EchoLike(a + s)
  {
    if a == "" {
      assert a + s == s;
    } else {
      assert (a + s)[1..] == a[1..] + s;
      EchoInside(a[1..], s);
    }
  }

  lemma QuotedMarker(t: string)
    ensures MarkerAfterBlanks("\"INFRA_W_" + t)
  {
    var s := "\"INFRA_W_" + t;
    assert s[0] == '\"' && s[1..] == "INFRA_W_" + t;
    LoweredStarts(s[1..], "infra_w_");
  }

  /** The command that prints a directive is none itself, wherever the terminal shows it. */
  lemma EchoIsIgnored(prompt: string, rest: string)
    ensures ProcessLine(prompt + ("echo \"INFRA_W_" + rest)) == NotADirective
  {
    var s := "echo \"INFRA_W_" + rest;
    assert s[5..] == "\"INFRA_W_" + rest && s[4] == ' ';
    LoweredStarts(s, "echo");
    QuotedMarker(rest);
    EchoInside(prompt, s);
  }

  lemma {:induction false} TrimEndKeeps(a: string, b: string)
    requires a != "" && !IsSpace(a[|a| - 1])
    ensures a <= TrimEnd(a + b)
    decreases |b|
  {
    if b == "" {
      assert a + b == a;
    } else {
      assert (a + b)[..|a + b| - 1] == a + b[..|b| - 1];
      TrimEndKeeps(a, b[..|b| - 1]);
    }
  }

  lemma {:induction false} MentionedBehind(middle: string, rest: string)
    requires forall i :: 0 <= i < |middle| ==> !EndsLine(middle[i])
    ensures Mentions(middle + ("INFRA_W_" + rest))
  {
    var s := middle + ("INFRA_W_" + rest);
    if middle == "" {
      assert s == "INFRA_W_" + rest && s[..8] == "INFRA_W_";
    } else {
      assert s[1..] == middle[1..] + ("INFRA_W_" + rest);
      MentionedBehind(middle[1..], rest);
    }
  }

  /** Nor is a line that starts with a prompt and mentions a marker, whatever stands between. */
  lemma PromptIsIgnored(sign: char, middle: string, rest: string)
    requires sign in {'$', '#', '>'} && forall i :: 0 <= i < |middle| ==> !EndsLine(middle[i])
    ensures ProcessLine([sign] + " " + middle + "INFRA_W_" + rest) == NotADirective
  {
    var front := [sign] + " " + middle + "INFRA_W_";
    var line := front + rest;
    assert TrimStart(line) == line;
    assert front[|front| - 1] == '_';
    TrimEndKeeps(front, rest);
    var t := Trim(line);
    var more := t[|front|..];
    assert t == front + more;
    assert t[2..] == middle + ("INFRA_W_" + more);
    MentionedBehind(middle, more);
  }
}
