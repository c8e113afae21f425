/**
 Script directives (server/utils/scriptUtils.js): a SELECT, SUMMARY or TABLE directive becomes an
 `echo` command, and the line that command prints is parsed back into a dialog.
 */
module ScriptText {
  import opened Wrappers
  import opened Shell

  // ---------------------------------------------------------------- colons

  function EscapeColons(t: string): string {
    if t == "" then "" else (if t[0] == ':' then "\\x3A" else [t[0]]) + EscapeColons(t[1..])
  }

  predicate StartsEscape(t: string) {
    |t| >= 4 && t[0] == '\\' && t[1] == 'x' && t[2] == '3' && t[3] == 'A'
  }

  function UnescapeColons(t: string): string {
    if t == "" then ""
    else if StartsEscape(t) then ":" + UnescapeColons(t[4..])
    else [t[0]] + UnescapeColons(t[1..])
  }

  lemma EscapeStep(t: string)
    requires t != "" && t[0] != ':'
    ensures EscapeColons(t) == [t[0]] + EscapeColons(t[1..])
    ensures EscapeColons(t)[0] == t[0] && EscapeColons(t)[1..] == EscapeColons(t[1..])
  {
  }

  /** Escaping neither makes nor breaks an escape that was already there. */
  lemma StartsEscapeKept(t: string)
    requires t != "" && t[0] != ':'
    ensures StartsEscape(EscapeColons(t)) <==> StartsEscape(t)
    ensures StartsEscape(t) ==> EscapeColons(t)[4..] == EscapeColons(t[4..])
  {
    EscapeStep(t);
    if t[0] == '\\' && |t| >= 2 && t[1] == 'x' {
      EscapeStep(t[1..]);
      if |t| >= 3 && t[2] == '3' {
        assert t[1..][1..] == t[2..];
        EscapeStep(t[2..]);
        if |t| >= 4 && t[3] == 'A' {
          assert t[2..][1..] == t[3..] && t[3..][1..] == t[4..];
          EscapeStep(t[3..]);
          FourDrops(EscapeColons(t));
        }
      }
    }
  }

  lemma FourDrops(x: string)
    requires |x| >= 4
    ensures x[1..][1..][1..][1..] == x[4..]
  {
  }

  /** Unescaping does not see whether a text was escaped before. */
  lemma {:induction false} UnescapeEscape(t: string)
    ensures UnescapeColons(EscapeColons(t)) == UnescapeColons(t)
    decreases |t|
  {
    if t != "" {
      if t[0] == ':' {
        assert EscapeColons(t)[4..] == EscapeColons(t[1..]);
        UnescapeEscape(t[1..]);
      } else {
        StartsEscapeKept(t);
        if StartsEscape(t) {
          UnescapeEscape(t[4..]);
        } else {
          EscapeStep(t);
          UnescapeEscape(t[1..]);
        }
      }
    }
  }

  predicate NoBackslash(t: string) {
    forall i :: 0 <= i < |t| ==> t[i] != '\\'
  }

  lemma {:induction false} UnescapePlain(t: string)
    requires NoBackslash(t)
    ensures UnescapeColons(t) == t
  {
    if t != "" {
      UnescapePlain(t[1..]);
    }
  }

  predicate NoColon(t: string) {
    forall i :: 0 <= i < |t| ==> t[i] != ':'
  }

  lemma {:induction false} EscapedNoColon(t: string)
    ensures NoColon(EscapeColons(t))
  {
    if t != "" {
      EscapedNoColon(t[1..]);
    }
  }

  lemma {:induction false} EscapeAppend(a: string, b: string)
    ensures EscapeColons(a + b) == EscapeColons(a) + EscapeColons(b)
  {
    if a == "" {
      assert a + b == b;
    } else {
      assert (a + b)[1..] == a[1..] + b;
      EscapeAppend(a[1..], b);
    }
  }

  // ---------------------------------------------------------------- split and trim

  /** `s.split(":")` */
  function Split(s: string): (parts: seq<string>)
    ensures parts != []
  {
    if s == "" then [""]
    else if s[0] == ':' then [""] + Split(s[1..])
    else
      var rest := Split(s[1..]);
      [[s[0]] + rest[0]] + rest[1..]
  }

  /** `parts.join(":")` */
  function Join(parts: seq<string>): string {
    if parts == [] then "" else if |parts| == 1 then parts[0] else parts[0] + ":" + Join(parts[1..])
  }

  lemma {:induction false} SplitFirst(a: string, b: string)
    requires NoColon(a)
    ensures Split(a + (":" + b)) == [a] + Split(b)
  {
    var s := a + (":" + b);
    if a == "" {
      assert s == ":" + b && s[1..] == b;
    } else {
      assert s[1..] == a[1..] + (":" + b);
      SplitFirst(a[1..], b);
      assert [a[0]] + a[1..] == a;
    }
  }

  lemma {:induction false} SplitNone(a: string)
    requires NoColon(a)
    ensures Split(a) == [a]
  {
    if a != "" {
      SplitNone(a[1..]);
      assert [a[0]] + a[1..] == a;
    }
  }

  /** White space and line terminators as `trim` removes them. */
  predicate IsSpace(c: char) {
    var n := c as int;
    9 <= n <= 13 || n == 32 || n == 0xA0 || n == 0x1680 || 0x2000 <= n <= 0x200A || n == 0x2028 || n == 0x2029
    || n == 0x202F || n == 0x205F || n == 0x3000 || n == 0xFEFF
  }

  predicate Trimmed(s: string) {
    s == "" || (!IsSpace(s[0]) && !IsSpace(s[|s| - 1]))
  }

  function TrimStart(s: string): string {
    if s != "" && IsSpace(s[0]) then TrimStart(s[1..]) else s
  }

  function TrimEnd(s: string): string {
    if s != "" && IsSpace(s[|s| - 1]) then TrimEnd(s[..|s| - 1]) else s
  }

  function Trim(s: string): string {
    TrimEnd(TrimStart(s))
  }

  lemma {:induction false} TrimEndHead(s: string)
    ensures TrimEnd(s) != "" ==> TrimEnd(s)[0] == s[0] && s != ""
    ensures TrimEnd(s) != "" ==> !IsSpace(TrimEnd(s)[|TrimEnd(s)| - 1])
  {
    if s != "" && IsSpace(s[|s| - 1]) {
      TrimEndHead(s[..|s| - 1]);
    }
  }

  lemma {:induction false} TrimStartHead(s: string)
    ensures TrimStart(s) != "" ==> !IsSpace(TrimStart(s)[0])
  {
    if s != "" && IsSpace(s[0]) {
      TrimStartHead(s[1..]);
    }
  }

  lemma TrimIsTrimmed(s: string)
    ensures Trimmed(Trim(s))
  {
    TrimStartHead(s);
    TrimEndHead(TrimStart(s));
  }

  lemma TrimKeeps(s: string)
    requires Trimmed(s)
    ensures Trim(s) == s
  {
  }

  // ---------------------------------------------------------------- the option list

  /** `str.replace(/\\"/g, "\"")` */
  function DropEscapes(s: string): string {
    if |s| >= 2 && s[0] == '\\' && s[1] == '\"' then "\"" + DropEscapes(s[2..])
    else if s == "" then ""
    else [s[0]] + DropEscapes(s[1..])
  }

  /** The options that the loop of `parseOptions` still pushes from position `i` on. */
  function OptionsFrom(s: string, i: nat, cur: string, inQ: bool): seq<string>
    requires i <= |s|
    decreases |s| - i
  {
    if i == |s| then (if Trim(cur) != "" then [Trim(cur)] else [])
    else if s[i] == '\"' && (i == 0 || s[i - 1] == ' ') then OptionsFrom(s, i + 1, cur, true)
    else if s[i] == '\"' && inQ then [Trim(cur)] + OptionsFrom(s, i + 1, "", false)
    else if s[i] == ' ' && !inQ then
      if Trim(cur) != "" then [Trim(cur)] + OptionsFrom(s, i + 1, "", inQ) else OptionsFrom(s, i + 1, cur, inQ)
    else OptionsFrom(s, i + 1, cur + [s[i]], inQ)
  }

  method ParseOptions(str: string) returns (opts: seq<string>)
    ensures opts == OptionsFrom(DropEscapes(str), 0, "", false)
  {
    var s := DropEscapes(str);
    opts := [];
    var cur, inQ := "", false;
    for i := 0 to |s|
      invariant opts + OptionsFrom(s, i, cur, inQ) == OptionsFrom(s, 0, "", false)
    {
      var c := s[i];
      if c == '\"' && (i == 0 || s[i - 1] == ' ') {
        inQ := true;
      } else if c == '\"' && inQ {
        inQ, opts, cur := false, opts + [Trim(cur)], "";
      } else if c == ' ' && !inQ {
        if Trim(cur) != "" {
          opts, cur := opts + [Trim(cur)], "";
        }
      } else {
        cur := cur + [c];
      }
    }
    if Trim(cur) != "" {
      opts := opts + [Trim(cur)];
    }
  }

  lemma {:induction false} OptionsAreTrimmed(s: string, i: nat, cur: string, inQ: bool)
    requires i <= |s|
    ensures forall k :: 0 <= k < |OptionsFrom(s, i, cur, inQ)| ==> Trimmed(OptionsFrom(s, i, cur, inQ)[k])
    decreases |s| - i
  {
    TrimIsTrimmed(cur);
    if i < |s| {
      if s[i] == '\"' && (i == 0 || s[i - 1] == ' ') {
        OptionsAreTrimmed(s, i + 1, cur, true);
      } else if s[i] == '\"' && inQ {
        OptionsAreTrimmed(s, i + 1, "", false);
      } else if s[i] == ' ' && !inQ {
        OptionsAreTrimmed(s, i + 1, if Trim(cur) != "" then "" else cur, inQ);
      } else {
        OptionsAreTrimmed(s, i + 1, cur + [s[i]], inQ);
      }
    }
  }

  /** A list of options as a script author writes it. */
  function Quoted(options: seq<string>): string {
    if options == [] then ""
    else if |options| == 1 then "\"" + options[0] + "\""
    else "\"" + options[0] + "\"" + " " + Quoted(options[1..])
  }

  predicate NoDoubleQuote(s: string) {
    forall i :: 0 <= i < |s| ==> s[i] != '\"'
  }

  /** Characters of an option are collected up to its closing quote. */
  lemma {:induction false} InsideQuotes(s: string, i: nat, o: string, k: nat)
    requires k <= |o| && i + |o| < |s| && s[i..i + |o|] == o && s[i + |o|] == '\"'
    requires NoDoubleQuote(o)
    requires i > 0 && s[i - 1] == '\"' && (o != "" ==> o[|o| - 1] != ' ')
    ensures OptionsFrom(s, i + k, o[..k], true) == [Trim(o)] + OptionsFrom(s, i + |o| + 1, "", false)
    decreases |o| - k
  {
    if k < |o| {
      assert s[i + k] == s[i..i + |o|][k] == o[k];
      InsideQuotes(s, i, o, k + 1);
      assert o[..k + 1] == o[..k] + [o[k]];
    } else {
      assert o[..k] == o;
      if o != "" {
        assert s[i + |o| - 1] == s[i..i + |o|][|o| - 1];
      }
    }
  }

  lemma QuotedPart(o: string, tail: string)
    ensures "\"" + o + "\"" + tail == "\"" + (o + ("\"" + tail))
  {
  }

  lemma QuotedPartAndMore(o: string, more: string, tail: string)
    ensures "\"" + o + "\"" + " " + more + tail == "\"" + (o + ("\"" + (" " + (more + tail))))
  {
    QuotedPart(o, " " + (more + tail));
    assert "\"" + o + "\"" + " " + more + tail == "\"" + o + "\"" + (" " + (more + tail));
  }

  lemma QuotedParts(options: seq<string>, tail: string)
    requires options != []
    ensures Quoted(options) + tail
         == "\"" + (options[0] + ("\"" + if |options| == 1 then tail else " " + (Quoted(options[1..]) + tail)))
  {
    if |options| == 1 {
      QuotedPart(options[0], tail);
    } else {
      QuotedPartAndMore(options[0], Quoted(options[1..]), tail);
    }
  }

  /** The blank between two options. */
  lemma SkipBlank(s: string, j: nat, rest: string)
    requires j <= |s| && s[j..] == " " + rest
    ensures j < |s| && s[j] == ' ' && s[j + 1..] == rest
    ensures OptionsFrom(s, j, "", false) == OptionsFrom(s, j + 1, "", false)
  {
    assert s[j] == s[j..][0];
    assert s[j + 1..] == s[j..][1..];
    assert Trim("") == "";
  }

  lemma FirstOption(s: string, i: nat, o: string, rest: string, last: bool) returns (j: nat)
    requires i <= |s| && s[i..] == "\"" + (o + ("\"" + if last then rest else " " + rest))
    requires i == 0 || s[i - 1] == ' '
    requires NoDoubleQuote(o) && Trimmed(o)
    ensures j <= |s| && s[j..] == rest && (!last ==> j > 0 && s[j - 1] == ' ')
    ensures OptionsFrom(s, i, "", false) == [o] + OptionsFrom(s, j, "", false)
  {
    OneQuoted(s, i, o, if last then rest else " " + rest);
    TrimKeeps(o);
    j := i + |o| + 2;
    if !last {
      SkipBlank(s, j, rest);
      j := j + 1;
    }
  }

  lemma {:induction false} QuotedReadsBack(s: string, i: nat, options: seq<string>, tail: string)
    requires i <= |s| && s[i..] == Quoted(options) + tail && options != []
    requires i == 0 || s[i - 1] == ' '
    requires forall k :: 0 <= k < |options| ==> NoDoubleQuote(options[k]) && Trimmed(options[k])
    requires tail == "" || tail == "\r"
    ensures OptionsFrom(s, i, "", false) == options
    decreases |options|
  {
    QuotedParts(options, tail);
    if |options| == 1 {
      var j := FirstOption(s, i, options[0], tail, true);
      AfterLast(s, j, tail);
    } else {
      var j := FirstOption(s, i, options[0], Quoted(options[1..]) + tail, false);
      QuotedReadsBack(s, j, options[1..], tail);
    }
  }

  /** Where the parts of a quoted option lie. */
  lemma QuotedSlices(s: string, i: nat, o: string, more: string)
    requires i <= |s| && s[i..] == "\"" + (o + ("\"" + more))
    ensures i + |o| + 2 <= |s| && s[i] == '\"' && s[i + 1 + |o|] == '\"'
    ensures s[i + 1..i + 1 + |o|] == o && s[i + |o| + 2..] == more
  {
    var inner := o + ("\"" + more);
    assert s[i] == s[i..][0];
    assert s[i..][1..] == inner;
    assert s[i + 1..] == inner;
    assert s[i + 1..i + 1 + |o|] == inner[..|o|] == o;
    assert s[i + 1 + |o|] == inner[|o|];
    assert s[i + |o| + 2..] == inner[|o| + 1..] == more;
  }

  lemma OneQuoted(s: string, i: nat, o: string, more: string)
    requires i <= |s| && s[i..] == "\"" + (o + ("\"" + more))
    requires i == 0 || s[i - 1] == ' '
    requires NoDoubleQuote(o) && Trimmed(o)
    ensures i + |o| + 2 <= |s| && s[i + |o| + 2..] == more
    ensures OptionsFrom(s, i, "", false) == [Trim(o)] + OptionsFrom(s, i + |o| + 2, "", false)
  {
    QuotedSlices(s, i, o, more);
    assert o[..0] == "";
    InsideQuotes(s, i + 1, o, 0);
  }

  /** Only the carriage return of the terminal may follow the last option. */
  lemma AfterLast(s: string, j: nat, tail: string)
    requires j <= |s| && s[j..] == tail && (tail == "" || tail == "\r")
    ensures OptionsFrom(s, j, "", false) == []
  {
    if tail == "\r" {
      assert s[j] == s[j..][0];
      assert Trim("" + ['\r']) == "" by {
        assert TrimStart("\r") == TrimStart("");
      }
    }
  }

  // ---------------------------------------------------------------- printing a directive

  datatype Kind = Select | Summary | Table

  /** A SELECT, SUMMARY or TABLE directive; only SELECT names a variable. */
  datatype Directive = Directive(kind: Kind, variable: string, title: string, options: seq<string>)

  /** `replace(/"/g, "\\\"")` */
  function EscapeQuotes(t: string): string {
    if t == "" then "" else (if t[0] == '\"' then "\\\"" else [t[0]]) + EscapeQuotes(t[1..])
  }

  function Head(d: Directive): string {
    match d.kind
    case Select => "INFRA_W_SELECT:" + d.variable + ":"
    case Summary => "INFRA_W_SUMMARY:"
    case Table => "INFRA_W_TABLE:"
  }

  function Answer(d: Directive): string {
    match d.kind
    case Select => d.variable
    case Summary => "INFRA_W_SUMMARY_RESULT"
    case Table => "INFRA_W_TABLE_RESULT"
  }

  /** What `transformScript` writes in place of the directive. */
  function Command(d: Directive): string {
    var title := if d.kind.Select? then EscapeColons(d.title) else EscapeQuotes(EscapeColons(d.title));
    "echo \"" + Head(d) + title + ":" + EscapeQuotes(EscapeColons(Quoted(d.options))) + "\" && read -r " + Answer(d)
  }

  /** The line that `echo` prints. */
  function Printed(d: Directive): string {
    Head(d) + (EscapeColons(d.title) + (":" + EscapeColons(Quoted(d.options))))
  }

  /** Characters without a meaning between double quotes, on one line, and outside terminal sequences. */
  predicate Inert(s: string) {
    forall i :: 0 <= i < |s| ==>
      s[i] != '$' && s[i] != '`' && s[i] != '\"' && s[i] != '\\' && s[i] != '\n' && s[i] != '\r' && s[i] as int != 27
  }

  predicate IsName(s: string) {
    s != "" && forall i :: 0 <= i < |s| ==> 'a' <= s[i] <= 'z' || 'A' <= s[i] <= 'Z' || '0' <= s[i] <= '9' || s[i] == '_'
  }

  predicate Writable(d: Directive) {
    && IsName(d.variable) && Inert(d.title) && d.options != []
    && forall k :: 0 <= k < |d.options| ==> Inert(d.options[k])
  }

  /** Text for which double quotes are only a matter of escaping them. */
  predicate Echoable(s: string) {
    forall i :: 0 <= i < |s| ==> s[i] != '$' && s[i] != '`' && s[i] != '\\' && s[i] != '\n'
  }

  lemma {:induction false} QuotedEchoable(options: seq<string>)
    requires forall k :: 0 <= k < |options| ==> Inert(options[k])
    ensures Echoable(Quoted(options))
  {
    if |options| > 1 {
      QuotedEchoable(options[1..]);
    }
  }

  lemma {:induction false} ReadPlainText(w: string, rest: string)
    requires forall i :: 0 <= i < |w| ==> w[i] != '\\' && w[i] != '\"'
    ensures ReadDouble(w + rest) == Before(w, ReadDouble(rest))
  {
    if w == "" {
      assert w + rest == rest;
      BeforeNothing(ReadDouble(rest));
    } else {
      assert (w + rest)[1..] == w[1..] + rest;
      ReadPlainText(w[1..], rest);
      BeforeTwice([w[0]], w[1..], ReadDouble(rest));
      assert [w[0]] + w[1..] == w;
    }
  }

  /** An escaped colon passes through double quotes unchanged. */
  lemma ReadEscapedColon(rest: string)
    ensures ReadDouble("\\x3A" + rest) == Before("\\x3A", ReadDouble(rest))
  {
    var s := "\\x3A" + rest;
    assert s[1..] == "x3A" + rest;
    ReadPlainText("x3A", rest);
    BeforeTwice("\\", "x3A", ReadDouble(rest));
    assert "\\" + "x3A" == "\\x3A";
  }

  lemma ReadEscapedQuote(rest: string)
    ensures ReadDouble("\\\"" + rest) == Before("\"", ReadDouble(rest))
  {
    assert ("\\\"" + rest)[2..] == rest;
  }

  lemma EscapeQuotesOf(t: string)
    requires t != ""
    ensures EscapeQuotes(EscapeColons(t))
         == (if t[0] == ':' then "\\x3A" else if t[0] == '\"' then "\\\"" else [t[0]]) + EscapeQuotes(EscapeColons(t[1..]))
  {
    var rest := EscapeColons(t[1..]);
    if t[0] == ':' {
      assert EscapeColons(t) == "\\x3A" + rest;
      EscapeQuotesFour(rest);
    } else {
      assert EscapeColons(t)[1..] == rest;
    }
  }

  lemma EscapeQuotesFour(rest: string)
    ensures EscapeQuotes("\\x3A" + rest) == "\\x3A" + EscapeQuotes(rest)
  {
    var s := "\\x3A" + rest;
    assert s[1..] == "x3A" + rest && s[1..][1..] == "3A" + rest && s[1..][1..][1..] == "A" + rest;
    assert ("A" + rest)[1..] == rest;
    assert EscapeQuotes("A" + rest) == "A" + EscapeQuotes(rest);
    assert EscapeQuotes("3A" + rest) == "3" + EscapeQuotes("A" + rest);
    assert EscapeQuotes("x3A" + rest) == "x" + EscapeQuotes("3A" + rest);
  }

  lemma ReadEscapedChar(c: char, more: string)
    requires Echoable([c])
    ensures ReadDouble((if c == ':' then "\\x3A" else if c == '\"' then "\\\"" else [c]) + more)
         == Before(if c == ':' then "\\x3A" else [c], ReadDouble(more))
  {
    assert [c][0] == c;
    if c == ':' {
      ReadEscapedColon(more);
    } else if c == '\"' {
      ReadEscapedQuote(more);
    } else {
      ReadPlainText([c], more);
    }
  }

  lemma EscapedTail(head: string, tail: string, rest: string)
    ensures head + tail + rest == head + (tail + rest)
  {
  }

  /** Escaped text between double quotes is printed with its colons escaped and its quotes bare. */
  lemma {:induction false} ReadEscapedText(t: string, rest: string)
    requires Echoable(t)
    ensures ReadDouble(EscapeQuotes(EscapeColons(t)) + rest) == Before(EscapeColons(t), ReadDouble(rest))
  {
    if t == "" {
      assert EscapeQuotes(EscapeColons(t)) + rest == rest;
      BeforeNothing(ReadDouble(rest));
    } else {
      var c, tail := t[0], EscapeQuotes(EscapeColons(t[1..]));
      EscapeQuotesOf(t);
      EscapedTail(if c == ':' then "\\x3A" else if c == '\"' then "\\\"" else [c], tail, rest);
      ReadEscapedText(t[1..], rest);
      ReadEscapedChar(c, tail + rest);
      BeforeTwice(if c == ':' then "\\x3A" else [c], EscapeColons(t[1..]), ReadDouble(rest));
    }
  }

  lemma {:induction false} EscapeQuotesPlain(t: string)
    requires NoDoubleQuote(t)
    ensures EscapeQuotes(t) == t
  {
    if t != "" {
      EscapeQuotesPlain(t[1..]);
    }
  }

  lemma {:induction false} EscapedNoQuote(t: string)
    requires NoDoubleQuote(t)
    ensures NoDoubleQuote(EscapeColons(t))
  {
    if t != "" {
      EscapedNoQuote(t[1..]);
    }
  }

  lemma EchoedOptions(options: seq<string>, rest: string)
    requires forall o :: o in options ==> Inert(o)
    ensures ReadDouble(":" + (EscapeQuotes(EscapeColons(Quoted(options))) + ("\"" + rest)))
         == Some((":" + EscapeColons(Quoted(options)), rest))
  {
    var c := "\"" + rest;
    assert c[1..] == rest;
    var o := EscapeColons(Quoted(options));
    QuotedEchoable(options);
    ReadEscapedText(Quoted(options), c);
    ReadPlainText(":", EscapeQuotes(o) + c);
    assert o + "" == o;
  }

  /** The argument of `echo`, with its quotes removed, is the printed line. */
  lemma EchoedText(d: Directive, rest: string)
    requires Writable(d)
    ensures ReadDouble(Head(d) + (EscapeQuotes(EscapeColons(d.title)) + (":" + (EscapeQuotes(EscapeColons(Quoted(d.options))) + ("\"" + rest)))))
         == Some((Printed(d), rest))
  {
    var m := ":" + (EscapeQuotes(EscapeColons(Quoted(d.options))) + ("\"" + rest));
    EchoedOptions(d.options, rest);
    ReadEscapedText(d.title, m);
    HeadIsPlain(d);
    EchoedHead(Head(d), EscapeQuotes(EscapeColons(d.title)), EscapeColons(d.title), m,
               ":" + EscapeColons(Quoted(d.options)), rest);
  }

  lemma HeadIsPlain(d: Directive)
    requires IsName(d.variable)
    ensures forall i :: 0 <= i < |Head(d)| ==> Head(d)[i] != '\\' && Head(d)[i] != '\"'
  {
  }

  lemma EchoedHead(head: string, escaped: string, title: string, more: string, text: string, rest: string)
    requires forall i :: 0 <= i < |head| ==> head[i] != '\\' && head[i] != '\"'
    requires ReadDouble(more) == Some((text, rest))
    requires ReadDouble(escaped + more) == Before(title, ReadDouble(more))
    ensures ReadDouble(head + (escaped + more)) == Some((head + (title + text), rest))
  {
    ReadPlainText(head, escaped + more);
  }

  lemma CommandParts(a: string, b: string, c: string, e: string)
    ensures "echo \"" + a + b + ":" + c + "\" && read -r " + e
         == "echo" + (" " + ("\"" + (a + (b + (":" + (c + ("\"" + (" && " + ReadCommand(e)))))))))
  {
  }

  function ReadCommand(name: string): string {
    "read" + (" " + ("-r" + (" " + name)))
  }

  lemma LexDoubleQuoted(body: string, text: string, rest: string)
    requires ReadDouble(body) == Some((text, rest)) && (rest == "" || Ends(rest[0]))
    ensures Lex("\"" + body) == Then(Word(text), Lex(rest))
  {
    var s := "\"" + body;
    assert s[1..] == body && s[0] == '\"';
    assert ReadWord(s) == Before(text, ReadWord(rest));
    assert text + "" == text;
  }

  lemma NameIsPlain(s: string)
    requires IsName(s)
    ensures forall i :: 0 <= i < |s| ==> IsPlain(s[i])
  {
  }

  lemma LexRead(name: string)
    requires IsName(name)
    ensures Lex(ReadCommand(name)) == Some([Word("read"), Word("-r"), Word(name)])
  {
    NameIsPlain(name);
    LexPlainThen("read", "-r" + (" " + name));
    LexPlainThen("-r", name);
    PlainIsOneWord(name, "");
    assert name + "" == name;
    assert [Word("read")] + ([Word("-r")] + ([Word(name)] + [])) == [Word("read"), Word("-r"), Word(name)];
  }

  lemma EchoLexes(body: string, text: string, name: string)
    requires IsName(name) && ReadDouble(body) == Some((text, " && " + ReadCommand(name)))
    ensures Lex("echo" + (" " + ("\"" + body)))
         == Some([Word("echo"), Word(text), Operator("&&"), Word("read"), Word("-r"), Word(name)])
  {
    LexPlainThen("echo", "\"" + body);
    LexDoubleQuoted(body, text, " && " + ReadCommand(name));
    LexAnd(ReadCommand(name));
    LexRead(name);
    assert [Word("echo")] + ([Word(text)] + ([Operator("&&")] + [Word("read"), Word("-r"), Word(name)]))
        == [Word("echo"), Word(text), Operator("&&"), Word("read"), Word("-r"), Word(name)];
  }

  lemma AnswerIsName(d: Directive)
    requires IsName(d.variable)
    ensures IsName(Answer(d))
  {
  }

  /** The shell runs `echo` with the printed line as its only argument, then reads the answer. */
  lemma CommandPrints(d: Directive)
    requires Writable(d)
    ensures Lex(Command(d))
         == Some([Word("echo"), Word(Printed(d)), Operator("&&"), Word("read"), Word("-r"), Word(Answer(d))])
  {
    EscapedNoQuote(d.title);
    EscapeQuotesPlain(EscapeColons(d.title));
    AnswerIsName(d);
    var title, o := EscapeColons(d.title), EscapeQuotes(EscapeColons(Quoted(d.options)));
    CommandParts(Head(d), title, o, Answer(d));
    EchoedText(d, " && " + ReadCommand(Answer(d)));
    EchoLexes(Head(d) + (title + (":" + (o + ("\"" + (" && " + ReadCommand(Answer(d))))))), Printed(d), Answer(d));
  }

  // ---------------------------------------------------------------- reading the printed line

  predicate StartsWith(s: string, prefix: string) {
    |prefix| <= |s| && s[..|prefix|] == prefix
  }

  function Lower(c: char): char {
    if 'A' <= c <= 'Z' then (c as int + 32) as char else c
  }

  function Lowered(s: string): string {
    if s == "" then "" else [Lower(s[0])] + Lowered(s[1..])
  }

  /** `\s*["']?INFRA_W_` without regard to case. */
  predicate MarkerAfterBlanks(s: string) {
    if s == "" then false
    else
      var t := if s[0] == '\"' || s[0] == '\'' then s[1..] else s;
      StartsWith(Lowered(t), "infra_w_") || (IsSpace(s[0]) && MarkerAfterBlanks(s[1..]))
  }

  /** The line shows an `echo` of a marker, as a terminal shows the command itself. */
  predicate EchoLike(s: string) {
    s != "" &&
    ((|s| >= 5 && StartsWith(Lowered(s), "echo") && IsSpace(s[4]) && MarkerAfterBlanks(s[5..])) || EchoLike(s[1..]))
  }

  predicate EndsLine(c: char) {
    c == '\n' || c == '\r' || c as int == 0x2028 || c as int == 0x2029
  }

  /** `.*INFRA_W_`, where the dot stands for no line terminator. */
  predicate Mentions(s: string) {
    StartsWith(s, "INFRA_W_") || (s != "" && !EndsLine(s[0]) && Mentions(s[1..]))
  }

  /** `\s*.*INFRA_W_` */
  predicate MentionsAfterBlanks(s: string) {
    Mentions(s) || (s != "" && IsSpace(s[0]) && MentionsAfterBlanks(s[1..]))
  }

  /** `^[$#>]\s+.*INFRA_W_` */
  predicate PromptLike(s: string) {
    |s| >= 2 && (s[0] == '$' || s[0] == '#' || s[0] == '>') && IsSpace(s[1]) && MentionsAfterBlanks(s[2..])
  }

  function NameAt(s: string): Option<string> {
    if StartsWith(s, "INPUT:") then Some("INPUT")
    else if StartsWith(s, "SELECT:") then Some("SELECT")
    else if StartsWith(s, "STEP:") then Some("STEP")
    else if StartsWith(s, "WARN:") then Some("WARN")
    else if StartsWith(s, "INFO:") then Some("INFO")
    else if StartsWith(s, "ERROR:") then Some("ERROR")
    else if StartsWith(s, "CONFIRM:") then Some("CONFIRM")
    else if StartsWith(s, "PROGRESS:") then Some("PROGRESS")
    else if StartsWith(s, "SUCCESS:") then Some("SUCCESS")
    else if StartsWith(s, "SUMMARY:") then Some("SUMMARY")
    else if StartsWith(s, "TABLE:") then Some("TABLE")
    else if StartsWith(s, "MSGBOX:") then Some("MSGBOX")
    else if StartsWith(s, "END:") then Some("END")
    else None
  }

  /** The first marker of the line, and the text after its colon. */
  function FindMarker(s: string): Option<(string, string)> {
    if s == "" then None
    else if StartsWith(s, "INFRA_W_") && NameAt(s[8..]).Some? && 9 + |NameAt(s[8..]).value| <= |s|
    then Some((NameAt(s[8..]).value, s[9 + |NameAt(s[8..]).value|..]))
    else FindMarker(s[1..])
  }

  datatype Dialog =
    | SelectDialog(variable: string, prompt: string, options: seq<string>, default: string)
    | SummaryDialog(title: string, data: seq<string>)
    | TableDialog(title: string, data: seq<string>)
    | OtherDirective(name: string, rest: string)
    | NotADirective

  function Options(s: string): seq<string> {
    OptionsFrom(DropEscapes(s), 0, "", false)
  }

  function PartOr(parts: seq<string>, i: nat): string {
    if i < |parts| then parts[i] else ""
  }

  function PartsFrom(parts: seq<string>, i: nat): string {
    if i <= |parts| then Join(parts[i..]) else ""
  }

  /** `processInfraWLine`, for the directives with option lists; terminal sequences are already stripped. */
  function ProcessLine(line: string): Dialog {
    if EchoLike(line) || PromptLike(Trim(line)) then NotADirective
    else
      var found := FindMarker(line);
      if found.None? then NotADirective
      else
        var (name, rest) := found.value;
        var parts := Split(rest);
        if name == "SELECT" then
          var options := Options(UnescapeColons(PartsFrom(parts, 2)));
          SelectDialog(parts[0], UnescapeColons(PartOr(parts, 1)), options, if options == [] then "" else options[0])
        else if name == "SUMMARY" then
          SummaryDialog(UnescapeColons(parts[0]), Options(UnescapeColons(PartsFrom(parts, 1))))
        else if name == "TABLE" then
          TableDialog(UnescapeColons(parts[0]), Options(UnescapeColons(PartsFrom(parts, 1))))
        else OtherDirective(name, rest)
  }

  /** The dialog that the directive asks for. */
  function Asked(d: Directive): Dialog
    requires d.options != []
  {
    match d.kind
    case Select => SelectDialog(d.variable, d.title, d.options, d.options[0])
    case Summary => SummaryDialog(d.title, d.options)
    case Table => TableDialog(d.title, d.options)
  }

  // ---------------------------------------------------------------- the round trip

  lemma {:induction false} DropNothing(s: string)
    requires NoBackslash(s)
    ensures DropEscapes(s) == s
  {
    if s != "" {
      DropNothing(s[1..]);
    }
  }

  lemma {:induction false} QuotedNoBackslash(options: seq<string>)
    requires forall k :: 0 <= k < |options| ==> Inert(options[k])
    ensures NoBackslash(Quoted(options))
  {
    if |options| > 1 {
      QuotedNoBackslash(options[1..]);
    }
  }

  /** The option text as it arrives, with the carriage return that a terminal adds. */
  lemma OptionsArrive(options: seq<string>, tail: string)
    requires options != [] && forall k :: 0 <= k < |options| ==> Inert(options[k])
    requires tail == "" || tail == "\r"
    ensures NoColon(EscapeColons(Quoted(options)) + tail)
    ensures var read := Options(UnescapeColons(EscapeColons(Quoted(options)) + tail));
            read == options <==> forall k :: 0 <= k < |options| ==> Trimmed(options[k])
  {
    var text := Quoted(options) + tail;
    EscapeAppend(Quoted(options), tail);
    assert EscapeColons(tail) == tail;
    EscapedNoColon(text);
    UnescapeEscape(text);
    QuotedNoBackslash(options);
    UnescapePlain(text);
    DropNothing(text);
    if forall k :: 0 <= k < |options| ==> Trimmed(options[k]) {
      assert forall k :: 0 <= k < |options| ==> NoDoubleQuote(options[k]);
      assert text[0..] == text;
      QuotedReadsBack(text, 0, options, tail);
    } else {
      OptionsAreTrimmed(text, 0, "", false);
    }
  }

  lemma TitleArrives(title: string)
    requires Inert(title)
    ensures UnescapeColons(EscapeColons(title)) == title && NoColon(EscapeColons(title))
  {
    UnescapeEscape(title);
    UnescapePlain(title);
    EscapedNoColon(title);
  }

  lemma NoPrompt(line: string)
    requires line != "" && line[0] == 'I'
    ensures !PromptLike(Trim(line))
  {
    assert TrimStart(line) == line;
    TrimEndHead(line);
  }

  lemma MarkerOf(name: string, rest: string)
    requires name in {"SELECT", "SUMMARY", "TABLE"}
    ensures FindMarker("INFRA_W_" + (name + (":" + rest))) == Some((name, rest))
  {
    var s := "INFRA_W_" + (name + (":" + rest));
    assert s[..8] == "INFRA_W_" && s[8..] == name + (":" + rest);
    assert (name + (":" + rest))[..|name| + 1] == name + ":";
    assert s[9 + |name|..] == rest;
    NameIs(name, s[8..]);
  }

  lemma NameIs(name: string, s: string)
    requires name in {"SELECT", "SUMMARY", "TABLE"} && StartsWith(s, name + ":")
    ensures NameAt(s) == Some(name)
  {
    assert s[0] == name[0] && s[1] == name[1];
    assert s[..2] == name[..2];
    if name == "SUMMARY" {
      assert s[2] == s[..8][2] == 'M';
      assert !StartsWith(s, "SUCCESS:") by {
        assert "SUCCESS:"[2] == 'C';
      }
    }
  }

  lemma TwoParts(a: string, b: string)
    requires NoColon(a) && NoColon(b)
    ensures var parts := Split(a + (":" + b));
            parts[0] == a && |parts| == 2 && PartsFrom(parts, 1) == b
  {
    SplitFirst(a, b);
    SplitNone(b);
    assert ([a] + [b])[1..] == [b];
  }

  lemma ThreeParts(v: string, a: string, b: string)
    requires NoColon(v) && NoColon(a) && NoColon(b)
    ensures var parts := Split(v + (":" + (a + (":" + b))));
            parts[0] == v && PartOr(parts, 1) == a && PartsFrom(parts, 2) == b
  {
    SplitFirst(v, a + (":" + b));
    SplitFirst(a, b);
    SplitNone(b);
    assert ([v] + ([a] + [b]))[2..] == [b];
  }

  function MarkerName(kind: Kind): string {
    match kind
    case Select => "SELECT"
    case Summary => "SUMMARY"
    case Table => "TABLE"
  }

  lemma HeadParts(d: Directive)
    ensures Head(d) == "INFRA_W_" + MarkerName(d.kind) + ":" + if d.kind.Select? then d.variable + ":" else ""
  {
    match d.kind
    case Select => assert "INFRA_W_SELECT:" == "INFRA_W_" + "SELECT" + ":";
    case Summary => assert "INFRA_W_SUMMARY:" == "INFRA_W_" + "SUMMARY" + ":" + "";
    case Table => assert "INFRA_W_TABLE:" == "INFRA_W_" + "TABLE" + ":" + "";
  }

  lemma Regroup(name: string, v: string, t: string, o: string, tail: string)
    ensures "INFRA_W_" + name + ":" + "" + (t + (":" + o)) + tail == "INFRA_W_" + (name + (":" + (t + (":" + (o + tail)))))
    ensures "INFRA_W_" + name + ":" + (v + ":") + (t + (":" + o)) + tail
         == "INFRA_W_" + (name + (":" + (v + (":" + (t + (":" + (o + tail)))))))
  {
  }

  lemma PrintedMarker(d: Directive, tail: string)
    ensures var body := EscapeColons(d.title) + (":" + (EscapeColons(Quoted(d.options)) + tail));
            var rest := if d.kind.Select? then d.variable + (":" + body) else body;
            FindMarker(Printed(d) + tail) == Some((MarkerName(d.kind), rest))
    ensures Printed(d) + tail != "" && (Printed(d) + tail)[0] == 'I'
  {
    var t, o := EscapeColons(d.title), EscapeColons(Quoted(d.options));
    var body := t + (":" + (o + tail));
    HeadParts(d);
    Regroup(MarkerName(d.kind), d.variable, t, o, tail);
    MarkerOf(MarkerName(d.kind), if d.kind.Select? then d.variable + (":" + body) else body);
  }

  /**
   The printed line opens exactly the dialog of the directive, if and only if the line does not look
   like an echoed command and every option is free of white space at its ends.
   */
  lemma DialogReadsBackIff(d: Directive, tail: string)
    requires Writable(d) && (tail == "" || tail == "\r")
    ensures ProcessLine(Printed(d) + tail) == Asked(d)
            <==> !EchoLike(Printed(d) + tail) && forall k :: 0 <= k < |d.options| ==> Trimmed(d.options[k])
  {
    var line := Printed(d) + tail;
    PrintedMarker(d, tail);
    NoPrompt(line);
    OptionsArrive(d.options, tail);
    TitleArrives(d.title);
    var t, o := EscapeColons(d.title), EscapeColons(Quoted(d.options)) + tail;
    match d.kind {
      case Select =>
        ThreeParts(d.variable, t, o);
      case Summary =>
        TwoParts(t, o);
      case Table =>
        TwoParts(t, o);
    }
  }

  /** An option that ends with a blank is not read back: its closing quote is taken for an opening one. */
  lemma BlankAtTheEnd()
    ensures Writable(Directive(Table, "X", "t", ["a "]))
    ensures ProcessLine(Printed(Directive(Table, "X", "t", ["a "]))) != Asked(Directive(Table, "X", "t", ["a "]))
  {
    var d := Directive(Table, "X", "t", ["a "]);
    assert !Trimmed(d.options[0]);
    assert Printed(d) + "" == Printed(d);
    DialogReadsBackIff(d, "");
  }
}
