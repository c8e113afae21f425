/**
 Quoting for the shell (server/utils/shell.js, server/utils/scriptUtils.js, server/routes/sftpWS.js),
 and a lexer for sections 2.2 and 2.3 of the POSIX.1-2017 Shell Command Language: quoting, quote
 removal, blanks, comments and operators.  Expansions are left unperformed in the words.
 */
module Shell {
  import opened Wrappers

  // ---------------------------------------------------------------- the reader

  datatype Token = Word(text: string) | Operator(text: string)

  predicate IsBlank(c: char) {
    c == ' ' || c == '\t'
  }

  predicate IsOperator(c: char) {
    c == '&' || c == '|' || c == ';' || c == '<' || c == '>' || c == '(' || c == ')' || c == '\n'
  }

  predicate Ends(c: char) {
    IsBlank(c) || IsOperator(c)
  }

  function Before(text: string, r: Option<(string, string)>): Option<(string, string)> {
    if r.Some? then Some((text + r.value.0, r.value.1)) else None
  }

  /** Up to the closing single quote: everything is literal. */
  function ReadSingle(s: string): (r: Option<(string, string)>)
    ensures r.Some? ==> |r.value.1| < |s|
  {
    if s == "" then None
    else if s[0] == '\'' then Some(("", s[1..]))
    else Before([s[0]], ReadSingle(s[1..]))
  }

  /** Up to the closing double quote: a backslash quotes only `$`, a backquote, `"`, `\` and a newline. */
  function ReadDouble(s: string): (r: Option<(string, string)>)
    ensures r.Some? ==> |r.value.1| < |s|
  {
    if s == "" then None
    else if s[0] == '\"' then Some(("", s[1..]))
    else if s[0] == '\\' && |s| >= 2 && s[1] == '\n' then ReadDouble(s[2..])
    else if s[0] == '\\' && |s| >= 2 && (s[1] == '$' || s[1] == '`' || s[1] == '\"' || s[1] == '\\')
    then Before([s[1]], ReadDouble(s[2..]))
    else Before([s[0]], ReadDouble(s[1..]))
  }

  /** The rest of a word, with its quotes removed, and what follows the word. */
  function ReadWord(s: string): (r: Option<(string, string)>)
    ensures r.Some? ==> |r.value.1| <= |s| && (s != "" && !Ends(s[0]) ==> |r.value.1| < |s|)
    decreases |s|
  {
    if s == "" || Ends(s[0]) then Some(("", s))
    else if s[0] == '\'' then
      var q := ReadSingle(s[1..]);
      if q.None? then None else Before(q.value.0, ReadWord(q.value.1))
    else if s[0] == '\"' then
      var q := ReadDouble(s[1..]);
      if q.None? then None else Before(q.value.0, ReadWord(q.value.1))
    else if s[0] == '\\' then
      if |s| < 2 then None
      else Before(if s[1] == '\n' then "" else [s[1]], ReadWord(s[2..]))
    else Before([s[0]], ReadWord(s[1..]))
  }

  function OperatorLength(s: string): nat
    requires s != ""
  {
    if |s| >= 2 && s[..2] in {"&&", "||", ";;", "<<", ">>", "<&", ">&", "<>", ">|"} then 2 else 1
  }

  function SkipComment(s: string): (r: string)
    ensures |r| <= |s|
  {
    if s == "" || s[0] == '\n' then s else SkipComment(s[1..])
  }

  function Then(t: Token, rest: Option<seq<Token>>): Option<seq<Token>> {
    if rest.Some? then Some([t] + rest.value) else None
  }

  /** The tokens of a command line; `None` when a quote is left open. */
  function Lex(s: string): Option<seq<Token>>
    decreases |s|
  {
    if s == "" then Some([])
    else if IsBlank(s[0]) then Lex(s[1..])
    else if s[0] == '#' then
      var rest := SkipComment(s[1..]);
      Lex(rest)
    else if IsOperator(s[0]) then Then(Operator(s[..OperatorLength(s)]), Lex(s[OperatorLength(s)..]))
    else
      var w := ReadWord(s);
      if w.None? then None else Then(Word(w.value.0), Lex(w.value.1))
  }

  // ---------------------------------------------------------------- the writer

  /** `value.replace(/'/g, "'\\''")` */
  function QuoteBody(value: string): string {
    if value == "" then "" else (if value[0] == '\'' then "'\\''" else [value[0]]) + QuoteBody(value[1..])
  }

  function ShellQuote(value: string): string {
    "'" + QuoteBody(value) + "'"
  }

  // ---------------------------------------------------------------- one value, one word

  lemma BeforeTwice(a: string, b: string, r: Option<(string, string)>)
    ensures Before(a, Before(b, r)) == Before(a + b, r)
  {
    if r.Some? {
      assert a + (b + r.value.0) == (a + b) + r.value.0;
    }
  }

  lemma BeforeNothing(r: Option<(string, string)>)
    ensures Before("", r) == r
  {
    if r.Some? {
      assert "" + r.value.0 == r.value.0;
    }
  }

  /** Inside single quotes an ordinary character is read as itself. */
  lemma ReadQuotedChar(c: char, rest: string)
    requires c != '\''
    ensures ReadWord(['\'', c] + rest) == Before([c], ReadWord(['\''] + rest))
  {
    var s := ['\'', c] + rest;
    assert s[1..] == [c] + rest && ([c] + rest)[1..] == rest;
    assert (['\''] + rest)[1..] == rest;
    var q := ReadSingle(rest);
    if q.Some? {
      BeforeTwice([c], q.value.0, ReadWord(q.value.1));
    }
  }

  /** An embedded quote closes, escapes and reopens. */
  lemma ReadQuotedQuote(rest: string)
    ensures ReadWord("''\\''" + rest) == Before("'", ReadWord("'" + rest))
  {
    var s := "''\\''" + rest;
    assert s[1..] == "'\\''" + rest;
    assert ("'\\''" + rest)[1..] == "\\''" + rest;
    assert ("\\''" + rest)[2..] == "'" + rest;
    assert ("\\''" + rest)[1] == '\'';
    BeforeNothing(ReadWord("\\''" + rest));
  }

  lemma ReadEmptyQuotes(rest: string)
    ensures ReadWord("'" + ("'" + rest)) == ReadWord(rest)
  {
    var s := "'" + ("'" + rest);
    assert s[1..] == "'" + rest && ("'" + rest)[1..] == rest;
    BeforeNothing(ReadWord(rest));
  }

  lemma QuoteBodyStep(value: string, tail: string)
    requires value != ""
    ensures "'" + (QuoteBody(value) + tail)
         == if value[0] == '\'' then "''\\''" + (QuoteBody(value[1..]) + tail)
            else ['\'', value[0]] + (QuoteBody(value[1..]) + tail)
  {
  }

  lemma {:induction false} ReadQuoted(value: string, rest: string)
    ensures ReadWord("'" + (QuoteBody(value) + ("'" + rest))) == Before(value, ReadWord(rest))
    decreases |value|
  {
    var tail := "'" + rest;
    if value == "" {
      assert QuoteBody(value) + tail == tail;
      ReadEmptyQuotes(rest);
      BeforeNothing(ReadWord(rest));
    } else {
      var more := QuoteBody(value[1..]) + tail;
      ReadQuoted(value[1..], rest);
      QuoteBodyStep(value, tail);
      if value[0] == '\'' {
        ReadQuotedQuote(more);
      } else {
        ReadQuotedChar(value[0], more);
      }
      BeforeTwice([value[0]], value[1..], ReadWord(rest));
      assert [value[0]] + value[1..] == value;
    }
  }

  /** The quoted value is exactly one word, equal to the value, wherever the command continues. */
  lemma QuotedIsOneWord(value: string, rest: string)
    requires rest == "" || Ends(rest[0])
    ensures Lex(ShellQuote(value) + rest) == Then(Word(value), Lex(rest))
  {
    var s := ShellQuote(value) + rest;
    assert s == "'" + (QuoteBody(value) + ("'" + rest));
    ReadQuoted(value, rest);
    assert value + "" == value;
    assert s[0] == '\'';
  }

  lemma ShellQuoteRoundTrip(value: string)
    ensures Lex(ShellQuote(value)) == Some([Word(value)])
  {
    QuotedIsOneWord(value, "");
    assert ShellQuote(value) + "" == ShellQuote(value);
    assert [Word(value)] + [] == [Word(value)];
  }

  // ---------------------------------------------------------------- the copy command

  predicate IsPlain(c: char) {
    !Ends(c) && c != '\'' && c != '\"' && c != '\\' && c != '#'
  }

  lemma {:induction false} ReadPlain(w: string, rest: string)
    requires forall i :: 0 <= i < |w| ==> IsPlain(w[i])
    ensures ReadWord(w + rest) == Before(w, ReadWord(rest))
  {
    if w == "" {
      assert w + rest == rest;
      BeforeNothing(ReadWord(rest));
    } else {
      assert (w + rest)[1..] == w[1..] + rest;
      ReadPlain(w[1..], rest);
      BeforeTwice([w[0]], w[1..], ReadWord(rest));
      assert [w[0]] + w[1..] == w;
    }
  }

  lemma PlainIsOneWord(w: string, rest: string)
    requires w != "" && forall i :: 0 <= i < |w| ==> IsPlain(w[i])
    requires rest == "" || Ends(rest[0])
    ensures Lex(w + rest) == Then(Word(w), Lex(rest))
  {
    ReadPlain(w, rest);
    assert w + "" == w;
    assert (w + rest)[0] == w[0];
  }

  lemma LexBlank(rest: string)
    ensures Lex(" " + rest) == Lex(rest)
  {
    assert (" " + rest)[1..] == rest;
  }

  /** `src.split("/").pop()` */
  function Basename(path: string): string {
    if path == "" then ""
    else if path[|path| - 1] == '/' then ""
    else Basename(path[..|path| - 1]) + [path[|path| - 1]]
  }

  /** What follows the last slash, if there is one. */
  lemma {:induction false} BasenameIs(path: string)
    ensures '/' !in Basename(path)
    ensures if '/' in path then exists front :: path == front + "/" + Basename(path) else Basename(path) == path
  {
    if path != "" {
      var front, last := path[..|path| - 1], path[|path| - 1];
      assert path == front + [last];
      if last == '/' {
        assert path == front + "/" + "";
      } else {
        BasenameIs(front);
        if '/' in front {
          var rest :| front == rest + "/" + Basename(front);
          assert path == rest + "/" + Basename(path);
        }
      }
    }
  }

  function Destination(folder: string, source: string): string {
    folder + "/" + Basename(source)
  }

  function CopyOne(folder: string, source: string): string {
    "cp -r " + ShellQuote(source) + " " + ShellQuote(Destination(folder, source))
  }

  /** The sources' commands joined with `&&`. */
  function CopyCommand(folder: string, sources: seq<string>): string
    requires sources != []
  {
    if |sources| == 1 then CopyOne(folder, sources[0])
    else CopyOne(folder, sources[0]) + " && " + CopyCommand(folder, sources[1..])
  }

  function CopyTokens(folder: string, sources: seq<string>): seq<Token>
    requires sources != []
  {
    [Word("cp"), Word("-r"), Word(sources[0]), Word(Destination(folder, sources[0]))]
    + if |sources| == 1 then [] else [Operator("&&")] + CopyTokens(folder, sources[1..])
  }

  /** A word, a blank, and more. */
  lemma LexPlainThen(w: string, rest: string)
    requires w != "" && forall i :: 0 <= i < |w| ==> IsPlain(w[i])
    ensures Lex(w + (" " + rest)) == Then(Word(w), Lex(rest))
  {
    PlainIsOneWord(w, " " + rest);
    LexBlank(rest);
  }

  lemma LexQuotedThen(value: string, rest: string)
    ensures Lex(ShellQuote(value) + (" " + rest)) == Then(Word(value), Lex(rest))
  {
    QuotedIsOneWord(value, " " + rest);
    LexBlank(rest);
  }

  lemma CopyOneParts(a: string, b: string, rest: string)
    ensures "cp -r " + a + " " + b + rest == "cp" + (" " + ("-r" + (" " + (a + (" " + (b + rest))))))
  {
  }

  lemma LexCopyOne(folder: string, source: string, rest: string)
    requires rest == "" || Ends(rest[0])
    ensures Lex(CopyOne(folder, source) + rest)
         == Then(Word("cp"), Then(Word("-r"), Then(Word(source), Then(Word(Destination(folder, source)), Lex(rest)))))
  {
    var d := ShellQuote(Destination(folder, source)) + rest;
    var c := ShellQuote(source) + (" " + d);
    CopyOneParts(ShellQuote(source), ShellQuote(Destination(folder, source)), rest);
    LexPlainThen("cp", "-r" + (" " + c));
    LexPlainThen("-r", c);
    LexQuotedThen(source, d);
    QuotedIsOneWord(Destination(folder, source), rest);
  }

  lemma LexAnd(rest: string)
    ensures Lex(" && " + rest) == Then(Operator("&&"), Lex(rest))
  {
    var s := "&& " + rest;
    assert " && " + rest == " " + s;
    LexBlank(s);
    assert s[..2] == "&&" && s[2..] == " " + rest;
    LexBlank(rest);
  }

  /** The joined command runs `cp -r` with exactly the intended arguments, whatever the file names contain. */
  lemma {:induction false} CopyCommandLexes(folder: string, sources: seq<string>)
    requires sources != []
    ensures Lex(CopyCommand(folder, sources)) == Some(CopyTokens(folder, sources))
    decreases |sources|
  {
    if |sources| == 1 {
      LexCopyOne(folder, sources[0], "");
      assert CopyOne(folder, sources[0]) + "" == CopyOne(folder, sources[0]);
      FourTokens(Word("cp"), Word("-r"), Word(sources[0]), Word(Destination(folder, sources[0])), []);
    } else {
      var rest := CopyCommand(folder, sources[1..]);
      JoinCommands(CopyOne(folder, sources[0]), rest);
      LexCopyOne(folder, sources[0], " && " + rest);
      LexAnd(rest);
      CopyCommandLexes(folder, sources[1..]);
      FourTokens(Word("cp"), Word("-r"), Word(sources[0]), Word(Destination(folder, sources[0])),
                 [Operator("&&")] + CopyTokens(folder, sources[1..]));
    }
  }

  lemma JoinCommands(a: string, b: string)
    ensures a + " && " + b == a + (" && " + b)
  {
  }

  lemma FourTokens(a: Token, b: Token, c: Token, d: Token, more: seq<Token>)
    ensures Then(a, Then(b, Then(c, Then(d, Some(more))))) == Some([a, b, c, d] + more)
  {
    assert [a] + ([b] + ([c] + ([d] + more))) == [a, b, c, d] + more;
  }

  // ---------------------------------------------------------------- script chunks

  const ChunkSize := 2000

  function ChunkCommand(chunk: string): string {
    "printf '%s' '" + chunk + "' >> \"$_ntb\""
  }

  const SetUp := "_nts=$(mktemp) && _ntb=$(mktemp)"
  const RunScript :=
    "base64 -d < \"$_ntb\" > \"$_nts\" && rm -f \"$_ntb\" && chmod +x \"$_nts\" && \"$_nts\"; _exit=$?; rm -f \"$_nts\"; echo \"INFRA_W_END:$_exit\""

  function Joined(chunks: seq<string>): string {
    if chunks == [] then "" else Joined(chunks[..|chunks| - 1]) + chunks[|chunks| - 1]
  }

  function Commands(chunks: seq<string>): (r: seq<string>)
    ensures |r| == |chunks|
    ensures forall i :: 0 <= i < |chunks| ==> r[i] == ChunkCommand(chunks[i])
  {
    if chunks == [] then [] else Commands(chunks[..|chunks| - 1]) + [ChunkCommand(chunks[|chunks| - 1])]
  }

  /** The chunks lie in order, none is empty or too long, and together they are the whole text. */
  predicate Cuts(chunks: seq<string>, b64: string) {
    && Joined(chunks) == b64
    && forall i :: 0 <= i < |chunks| ==> 0 < |chunks[i]| <= ChunkSize
  }

  lemma CutMore(chunks: seq<string>, b64: string, chunk: string)
    requires Cuts(chunks, b64) && 0 < |chunk| <= ChunkSize
    ensures Cuts(chunks + [chunk], b64 + chunk)
    ensures Commands(chunks + [chunk]) == Commands(chunks) + [ChunkCommand(chunk)]
  {
    var more := chunks + [chunk];
    assert more[..|more| - 1] == chunks && more[|more| - 1] == chunk;
  }

  /** `getScriptCommands` */
  method GetScriptCommands(b64: string) returns (commands: seq<string>, ghost chunks: seq<string>)
    ensures Cuts(chunks, b64)
    ensures commands == [SetUp] + Commands(chunks) + [RunScript]
  {
    commands, chunks := [SetUp], [];
    var i, end := 0, 0;
    while i < |b64|
      invariant i >= 0 && end == if i < |b64| then i else |b64|
      invariant Cuts(chunks, b64[..end])
      invariant commands == [SetUp] + Commands(chunks)
    {
      end := if i + ChunkSize < |b64| then i + ChunkSize else |b64|;
      var chunk := b64[i..end];
      CutMore(chunks, b64[..i], chunk);
      assert b64[..i] + chunk == b64[..end];
      commands, chunks := commands + [ChunkCommand(chunk)], chunks + [chunk];
      i := i + ChunkSize;
    }
    assert b64[..|b64|] == b64;
    commands := commands + [RunScript];
  }

  predicate NoQuote(s: string) {
    forall i :: 0 <= i < |s| ==> s[i] != '\''
  }

  lemma {:induction false} QuoteBodyPlain(s: string)
    requires NoQuote(s)
    ensures QuoteBody(s) == s
  {
    if s != "" {
      QuoteBodyPlain(s[1..]);
    }
  }

  lemma PrintfParts(a: string, b: string, c: string)
    ensures "printf " + a + " " + b + " >> " + c == "printf" + (" " + (a + (" " + (b + (" " + (">>" + (" " + c)))))))
  {
  }

  lemma ChunkCommandParts(chunk: string)
    ensures ChunkCommand(chunk) == "printf " + "'%s'" + " " + ("'" + chunk + "'") + " >> " + "\"$_ntb\""
  {
    assert "printf '%s' '" == "printf " + "'%s'" + " " + "'";
    assert "' >> \"$_ntb\"" == "'" + " >> " + "\"$_ntb\"";
  }

  /** A chunk of base64 text reaches `printf` as one argument. */
  lemma ChunkCommandLexes(chunk: string)
    requires NoQuote(chunk)
    ensures Lex(ChunkCommand(chunk))
         == Some([Word("printf"), Word("%s"), Word(chunk), Operator(">>"), Word("$_ntb")])
  {
    ChunkCommandParts(chunk);
    QuoteBodyPlain(chunk);
    QuoteBodyPlain("%s");
    assert "'" + "%s" + "'" == "'%s'";
    LexTarget();
    PrintfLexes("%s", chunk, "\"$_ntb\"", Word("$_ntb"));
  }

  lemma LexTarget()
    ensures Lex("\"$_ntb\"") == Some([Word("$_ntb")])
  {
    DoubleQuotedIsOneWord("$_ntb", "");
    assert "\"" + "$_ntb" + "\"" + "" == "\"$_ntb\"";
    assert [Word("$_ntb")] + [] == [Word("$_ntb")];
  }

  lemma PrintfLexes(format: string, value: string, target: string, t: Token)
    requires Lex(target) == Some([t])
    ensures Lex("printf " + ShellQuote(format) + " " + ShellQuote(value) + " >> " + target)
         == Some([Word("printf"), Word(format), Word(value), Operator(">>"), t])
  {
    var d := ">>" + (" " + target);
    var c := ShellQuote(value) + (" " + d);
    PrintfParts(ShellQuote(format), ShellQuote(value), target);
    LexPlainThen("printf", ShellQuote(format) + (" " + c));
    LexQuotedThen(format, c);
    LexQuotedThen(value, d);
    LexAppend(target);
    FourTokens(Word("printf"), Word(format), Word(value), Operator(">>"), [t]);
    assert [Word("printf"), Word(format), Word(value), Operator(">>")] + [t]
        == [Word("printf"), Word(format), Word(value), Operator(">>"), t];
  }

  lemma LexAppend(rest: string)
    ensures Lex(">>" + (" " + rest)) == Then(Operator(">>"), Lex(rest))
  {
    var s := ">>" + (" " + rest);
    assert s[0] == '>' && s[..2] == ">>" && s[2..] == " " + rest;
    assert OperatorLength(s) == 2;
    LexBlank(rest);
  }

  lemma DoubleQuotedIsOneWord(w: string, rest: string)
    requires forall i :: 0 <= i < |w| ==> w[i] != '\"' && w[i] != '\\'
    requires rest == "" || Ends(rest[0])
    ensures Lex("\"" + w + "\"" + rest) == Then(Word(w), Lex(rest))
  {
    var s := "\"" + w + "\"" + rest;
    assert s[1..] == w + "\"" + rest;
    ReadDoublePlain(w, rest);
    assert ReadWord(s) == Before(w, ReadWord(rest));
    assert w + "" == w;
    assert s[0] == '\"';
  }

  lemma {:induction false} ReadDoublePlain(w: string, rest: string)
    requires forall i :: 0 <= i < |w| ==> w[i] != '\"' && w[i] != '\\'
    ensures ReadDouble(w + "\"" + rest) == Some((w, rest))
  {
    var s := w + "\"" + rest;
    if w == "" {
      assert s == "\"" + rest;
      assert s[1..] == rest;
    } else {
      assert s[1..] == w[1..] + "\"" + rest;
      ReadDoublePlain(w[1..], rest);
      assert [w[0]] + w[1..] == w;
    }
  }

  lemma {:induction false} NoQuoteParts(chunks: seq<string>)
    requires NoQuote(Joined(chunks))
    ensures forall i :: 0 <= i < |chunks| ==> NoQuote(chunks[i])
  {
    if chunks != [] {
      var n := |chunks| - 1;
      var front, last := Joined(chunks[..n]), chunks[n];
      forall i | 0 <= i < |front|
        ensures front[i] != '\''
      {
        assert front[i] == Joined(chunks)[i];
      }
      forall i | 0 <= i < |last|
        ensures last[i] != '\''
      {
        assert last[i] == Joined(chunks)[|front| + i];
      }
      NoQuoteParts(chunks[..n]);
    }
  }

  /** What the shell hands to the `printf` commands, in order, is the whole base64 text. */
  lemma ScriptArrives(b64: string, chunks: seq<string>)
    requires NoQuote(b64) && Cuts(chunks, b64)
    ensures forall i :: 0 <= i < |chunks| ==>
              Lex(Commands(chunks)[i]) == Some([Word("printf"), Word("%s"), Word(chunks[i]), Operator(">>"), Word("$_ntb")])
    ensures Joined(chunks) == b64
  {
    NoQuoteParts(chunks);
    forall i | 0 <= i < |chunks|
      ensures Lex(Commands(chunks)[i]) == Some([Word("printf"), Word("%s"), Word(chunks[i]), Operator(">>"), Word("$_ntb")])
    {
      ChunkCommandLexes(chunks[i]);
    }
  }
}
