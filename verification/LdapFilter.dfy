/**
 Search filters built from templates (server/utils/ldapFilter.js), and a reader for the string
 representation of filters in section 3 of RFC 4515.
 */
module LdapFilter {
  import opened Wrappers

  // ---------------------------------------------------------------- the writer

  function EscapeChar(c: char): string {
    if c == '\\' then "\\5c"
    else if c == '*' then "\\2a"
    else if c == '(' then "\\28"
    else if c == ')' then "\\29"
    else if c == '\0' then "\\00"
    else [c]
  }

  /** `escapeFilterValue` */
  function Escape(value: string): string {
    if value == "" then "" else EscapeChar(value[0]) + Escape(value[1..])
  }

  /** `\w` */
  predicate IsWord(c: char) {
    'a' <= c <= 'z' || 'A' <= c <= 'Z' || '0' <= c <= '9' || c == '_'
  }

  function WordRun(t: string): (n: nat)
    ensures n <= |t| && (n < |t| ==> !IsWord(t[n])) && forall i :: 0 <= i < n ==> IsWord(t[i])
  {
    if t == "" || !IsWord(t[0]) then 0 else 1 + WordRun(t[1..])
  }

  /** The length of the placeholder `{{name}}` that `t` starts with, or 0. */
  function PlaceholderLength(t: string): (n: nat)
    ensures n <= |t| && (n > 0 ==> n >= 5)
  {
    if |t| < 2 || t[0] != '{' || t[1] != '{' then 0
    else
      var w := WordRun(t[2..]);
      if w > 0 && |t| >= w + 4 && t[w + 2] == '}' && t[w + 3] == '}' then w + 4 else 0
  }

  datatype Options = Options(replacements: map<string, string>, wildcardUsername: bool)

  /** The replacement callback: unknown names stay, a bare wildcard may pass, everything else is escaped. */
  function Replacement(o: Options, placeholder: string): string
    requires |placeholder| >= 5
  {
    var key := placeholder[2..|placeholder| - 2];
    if key !in o.replacements then placeholder
    else if o.wildcardUsername && key == "username" && o.replacements[key] == "*" then "*"
    else Escape(o.replacements[key])
  }

  /** `buildSearchFilter`: one pass from left to right over the template. */
  function Build(o: Options, t: string): string {
    if t == "" then ""
    else
      var n := PlaceholderLength(t);
      if n > 0 then Replacement(o, t[..n]) + Build(o, t[n..])
      else [t[0]] + Build(o, t[1..])
  }

  // ---------------------------------------------------------------- the reader

  /** A piece of an assertion value: a literal character, or an unescaped asterisk. */
  datatype Piece = Star | Chr(c: char)

  datatype MatchType = Equal | Approx | Greater | Less

  datatype Filter =
    | And(filters: seq<Filter>)
    | Or(filters: seq<Filter>)
    | Not(filter: Filter)
    | Item(attribute: string, matchType: MatchType, value: seq<Piece>)

  /** Reading a finished filter, or reading a template whose placeholders stand for raw values. */
  datatype Mode = Finished | Template(options: Options)

  function HexDigit(c: char): Option<nat> {
    if '0' <= c <= '9' then Some(c as nat - '0' as nat)
    else if 'a' <= c <= 'f' then Some(c as nat - 'a' as nat + 10)
    else if 'A' <= c <= 'F' then Some(c as nat - 'A' as nat + 10)
    else None
  }

  function Literal(text: string): (p: seq<Piece>)
    ensures |p| == |text| && forall i :: 0 <= i < |text| ==> p[i] == Chr(text[i])
  {
    if text == "" then [] else [Chr(text[0])] + Literal(text[1..])
  }

  /** What a placeholder contributes to the value: the raw replacement, a wildcard, or its own text. */
  function Meaning(o: Options, placeholder: string): seq<Piece>
    requires |placeholder| >= 5
  {
    var key := placeholder[2..|placeholder| - 2];
    if key !in o.replacements then Literal(placeholder)
    else if o.wildcardUsername && key == "username" && o.replacements[key] == "*" then [Star]
    else Literal(o.replacements[key])
  }

  function Prepend(p: seq<Piece>, rest: Option<seq<Piece>>): Option<seq<Piece>> {
    if rest.Some? then Some(p + rest.value) else None
  }

  /** The assertion value written as `e`; `None` when `e` is not a valid encoding. */
  function Decode(m: Mode, e: string): Option<seq<Piece>> {
    if e == "" then Some([])
    else if m.Template? && PlaceholderLength(e) > 0 then
      Prepend(Meaning(m.options, e[..PlaceholderLength(e)]), Decode(m, e[PlaceholderLength(e)..]))
    else if e[0] == '\\' then
      if |e| >= 3 && HexDigit(e[1]).Some? && HexDigit(e[2]).Some?
      then Prepend([Chr((HexDigit(e[1]).value * 16 + HexDigit(e[2]).value) as char)], Decode(m, e[3..]))
      else None
    else if e[0] == '*' then Prepend([Star], Decode(m, e[1..]))
    else if e[0] == '(' || e[0] == ')' || e[0] == '\0' then None
    else Prepend([Chr(e[0])], Decode(m, e[1..]))
  }

  /** Attribute descriptions, with the colons of an extensible match. */
  predicate IsAttribute(c: char) {
    'a' <= c <= 'z' || 'A' <= c <= 'Z' || '0' <= c <= '9' || c == '-' || c == '.' || c == ';' || c == ':'
  }

  function AttributeRun(s: string): (n: nat)
    ensures n <= |s|
  {
    if s == "" || !IsAttribute(s[0]) then 0 else 1 + AttributeRun(s[1..])
  }

  function ValueRun(s: string): (n: nat)
    ensures n <= |s| && (n < |s| ==> s[n] == '(' || s[n] == ')')
    ensures forall i :: 0 <= i < n ==> s[i] != '(' && s[i] != ')'
  {
    if s == "" || s[0] == '(' || s[0] == ')' then 0 else 1 + ValueRun(s[1..])
  }

  /** The match type at the head of `s`, with its length. */
  function MatchTypeOf(s: string): Option<(MatchType, nat)> {
    if |s| >= 1 && s[0] == '=' then Some((Equal, 1))
    else if |s| >= 2 && s[1] == '=' then
      if s[0] == '~' then Some((Approx, 2))
      else if s[0] == '>' then Some((Greater, 2))
      else if s[0] == '<' then Some((Less, 2))
      else None
    else None
  }

  /** An item without its parentheses, and what follows it. */
  function ParseItem(m: Mode, s: string): (r: Option<(Filter, string)>)
    ensures r.Some? ==> |r.value.1| < |s|
  {
    var n := AttributeRun(s);
    var t := MatchTypeOf(s[n..]);
    if n == 0 || t.None? then None
    else
      var v := s[n + t.value.1..];
      var k := ValueRun(v);
      var value := Decode(m, v[..k]);
      if value.None? then None else Some((Item(s[..n], t.value.0, value.value), v[k..]))
  }

  function ParseFilter(m: Mode, s: string): (r: Option<(Filter, string)>)
    ensures r.Some? ==> |r.value.1| < |s|
    decreases |s|, 0
  {
    if |s| < 2 || s[0] != '(' then None
    else
      var inner :=
        if s[1] == '&' || s[1] == '|' then
          var l := ParseList(m, s[2..]);
          if l.None? then None
          else Some((if s[1] == '&' then And(l.value.0) else Or(l.value.0), l.value.1))
        else if s[1] == '!' then
          var f := ParseFilter(m, s[2..]);
          if f.None? then None else Some((Not(f.value.0), f.value.1))
        else ParseItem(m, s[1..]);
      if inner.None? || inner.value.1 == "" || inner.value.1[0] != ')' then None
      else Some((inner.value.0, inner.value.1[1..]))
  }

  /** One filter or more. */
  function ParseList(m: Mode, s: string): (r: Option<(seq<Filter>, string)>)
    ensures r.Some? ==> |r.value.1| < |s|
    decreases |s|, 1
  {
    var f := ParseFilter(m, s);
    if f.None? then None
    else if f.value.1 != "" && f.value.1[0] == '(' then
      var l := ParseList(m, f.value.1);
      if l.None? then None else Some(([f.value.0] + l.value.0, l.value.1))
    else Some(([f.value.0], f.value.1))
  }

  function Parse(m: Mode, s: string): Option<Filter> {
    var f := ParseFilter(m, s);
    if f.Some? && f.value.1 == "" then Some(f.value.0) else None
  }

  // ---------------------------------------------------------------- escaping is invertible

  lemma PrependTwice(a: seq<Piece>, b: seq<Piece>, r: Option<seq<Piece>>)
    ensures Prepend(a, Prepend(b, r)) == Prepend(a + b, r)
  {
    if r.Some? {
      assert a + (b + r.value) == (a + b) + r.value;
    }
  }

  lemma PrependNothing(r: Option<seq<Piece>>)
    ensures Prepend([], r) == r
  {
    if r.Some? {
      assert [] + r.value == r.value;
    }
  }

  lemma DecodeEscapedChar(c: char, rest: string)
    ensures Decode(Finished, EscapeChar(c) + rest) == Prepend([Chr(c)], Decode(Finished, rest))
  {
    var e := EscapeChar(c) + rest;
    if c == '\\' || c == '*' || c == '(' || c == ')' || c == '\0' {
      assert e[3..] == rest;
    } else {
      assert e[1..] == rest;
    }
  }

  lemma {:induction false} DecodeEscaped(value: string, rest: string)
    ensures Decode(Finished, Escape(value) + rest) == Prepend(Literal(value), Decode(Finished, rest))
  {
    if value == "" {
      assert Escape(value) + rest == rest;
      PrependNothing(Decode(Finished, rest));
    } else {
      assert Escape(value) + rest == EscapeChar(value[0]) + (Escape(value[1..]) + rest);
      DecodeEscapedChar(value[0], Escape(value[1..]) + rest);
      DecodeEscaped(value[1..], rest);
      PrependTwice([Chr(value[0])], Literal(value[1..]), Decode(Finished, rest));
    }
  }

  /** Reading an escaped value gives the value back, with no character turned into a wildcard. */
  lemma EscapeRoundTrip(value: string)
    ensures Decode(Finished, Escape(value)) == Some(Literal(value))
  {
    DecodeEscaped(value, "");
    assert Escape(value) + "" == Escape(value);
  }

  // ---------------------------------------------------------------- building and reading commute

  predicate Plain(c: char) {
    IsWord(c) || c == '{' || c == '}'
  }

  lemma {:induction false} DecodePlain(text: string, rest: string)
    requires forall i :: 0 <= i < |text| ==> Plain(text[i])
    ensures Decode(Finished, text + rest) == Prepend(Literal(text), Decode(Finished, rest))
  {
    if text == "" {
      assert text + rest == rest;
      PrependNothing(Decode(Finished, rest));
    } else {
      assert (text + rest)[1..] == text[1..] + rest;
      DecodePlain(text[1..], rest);
      PrependTwice([Chr(text[0])], Literal(text[1..]), Decode(Finished, rest));
    }
  }

  lemma PlaceholderIsPlain(t: string)
    requires PlaceholderLength(t) > 0
    ensures forall i :: 0 <= i < PlaceholderLength(t) ==> Plain(t[i])
  {
    var w := WordRun(t[2..]);
    forall i | 0 <= i < w + 4
      ensures Plain(t[i])
    {
      if 2 <= i < w + 2 {
        assert t[i] == t[2..][i - 2];
      }
    }
  }

  /** An escape sequence of the template is copied. */
  lemma BuildEscape(o: Options, e: string)
    requires |e| >= 3 && e[0] == '\\' && e[1] != '{' && e[2] != '{'
    ensures var b := Build(o, e);
            |b| >= 3 && b[0] == e[0] && b[1] == e[1] && b[2] == e[2] && b[3..] == Build(o, e[3..])
  {
    assert Build(o, e[1..]) == [e[1]] + Build(o, e[2..]) by { assert e[1..][1..] == e[2..]; }
    assert Build(o, e[2..]) == [e[2]] + Build(o, e[3..]) by { assert e[2..][1..] == e[3..]; }
  }

  lemma {:induction false} DecodeBuilt(o: Options, e: string)
    requires Decode(Template(o), e).Some?
    ensures Decode(Finished, Build(o, e)) == Decode(Template(o), e)
  {
    if e != "" {
      var n := PlaceholderLength(e);
      if n > 0 {
        DecodeBuilt(o, e[n..]);
        PlaceholderIsPlain(e);
        DecodeReplacement(o, e[..n], Build(o, e[n..]));
      } else if e[0] == '\\' {
        DecodeBuilt(o, e[3..]);
        BuildEscape(o, e);
      } else {
        DecodeBuilt(o, e[1..]);
        assert Build(o, e)[1..] == Build(o, e[1..]);
      }
    }
  }

  /** The text that replaces a placeholder reads as the placeholder's meaning. */
  lemma DecodeReplacement(o: Options, p: string, rest: string)
    requires |p| >= 5 && forall i :: 0 <= i < |p| ==> Plain(p[i])
    ensures Decode(Finished, Replacement(o, p) + rest) == Prepend(Meaning(o, p), Decode(Finished, rest))
  {
    var key := p[2..|p| - 2];
    if key !in o.replacements {
      DecodePlain(p, rest);
    } else if o.wildcardUsername && key == "username" && o.replacements[key] == "*" {
      DecodeStar(rest);
    } else {
      DecodeEscaped(o.replacements[key], rest);
    }
  }

  lemma DecodeStar(rest: string)
    ensures Decode(Finished, "*" + rest) == Prepend([Star], Decode(Finished, rest))
  {
    assert ("*" + rest)[1..] == rest;
  }

  lemma {:induction false} WordRunAppend(a: string, b: string)
    requires b != "" && !IsWord(b[0])
    ensures WordRun(a + b) == WordRun(a)
  {
    if a == "" {
      assert a + b == b;
    } else if IsWord(a[0]) {
      assert (a + b)[1..] == a[1..] + b;
      WordRunAppend(a[1..], b);
    }
  }

  /** A placeholder does not reach over a parenthesis. */
  lemma PlaceholderAppend(a: string, b: string)
    requires a != "" && b != "" && (b[0] == '(' || b[0] == ')')
    ensures PlaceholderLength(a + b) == PlaceholderLength(a)
  {
    if |a| >= 2 {
      assert (a + b)[2..] == a[2..] + b;
      WordRunAppend(a[2..], b);
    }
  }

  /** One turn of the replacement loop: what it writes for the head of `a` does not depend on `b`. */
  lemma BuildHead(o: Options, a: string, b: string) returns (text: string, n: nat)
    requires a != "" && b != "" && (b[0] == '(' || b[0] == ')')
    ensures 0 < n <= |a|
    ensures Build(o, a + b) == text + Build(o, a[n..] + b)
    ensures Build(o, a) == text + Build(o, a[n..])
  {
    PlaceholderAppend(a, b);
    if PlaceholderLength(a) > 0 {
      n := PlaceholderLength(a);
      text := Replacement(o, a[..n]);
      assert (a + b)[..n] == a[..n];
    } else {
      n, text := 1, [a[0]];
    }
    assert (a + b)[n..] == a[n..] + b;
  }

  lemma ConcatAssoc(x: string, y: string, z: string)
    ensures x + (y + z) == (x + y) + z
  {
  }

  lemma {:induction false} BuildAppend(o: Options, a: string, b: string)
    requires b != "" && (b[0] == '(' || b[0] == ')')
    ensures Build(o, a + b) == Build(o, a) + Build(o, b)
    decreases |a|
  {
    if a == "" {
      assert a + b == b;
      assert Build(o, a) + Build(o, b) == Build(o, b);
    } else {
      var text, n := BuildHead(o, a, b);
      BuildAppend(o, a[n..], b);
      ConcatAssoc(text, Build(o, a[n..]), Build(o, b));
    }
  }

  predicate NoParens(s: string) {
    forall i :: 0 <= i < |s| ==> s[i] != '(' && s[i] != ')'
  }

  lemma {:induction false} EscapeNoParens(value: string)
    ensures NoParens(Escape(value))
  {
    if value != "" {
      EscapeNoParens(value[1..]);
    }
  }

  lemma ReplacementNoParens(o: Options, placeholder: string)
    requires |placeholder| >= 5 && NoParens(placeholder)
    ensures NoParens(Replacement(o, placeholder))
  {
    var key := placeholder[2..|placeholder| - 2];
    if key in o.replacements {
      EscapeNoParens(o.replacements[key]);
    }
  }

  /** Replaced text never closes or opens a filter. */
  lemma {:induction false} BuildNoParens(o: Options, e: string)
    requires NoParens(e)
    ensures NoParens(Build(o, e))
  {
    if e != "" {
      var n := PlaceholderLength(e);
      if n > 0 {
        ReplacementNoParens(o, e[..n]);
        BuildNoParens(o, e[n..]);
      } else {
        BuildNoParens(o, e[1..]);
      }
    }
  }

  lemma {:induction false} ValueRunOf(a: string, b: string)
    requires NoParens(a) && b != "" && (b[0] == '(' || b[0] == ')')
    ensures ValueRun(a + b) == |a|
  {
    if a == "" {
      assert a + b == b;
    } else {
      assert (a + b)[1..] == a[1..] + b;
      ValueRunOf(a[1..], b);
    }
  }

  lemma BuildStep(o: Options, s: string)
    requires s != "" && s[0] != '{'
    ensures Build(o, s) == [s[0]] + Build(o, s[1..])
    ensures Build(o, s)[0] == s[0] && Build(o, s)[1..] == Build(o, s[1..])
  {
  }

  lemma {:induction false} AttributeBuilt(o: Options, s: string, n: nat)
    requires n < |s| && s[n] != '{' && forall i :: 0 <= i < n ==> s[i] != '{'
    ensures n <= |Build(o, s)| && Build(o, s)[..n] == s[..n] && Build(o, s)[n..] == Build(o, s[n..])
  {
    if n > 0 {
      BuildStep(o, s);
      AttributeBuilt(o, s[1..], n - 1);
      var b := Build(o, s);
      assert b[n..] == b[1..][n - 1..] && s[1..][n - 1..] == s[n..];
      assert b[..n] == [b[0]] + b[1..][..n - 1] && s[..n] == [s[0]] + s[1..][..n - 1];
    }
  }

  lemma {:induction false} AttributeRunIs(s: string, n: nat)
    requires n < |s| && !IsAttribute(s[n]) && forall i :: 0 <= i < n ==> IsAttribute(s[i])
    ensures AttributeRun(s) == n
  {
    if n > 0 {
      AttributeRunIs(s[1..], n - 1);
    }
  }

  lemma {:induction false} AttributeRunChars(s: string)
    ensures forall i :: 0 <= i < AttributeRun(s) ==> IsAttribute(s[i])
    ensures AttributeRun(s) < |s| ==> !IsAttribute(s[AttributeRun(s)])
  {
    if s != "" && IsAttribute(s[0]) {
      AttributeRunChars(s[1..]);
      forall i | 0 <= i < AttributeRun(s)
        ensures IsAttribute(s[i])
      {
        if i > 0 {
          assert s[i] == s[1..][i - 1];
        }
      }
    }
  }

  /** Attribute and match type pass through the builder unchanged. */
  lemma AttributeKept(o: Options, s: string, n: nat)
    requires n == AttributeRun(s) && MatchTypeOf(s[n..]).Some?
    ensures n <= |Build(o, s)| && Build(o, s)[..n] == s[..n] && Build(o, s)[n..] == Build(o, s[n..])
    ensures AttributeRun(Build(o, s)) == n
  {
    AttributeRunChars(s);
    AttributeBuilt(o, s, n);
    BuildStep(o, s[n..]);
    HeadKept(s, Build(o, s), n);
  }

  lemma MatchTypeKept(o: Options, s: string, n: nat, k: nat)
    requires n == AttributeRun(s) && MatchTypeOf(s[n..]).Some? && k == MatchTypeOf(s[n..]).value.1
    ensures n <= |Build(o, s)| && MatchTypeOf(Build(o, s)[n..]) == MatchTypeOf(s[n..])
    ensures n + k <= |s| && n + k <= |Build(o, s)| && Build(o, s)[n + k..] == Build(o, s[n + k..])
  {
    AttributeKept(o, s, n);
    MatchTypeBuilt(o, s[n..]);
    SliceTwice(Build(o, s), n, k);
    SliceTwice(s, n, k);
  }

  lemma HeadKept(s: string, b: string, n: nat)
    requires n < |s| && n < |b| && b[..n] == s[..n] && b[n..][0] == s[n..][0]
    requires !IsAttribute(s[n]) && forall i :: 0 <= i < n ==> IsAttribute(s[i])
    ensures AttributeRun(b) == n
  {
    forall i | 0 <= i < n
      ensures IsAttribute(b[i])
    {
      assert b[i] == b[..n][i] == s[..n][i] == s[i];
    }
    AttributeRunIs(b, n);
  }

  lemma SliceTwice(x: string, n: nat, k: nat)
    requires n <= |x| && k <= |x[n..]|
    ensures x[n..][k..] == x[n + k..]
  {
  }

  /** The assertion value passes as a whole, up to the closing parenthesis. */
  lemma ValueBuilt(o: Options, v: string)
    requires ValueRun(v) < |v| && Decode(Template(o), v[..ValueRun(v)]).Some?
    ensures var k := ValueRun(v);
            var b := Build(o, v);
            var j := ValueRun(b);
            && b[j..] == Build(o, v[k..])
            && Decode(Finished, b[..j]) == Decode(Template(o), v[..k])
  {
    var k := ValueRun(v);
    assert v == v[..k] + v[k..];
    BuildAppend(o, v[..k], v[k..]);
    BuildNoParens(o, v[..k]);
    BuildStep(o, v[k..]);
    ValueRunOf(Build(o, v[..k]), Build(o, v[k..]));
    DecodeBuilt(o, v[..k]);
  }

  lemma MatchTypeBuilt(o: Options, s: string)
    requires MatchTypeOf(s).Some?
    ensures MatchTypeOf(Build(o, s)) == MatchTypeOf(s)
    ensures var k := MatchTypeOf(s).value.1;
            k <= |s| && k <= |Build(o, s)| && Build(o, s)[k..] == Build(o, s[k..])
  {
    BuildStep(o, s);
    if s[0] != '=' {
      BuildStep(o, s[1..]);
      assert s[1..][1..] == s[2..];
      assert Build(o, s)[2..] == Build(o, s[1..])[1..];
    }
  }

  /** Two texts with the same attribute, match type and decoded value, each followed by its rest. */
  lemma ItemFrom(m: Mode, s: string, b: string, n: nat, k: nat)
    requires n == AttributeRun(s) == AttributeRun(b) && n > 0 && b[..n] == s[..n]
    requires MatchTypeOf(s[n..]).Some? && MatchTypeOf(b[n..]) == MatchTypeOf(s[n..]) && k == MatchTypeOf(s[n..]).value.1
    requires n + k <= |s| && n + k <= |b|
    requires var v, u := s[n + k..], b[n + k..];
             Decode(Finished, u[..ValueRun(u)]) == Decode(m, v[..ValueRun(v)])
    ensures var v, u := s[n + k..], b[n + k..];
            && (ParseItem(m, s).Some? <==> Decode(m, v[..ValueRun(v)]).Some?)
            && (ParseItem(m, s).Some? ==>
                  && ParseItem(m, s).value.1 == v[ValueRun(v)..]
                  && ParseItem(Finished, b) == Some((ParseItem(m, s).value.0, u[ValueRun(u)..])))
  {
  }

  /** The parts of an item, before and after building. */
  lemma PartsBuilt(o: Options, s: string, n: nat, k: nat)
    requires n == AttributeRun(s) && MatchTypeOf(s[n..]).Some? && k == MatchTypeOf(s[n..]).value.1 && n + k <= |s|
    requires var v := s[n + k..]; ValueRun(v) < |v| && Decode(Template(o), v[..ValueRun(v)]).Some?
    ensures var b, v := Build(o, s), s[n + k..];
            && AttributeRun(b) == n && b[..n] == s[..n] && MatchTypeOf(b[n..]) == MatchTypeOf(s[n..]) && n + k <= |b|
            && var u := b[n + k..];
               Decode(Finished, u[..ValueRun(u)]) == Decode(Template(o), v[..ValueRun(v)])
               && u[ValueRun(u)..] == Build(o, v[ValueRun(v)..])
  {
    AttributeKept(o, s, n);
    MatchTypeKept(o, s, n, k);
    ValueBuilt(o, s[n + k..]);
  }

  lemma ItemBuilt(o: Options, s: string)
    requires ParseItem(Template(o), s).Some?
    requires ParseItem(Template(o), s).value.1 != ""
    ensures var r := ParseItem(Template(o), s).value;
            ParseItem(Finished, Build(o, s)) == Some((r.0, Build(o, r.1)))
  {
    var n := AttributeRun(s);
    var k := MatchTypeOf(s[n..]).value.1;
    PartsBuilt(o, s, n, k);
    ItemFrom(Template(o), s, Build(o, s), n, k);
  }

  lemma {:induction false} FilterBuilt(o: Options, s: string)
    requires ParseFilter(Template(o), s).Some?
    ensures var r := ParseFilter(Template(o), s).value;
            ParseFilter(Finished, Build(o, s)) == Some((r.0, Build(o, r.1)))
    decreases |s|, 0
  {
    BuildStep(o, s);
    if s[1] == '&' || s[1] == '|' || s[1] == '!' {
      BuildStep(o, s[1..]);
      assert s[1..][1..] == s[2..];
      assert Build(o, s)[2..] == Build(o, s[2..]);
      if s[1] == '!' {
        FilterBuilt(o, s[2..]);
        BuildStep(o, ParseFilter(Template(o), s[2..]).value.1);
      } else {
        ListBuilt(o, s[2..]);
        BuildStep(o, ParseList(Template(o), s[2..]).value.1);
      }
    } else {
      ItemBuilt(o, s[1..]);
      BuildStep(o, ParseItem(Template(o), s[1..]).value.1);
      assert s[1] != '{' by {
        assert AttributeRun(s[1..]) > 0;
      }
      BuildStep(o, s[1..]);
    }
  }

  lemma {:induction false} ListBuilt(o: Options, s: string)
    requires var r := ParseList(Template(o), s); r.Some? && r.value.1 != "" && r.value.1[0] == ')'
    ensures var r := ParseList(Template(o), s).value;
            ParseList(Finished, Build(o, s)) == Some((r.0, Build(o, r.1)))
    decreases |s|, 1
  {
    FilterBuilt(o, s);
    var f := ParseFilter(Template(o), s).value;
    BuildStep(o, f.1);
    if f.1[0] == '(' {
      ListBuilt(o, f.1);
    }
  }

  /**
   For every template that reads as a filter and every set of replacements, the built filter reads as
   the same filter with each placeholder standing for its raw value.
   */
  lemma BuildReadsAsTemplate(o: Options, template: string)
    requires Parse(Template(o), template).Some?
    ensures Parse(Finished, Build(o, template)) == Parse(Template(o), template)
  {
    FilterBuilt(o, template);
  }
}
