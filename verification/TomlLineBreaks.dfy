/** A line read without its line break reads the same with one, and a value never ends in a line break. */
module TomlLineBreaks {
  import opened Wrappers
  import opened TomlLexer
  import opened TomlSyntax
  import opened TomlAgreement
  import opened TomlLocality

  // ---------- how a value ends ----------

  lemma {:induction false} Through(s: string, t: string, r: string)
    requires Tail(s, t) && Tail(t, r)
    ensures Tail(s, r)
  {
    UsedThrough(s, t, r);
  }

  lemma {:induction false} Behind(s: string, n: nat)
    requires n < |s|
    ensures Tail(s, [s[n]] + s[n + 1..])
  {
    assert [s[n]] + s[n + 1..] == s[n..];
  }

  lemma {:induction false} Shorter(s: string, c: char, r: string)
    requires Tail(s, [c] + r)
    ensures Tail(s, r) && |r| < |s| && s[|s| - |r| - 1] == c
  {
    assert ([c] + r)[1..] == r;
    UsedOne([c] + r);
    Through(s, [c] + r, r);
    assert s[|s| - |r| - 1] == s[|s| - |[c] + r|..][0];
  }

  lemma {:induction false} OneLineEnd(s: string, q: Quote)
    requires OneLineString(s, q).Some?
    ensures Tail(s, [Mark(q)] + OneLineString(s, q).value.1)
    decreases |s|
  {
    var r := OneLineString(s, q).value.1;
    if s[0] == Mark(q) {
      Behind(s, 0);
    } else if q.Basic? && s[0] == '\\' {
      var t := Escape(s[1..]).value.1;
      EscapeLocal(s[1..], "");
      OneLineEnd(t, q);
      UsedOne(s);
      Through(s, s[1..], t);
      Through(s, t, [Mark(q)] + r);
    } else {
      OneLineEnd(s[1..], q);
      UsedOne(s);
      Through(s, s[1..], [Mark(q)] + r);
    }
  }

  lemma {:induction false} RunEnds(s: string, c: char)
    requires Run(s, c) > 0
    ensures Run(s, c) <= |s| && s[Run(s, c) - 1] == c
  {
    if Run(s[1..], c) > 0 {
      RunEnds(s[1..], c);
    }
  }

  lemma {:induction false} MultiEnd(s: string, q: Quote)
    requires MultiString(s, q).Some?
    ensures Tail(s, [Mark(q)] + MultiString(s, q).value.1)
    decreases |s|
  {
    var r := MultiString(s, q).value.1;
    if Run(s, Mark(q)) >= 3 {
      RunEnds(s, Mark(q));
      Behind(s, Run(s, Mark(q)) - 1);
    } else if q.Basic? && s[0] == '\\' {
      MultiEscapeEnd(s);
    } else {
      MultiEnd(s[1..], q);
      UsedOne(s);
      Through(s, s[1..], [Mark(q)] + r);
    }
  }

  lemma {:induction false} MultiEscapeEnd(s: string)
    requires MultiString(s, Basic).Some? && s[0] == '\\'
    ensures Tail(s, ['"'] + MultiString(s, Basic).value.1)
    decreases |s|, 0
  {
    var r := MultiString(s, Basic).value.1;
    var t := SkipWs(s[1..]);
    UsedOne(s);
    if t != "" && t[0] == '\n' {
      var u := SkipBlankLines(t[1..]);
      WsTail(s[1..]);
      BlankLinesLocal(t[1..], "");
      MultiEnd(u, Basic);
      UsedOne(t);
      Through(s, s[1..], t);
      Through(s, t, t[1..]);
      Through(s, t[1..], u);
      Through(s, u, ['"'] + r);
    } else {
      var u := Escape(s[1..]).value.1;
      EscapeLocal(s[1..], "");
      MultiEnd(u, Basic);
      Through(s, s[1..], u);
      Through(s, u, ['"'] + r);
    }
  }

  lemma {:induction false} WsTail(s: string)
    ensures Tail(s, SkipWs(s))
  {
    WsLocal(s, "");
  }

  lemma {:induction false} ItemsEnd(s: string)
    requires ParseItems(s).Some?
    ensures Tail(s, [']'] + ParseItems(s).value.1)
    decreases |s|
  {
    var r := ParseItems(s).value.1;
    var t := SkipTrivia(s).value;
    TriviaLocal(s, t);
    if t[0] == ']' {
      Behind(t, 0);
    } else {
      var w := ParseValue(t).value.1;
      var u := SkipTrivia(w).value;
      ItemsStep(s, t, w, u);
      if u[0] == ']' {
        Behind(u, 0);
        Through(s, u, [']'] + r);
      } else {
        ItemsEnd(u[1..]);
        ThroughOne(s, u, [']'] + r);
      }
    }
  }

  lemma {:induction false} ItemsStep(s: string, t: string, w: string, u: string)
    requires Tail(s, t) && ParseValue(t).Some? && ParseValue(t).value.1 == w && SkipTrivia(w) == Some(u) && u != ""
    ensures Tail(s, u)
  {
    ValueLocal(t, "");
    TriviaLocal(w, u);
    Through(s, t, w);
    Through(s, w, u);
  }

  lemma {:induction false} ThroughOne(s: string, u: string, r: string)
    requires Tail(s, u) && u != "" && Tail(u[1..], r)
    ensures Tail(s, r)
  {
    UsedOne(u);
    Through(s, u, u[1..]);
    Through(s, u[1..], r);
  }

  predicate Closes(c: char) {
    IsQuote(c) || c == ']' || IsTokenChar(c)
  }

  /** The last character of a value is a quote, a bracket or a character of a bare token. */
  lemma {:induction false} ValueEnd(s: string)
    requires ParseValue(s).Some?
    ensures EndsWell(s, ParseValue(s).value.1)
  {
    if OpensMulti(s, Basic) {
      MultiValueEnd(s, Basic);
    } else if OpensMulti(s, Literal) {
      MultiValueEnd(s, Literal);
    } else if s[0] == '"' {
      OneLineValueEnd(s, Basic);
    } else if s[0] == '\'' {
      OneLineValueEnd(s, Literal);
    } else if s[0] == '[' {
      ArrayEnd(s);
    } else {
      BareValue(s);
      TokenEnd(s, TokenLength(s));
    }
  }

  predicate EndsWell(s: string, r: string) {
    Tail(s, r) && |r| < |s| && Closes(s[|s| - |r| - 1])
  }

  lemma {:induction false} TokenEnd(s: string, n: nat)
    requires n == TokenLength(s) && Token(s[..n]).Some?
    ensures EndsWell(s, s[n..])
  {
    TokenNonEmpty(s[..n]);
    Behind(s, n - 1);
    Shorter(s, s[n - 1], s[n..]);
  }

  lemma {:induction false} ArrayEnd(s: string)
    requires s != "" && s[0] == '[' && ParseValue(s).Some?
    ensures EndsWell(s, ParseValue(s).value.1)
  {
    BracketValue(s);
    ItemsEnd(s[1..]);
    EndFrom(s, 1, ']', ParseItems(s[1..]).value.1);
  }

  lemma {:induction false} BracketValue(s: string)
    requires s != "" && s[0] == '['
    ensures ParseValue(s) == (var r := ParseItems(s[1..]); if r.None? then None else Some((List(r.value.0), r.value.1)))
  {
    assert !OpensMulti(s, Basic) && !OpensMulti(s, Literal);
  }

  lemma {:induction false} OneLineValueEnd(s: string, q: Quote)
    requires s != "" && s[0] == Mark(q) && !OpensMulti(s, q) && ParseValue(s).Some?
    ensures EndsWell(s, ParseValue(s).value.1)
  {
    var r := OneLineString(s[1..], q);
    assert r.Some?;
    OneLineValue(s, q, r.value.0, r.value.1);
    OneLineEnd(s[1..], q);
    EndFrom(s, 1, Mark(q), r.value.1);
  }

  lemma {:induction false} MultiValueEnd(s: string, q: Quote)
    requires OpensMulti(s, q) && ParseValue(s).Some?
    ensures EndsWell(s, ParseValue(s).value.1)
  {
    var r := MultiString(s[BodyAt(s)..], q);
    assert r.Some?;
    MultiAgain(s, q, BodyAt(s), r.value.0, r.value.1);
    MultiEnd(s[BodyAt(s)..], q);
    EndFrom(s, BodyAt(s), Mark(q), r.value.1);
  }

  lemma {:induction false} EndFrom(s: string, k: nat, c: char, r: string)
    requires k <= |s| && Tail(s[k..], [c] + r)
    ensures Tail(s, r) && |r| < |s| && s[|s| - |r| - 1] == c
  {
    Through(s, s[k..], [c] + r);
    Shorter(s, c, r);
  }

  // ---------- one more line break ----------

  predicate Unbroken(s: string) {
    s == "" || s[|s| - 1] != '\n'
  }

  lemma {:induction false} TailUnbroken(s: string, t: string)
    requires Tail(s, t) && Unbroken(s)
    ensures Unbroken(t)
    ensures t != "" ==> t[|t| - 1] == s[|s| - 1]
  {
  }

  /** `s` with a line break behind it. */
  function Broken(s: string): string {
    s + "\n"
  }

  lemma {:induction false} BrokenStep(s: string)
    requires s != ""
    ensures Broken(s)[0] == s[0] && Broken(s)[1..] == Broken(s[1..])
  {
  }

  lemma {:induction false} WsBroken(s: string)
    ensures SkipWs(Broken(s)) == Broken(SkipWs(s))
  {
    if s != "" && IsWs(s[0]) {
      BrokenStep(s);
      WsBroken(s[1..]);
    }
  }

  lemma {:induction false} CommentBroken(s: string)
    requires SkipComment(s) == Some("")
    ensures SkipComment(Broken(s)) == Some("\n")
    ensures s != "" ==> s[|s| - 1] != '\r'
  {
    if s != "" {
      BrokenStep(s);
      CommentBroken(s[1..]);
    } else {
      assert Broken(s) == "\n";
    }
  }

  lemma {:induction false} CommentUnbroken(s: string)
    requires SkipComment(s).Some? && Unbroken(s)
    ensures SkipComment(s).value != "\n"
  {
    CommentTail(s);
  }

  lemma {:induction false} CommentTail(s: string)
    requires SkipComment(s).Some?
    ensures Tail(s, SkipComment(s).value)
  {
    if s != "" && s[0] != '\n' {
      CommentTail(s[1..]);
      UsedOne(s);
      Through(s, s[1..], SkipComment(s).value);
    }
  }

  lemma {:induction false} EndBroken(s: string)
    requires LineEnds(s) && Unbroken(s)
    ensures LineEnds(Broken(s))
    ensures s != "" ==> s[|s| - 1] != '\r'
  {
    var t := SkipWs(s);
    WsBroken(s);
    WsTail(s);
    if t == "" {
      assert Broken(t) == "\n";
      AllSkipped(s);
    } else {
      TailUnbroken(s, t);
      UsedOne(t);
      BrokenStep(t);
      TailUnbroken(t, t[1..]);
      CommentUnbroken(t[1..]);
      CommentBroken(t[1..]);
    }
  }

  lemma {:induction false} AllSkipped(s: string)
    requires SkipWs(s) == ""
    ensures s != "" ==> IsWs(s[|s| - 1])
  {
    if s != "" {
      AllSkipped(s[1..]);
    }
  }

  lemma {:induction false} BareBroken(s: string)
    ensures BareLength(Broken(s)) == BareLength(s)
  {
    if s != "" && IsBareKey(s[0]) {
      BrokenStep(s);
      BareBroken(s[1..]);
    }
  }

  lemma {:induction false} BareKey(s: string, n: nat)
    requires n == BareLength(s) && n > 0
    ensures ParseKey(s) == Some((s[..n], s[n..]))
  {
    assert IsBareKey(s[0]);
  }

  lemma {:induction false} QuotedKey(s: string, q: Quote)
    requires s != "" && s[0] == Mark(q)
    ensures ParseKey(s) == OneLineString(s[1..], q)
  {
  }

  lemma {:induction false} KeyBroken(s: string)
    requires ParseKey(s).Some?
    ensures var k := ParseKey(s).value; Tail(s, k.1) && ParseKey(Broken(s)) == Some((k.0, Broken(k.1)))
  {
    if s[0] == '"' {
      QuotedBroken(s, Basic);
    } else if s[0] == '\'' {
      QuotedBroken(s, Literal);
    } else {
      BareKeyBroken(s, BareLength(s));
    }
  }

  lemma {:induction false} BareKeyBroken(s: string, n: nat)
    requires n == BareLength(s) && n > 0
    ensures ParseKey(s) == Some((s[..n], s[n..])) && Tail(s, s[n..]) && ParseKey(Broken(s)) == Some((s[..n], Broken(s[n..])))
  {
    BareKey(s, n);
    BareBroken(s);
    BareKey(Broken(s), n);
    assert Broken(s)[..n] == s[..n] && Broken(s)[n..] == Broken(s[n..]);
  }

  lemma {:induction false} QuotedBroken(s: string, q: Quote)
    requires s != "" && s[0] == Mark(q) && OneLineString(s[1..], q).Some?
    ensures var k := OneLineString(s[1..], q).value;
      ParseKey(s) == Some(k) && Tail(s, k.1) && ParseKey(Broken(s)) == Some((k.0, Broken(k.1)))
  {
    var k := OneLineString(s[1..], q).value;
    QuotedKey(s, q);
    QuotedKey(Broken(s), q);
    BrokenStep(s);
    OneLineLocal(s[1..], q, Broken(k.1));
    UsedOne(s);
    Through(s, s[1..], k.1);
    assert Used(s[1..], k.1) + Broken(k.1) == Broken(s[1..]);
  }

  lemma {:induction false} PathLast(s: string, k: string, r: string, t: string)
    requires ParseKey(s) == Some((k, r)) && SkipWs(r) == t && (t == "" || t[0] != '.')
    ensures ParsePath(s) == Some(([k], t))
  {
  }

  lemma {:induction false} PathNext(s: string, k: string, r: string, t: string, u: string, p: seq<string>, rest: string)
    requires ParseKey(s) == Some((k, r)) && SkipWs(r) == t && t != "" && t[0] == '.' && SkipWs(t[1..]) == u
    requires ParsePath(u) == Some((p, rest))
    ensures ParsePath(s) == Some(([k] + p, rest))
  {
  }

  lemma {:induction false} PathBroken(s: string)
    requires ParsePath(s).Some?
    ensures var p := ParsePath(s).value; Tail(s, p.1) && ParsePath(Broken(s)) == Some((p.0, Broken(p.1)))
    decreases |s|
  {
    var k := ParseKey(s).value;
    var t := SkipWs(k.1);
    if t != "" && t[0] == '.' {
      var u := SkipWs(t[1..]);
      PathBroken(u);
      var p := ParsePath(u).value;
      PathNext(s, k.0, k.1, t, u, p.0, p.1);
      NextBroken(s, k.0, k.1, t, u, p.0, p.1);
    } else {
      PathLast(s, k.0, k.1, t);
      LastBroken(s, k.0, k.1, t);
    }
  }

  lemma {:induction false} LastBroken(s: string, k: string, r: string, t: string)
    requires ParseKey(s) == Some((k, r)) && SkipWs(r) == t && (t == "" || t[0] != '.')
    ensures Tail(s, t) && ParsePath(Broken(s)) == Some(([k], Broken(t)))
  {
    KeyBroken(s);
    WsBroken(r);
    WsTail(r);
    Through(s, r, t);
    PathLast(Broken(s), k, Broken(r), Broken(t));
  }

  lemma {:induction false} NextBroken(s: string, k: string, r: string, t: string, u: string, p: seq<string>, rest: string)
    requires ParseKey(s) == Some((k, r)) && SkipWs(r) == t && t != "" && t[0] == '.' && SkipWs(t[1..]) == u
    requires Tail(u, rest) && ParsePath(Broken(u)) == Some((p, Broken(rest)))
    ensures Tail(s, rest) && ParsePath(Broken(s)) == Some(([k] + p, Broken(rest)))
  {
    KeyBroken(s);
    WsBroken(r);
    WsBroken(t[1..]);
    BrokenStep(t);
    TailThrough(s, r, t, u);
    Through(s, u, rest);
    PathNext(Broken(s), k, Broken(r), Broken(t), Broken(u), p, Broken(rest));
  }

  lemma {:induction false} TailThrough(s: string, r: string, t: string, u: string)
    requires Tail(s, r) && SkipWs(r) == t && t != "" && SkipWs(t[1..]) == u
    ensures Tail(s, t) && Tail(s, t[1..]) && Tail(s, u)
  {
    WsTail(r);
    WsTail(t[1..]);
    UsedOne(t);
    Through(s, r, t);
    Through(s, t, t[1..]);
    Through(s, t[1..], u);
  }

  lemma {:induction false} ValueBroken(s: string)
    requires ParseValue(s).Some? && LineEnds(ParseValue(s).value.1)
    ensures var v := ParseValue(s).value; Tail(s, v.1) && ParseValue(Broken(s)) == Some((v.0, Broken(v.1)))
  {
    var v := ParseValue(s).value;
    EndStops(v.1);
    ValueLocal(s, Broken(v.1));
    assert Used(s, v.1) + Broken(v.1) == Broken(s);
  }

  /** Nothing that may stand behind a value on its line can go on with it. */
  lemma {:induction false} EndStops(s: string)
    requires LineEnds(s)
    ensures Stops(s) && Stops(Broken(s))
  {
    if s != "" {
      BrokenStep(s);
      TriviaChar(s[0]);
    }
  }

  lemma {:induction false} HeaderIs(s: string, n: nat, p: seq<string>, t: string)
    requires s != "" && s[0] == '[' && n == (if |s| > 1 && s[1] == '[' then 2 else 1)
    requires ParsePath(SkipWs(s[n..])) == Some((p, t)) && |t| >= n && t[0] == ']' && t[n - 1] == ']' && LineEnds(t[n..])
    ensures ParseHeader(s) == Some(Header(p, n == 2))
  {
  }

  lemma {:induction false} HeaderParts(s: string, n: nat) returns (p: seq<string>, t: string)
    requires s != "" && s[0] == '[' && n == (if |s| > 1 && s[1] == '[' then 2 else 1) && ParseHeader(s).Some?
    ensures |s| >= n && ParsePath(SkipWs(s[n..])) == Some((p, t))
    ensures |t| >= n && t[0] == ']' && t[n - 1] == ']' && LineEnds(t[n..])
  {
    var r := ParsePath(SkipWs(s[n..])).value;
    p, t := r.0, r.1;
  }

  lemma {:induction false} HeaderBroken(s: string)
    requires s != "" && s[0] == '[' && ParseHeader(s).Some? && Unbroken(s)
    ensures ParseHeader(Broken(s)) == ParseHeader(s) && s[|s| - 1] != '\r'
  {
    var n := if |s| > 1 && s[1] == '[' then 2 else 1;
    var p, t := HeaderParts(s, n);
    HeaderIs(s, n, p, t);
    HeaderPartsBroken(s, n, p, t);
  }

  lemma {:induction false} HeaderPartsBroken(s: string, n: nat, p: seq<string>, t: string)
    requires s != "" && s[0] == '[' && n == (if |s| > 1 && s[1] == '[' then 2 else 1) && Unbroken(s)
    requires ParsePath(SkipWs(s[n..])) == Some((p, t)) && |t| >= n && t[0] == ']' && t[n - 1] == ']' && LineEnds(t[n..])
    ensures ParseHeader(Broken(s)) == Some(Header(p, n == 2)) && s[|s| - 1] != '\r'
  {
    var u := SkipWs(s[n..]);
    DropBroken(s, n);
    WsBroken(s[n..]);
    WsTail(s[n..]);
    PathBroken(u);
    Through(s, s[n..], u);
    Through(s, u, t);
    BracketEnd(s, n, t);
    SameBrackets(s, n, t);
    HeaderIs(Broken(s), n, p, Broken(t));
  }

  lemma {:induction false} SameBrackets(s: string, n: nat, t: string)
    requires s != "" && s[0] == '[' && n == (if |s| > 1 && s[1] == '[' then 2 else 1)
    requires |t| >= n && t[0] == ']' && t[n - 1] == ']'
    ensures var b := Broken(s); b != "" && b[0] == '[' && n == (if |b| > 1 && b[1] == '[' then 2 else 1)
    ensures var b := Broken(t); |b| >= n && b[0] == ']' && b[n - 1] == ']' && b[n..] == Broken(t[n..])
  {
    DropBroken(t, n);
  }

  lemma {:induction false} DropBroken(s: string, n: nat)
    requires n <= |s|
    ensures Broken(s)[n..] == Broken(s[n..]) && Tail(s, s[n..])
  {
  }

  lemma {:induction false} BracketEnd(s: string, n: nat, t: string)
    requires Tail(s, t) && Unbroken(s) && 1 <= n <= |t| && t[n - 1] == ']' && LineEnds(t[n..])
    ensures LineEnds(Broken(t[n..])) && s[|s| - 1] != '\r'
  {
    DropBroken(t, n);
    TailUnbroken(s, t);
    TailUnbroken(t, t[n..]);
    EndBroken(t[n..]);
  }

  lemma {:induction false} AssignIs(s: string, k: string, r: string, t: string, u: string, v: Value, e: string)
    requires ParseKey(s) == Some((k, r)) && SkipWs(r) == t && t != "" && t[0] == '=' && SkipWs(t[1..]) == u
    requires ParseValue(u) == Some((v, e)) && LineEnds(e)
    ensures ParseAssign(s) == Some(Assign(k, v))
  {
  }

  lemma {:induction false} AssignParts(s: string) returns (k: string, r: string, t: string, u: string, v: Value, e: string)
    requires ParseAssign(s).Some?
    ensures ParseKey(s) == Some((k, r)) && SkipWs(r) == t && t != "" && t[0] == '=' && SkipWs(t[1..]) == u
    ensures ParseValue(u) == Some((v, e)) && LineEnds(e)
  {
    var key := ParseKey(s).value;
    k, r := key.0, key.1;
    t := SkipWs(r);
    u := SkipWs(t[1..]);
    var value := ParseValue(u).value;
    v, e := value.0, value.1;
  }

  lemma {:induction false} AssignBroken(s: string)
    requires ParseAssign(s).Some? && Unbroken(s)
    ensures ParseAssign(Broken(s)) == ParseAssign(s) && s != "" && s[|s| - 1] != '\r'
  {
    var k, r, t, u, v, e := AssignParts(s);
    AssignIs(s, k, r, t, u, v, e);
    AssignPartsBroken(s, k, r, t, u, v, e);
  }

  lemma {:induction false} AssignPartsBroken(s: string, k: string, r: string, t: string, u: string, v: Value, e: string)
    requires ParseKey(s) == Some((k, r)) && SkipWs(r) == t && t != "" && t[0] == '=' && SkipWs(t[1..]) == u
    requires ParseValue(u) == Some((v, e)) && LineEnds(e) && Unbroken(s)
    ensures ParseAssign(Broken(s)) == Some(Assign(k, v)) && s != "" && s[|s| - 1] != '\r'
  {
    KeyBroken(s);
    WsBroken(r);
    WsBroken(t[1..]);
    BrokenStep(t);
    TailThrough(s, r, t, u);
    ValueBroken(u);
    Through(s, u, e);
    AssignIs(Broken(s), k, Broken(r), Broken(t), Broken(u), v, Broken(e)) by {
      TailUnbroken(s, e);
      EndBroken(e);
    }
    NoReturn(s, u, e);
  }

  lemma {:induction false} NoReturn(s: string, u: string, e: string)
    requires ParseValue(u).Some? && ParseValue(u).value.1 == e && LineEnds(e) && Tail(s, u) && Tail(s, e) && Unbroken(s)
    ensures s != "" && s[|s| - 1] != '\r'
  {
    ValueEnd(u);
    TailUnbroken(s, u);
    TailUnbroken(s, e);
    EndBroken(e);
  }

  lemma {:induction false} UnixIs(s: string, t: string)
    requires SkipWs(s) == t && !LineEnds(t)
    ensures t != "" && SkipWs(t) == t && ParseUnix(s) == ParseText(t)
  {
    WsStop(s);
  }

  lemma {:induction false} WsStop(s: string)
    ensures SkipWs(SkipWs(s)) == SkipWs(s)
  {
    if s != "" && IsWs(s[0]) {
      WsStop(s[1..]);
    }
  }

  lemma {:induction false} UnixBroken(s: string)
    requires ParseUnix(s).Some? && Unbroken(s)
    ensures ParseUnix(Broken(s)) == ParseUnix(s)
    ensures s != "" ==> s[|s| - 1] != '\r'
  {
    var t := SkipWs(s);
    WsTail(s);
    TailUnbroken(s, t);
    WsBroken(s);
    if LineEnds(t) {
      BlankBroken(s, t);
    } else {
      UnixIs(s, t);
      TextBroken(t, SkipWs(t));
      UnixIs(Broken(s), Broken(t));
    }
  }

  function ParseText(t: string): Option<Stmt>
    requires t != ""
  {
    if t[0] == '[' then ParseHeader(t) else ParseAssign(t)
  }

  lemma {:induction false} TextBroken(t: string, u: string)
    requires t != "" && !LineEnds(t) && t == u == SkipWs(t) && Unbroken(t) && ParseText(t).Some?
    ensures !LineEnds(Broken(t)) && ParseText(Broken(t)) == ParseText(t) && t[|t| - 1] != '\r'
  {
    StillText(t);
    if t[0] == '[' {
      HeaderBroken(t);
    } else {
      AssignBroken(t);
    }
  }

  lemma {:induction false} BlankBroken(s: string, t: string)
    requires SkipWs(s) == t && LineEnds(t) && Unbroken(t) && Tail(s, t) && SkipWs(Broken(s)) == Broken(t)
    ensures ParseUnix(Broken(s)) == ParseUnix(s) == Some(Blank)
    ensures s != "" ==> s[|s| - 1] != '\r'
  {
    EndBroken(t);
    if t == "" {
      AllSkipped(s);
    }
  }

  /** A line break does not turn text into a blank line. */
  lemma {:induction false} StillText(t: string)
    requires !LineEnds(t) && t == SkipWs(t) && (t[0] == '[' || ParseAssign(t).Some?)
    ensures !LineEnds(Broken(t))
  {
    assert t[0] != '#' by {
      assert t[0] != '[' ==> ParseKey(t).Some?;
    }
    BrokenStep(t);
    WsBroken(t);
  }

  /** A value that is alone on its line is read from the same text in front of anything that cannot go on with it. */
  lemma {:induction false} ReadsOn(v: string, t: string)
    requires ParseValue(Broken(v)).Some? && LineEnds(ParseValue(Broken(v)).value.1) && Stops(t)
    ensures ParseValue(v + t).Some? && ParseValue(v + t).value.0 == ParseValue(Broken(v)).value.0
  {
    var r := ParseValue(Broken(v)).value.1;
    ValueEnd(Broken(v));
    EndStops(r);
    assert r != "";
    var rest := r[..|r| - 1];
    RestStops(r, t);
    ValueLocal(Broken(v), rest + t);
    LeftOver(v, r, t);
  }

  lemma {:induction false} LeftOver(v: string, r: string, t: string)
    requires Tail(Broken(v), r) && r != ""
    ensures Used(Broken(v), r) + (r[..|r| - 1] + t) == v + t
  {
    var p := Used(Broken(v), r);
    assert Broken(v)[..|v|] == v && (p + r)[..|v|] == p + r[..|r| - 1];
  }

  lemma {:induction false} RestStops(r: string, t: string)
    requires r != "" && Stops(r) && Stops(t)
    ensures Stops(r[..|r| - 1] + t)
  {
    if |r| == 1 {
      assert r[..0] + t == t;
    } else {
      assert (r[..|r| - 1] + t)[0] == r[0];
    }
  }

  // ---------- CRLF ----------

  predicate IsBreak(nl: string) {
    nl == "\n" || nl == "\r\n"
  }

  /** `u` ends like `s`, and `more` is `u` with a line break behind it. */
  ghost predicate EndsLike(s: string, u: string, more: string) {
    s != "" && u != "" && u[|u| - 1] == s[|s| - 1] && (s[|s| - 1] != '\r' ==> more == Broken(u))
  }

  lemma {:induction false} UnixEnd(s: string, nl: string)
    requires s != "" && Unbroken(s) && IsBreak(nl)
    ensures EndsLike(s, Unix(s), Unix(s + nl))
    decreases |s|
  {
    if |s| == 1 {
      UnixOne(s, nl);
    } else if s[0] == '\r' && s[1] == '\n' {
      UnixEnd(s[2..], nl);
      UnixPair(s[2..], nl);
      EndsCons(['\r', '\n'], s[2..], '\n', Unix(s[2..]), Unix(s[2..] + nl));
      assert s == ['\r', '\n'] + s[2..];
    } else {
      UnixEnd(s[1..], nl);
      UnixSingle(s[0], s[1..], nl);
      EndsCons([s[0]], s[1..], s[0], Unix(s[1..]), Unix(s[1..] + nl));
      assert s == [s[0]] + s[1..];
    }
  }

  lemma {:induction false} EndsCons(p: string, s: string, c: char, u: string, more: string)
    requires EndsLike(s, u, more)
    ensures EndsLike(p + s, [c] + u, [c] + more)
  {
    assert Broken([c] + u) == [c] + Broken(u);
  }

  lemma {:induction false} UnixOne(s: string, nl: string)
    requires |s| == 1 && IsBreak(nl)
    ensures EndsLike(s, Unix(s), Unix(s + nl))
  {
    assert s[1..] == "" && Unix(s) == [s[0]] + "";
    assert (s + nl)[1..] == nl;
    UnixBreak(nl);
  }

  lemma {:induction false} UnixPair(s: string, nl: string)
    ensures var l := ['\r', '\n'] + s; Unix(l) == ['\n'] + Unix(s) && Unix(l + nl) == ['\n'] + Unix(s + nl)
  {
    var l := ['\r', '\n'] + s;
    assert l[2..] == s && (l + nl)[2..] == s + nl;
  }

  lemma {:induction false} UnixSingle(c: char, s: string, nl: string)
    requires s != "" && !(c == '\r' && s[0] == '\n')
    ensures var l := [c] + s; Unix(l) == [c] + Unix(s) && Unix(l + nl) == [c] + Unix(s + nl)
  {
    var l := [c] + s;
    assert l[1..] == s && (l + nl)[1..] == s + nl;
  }

  lemma {:induction false} UnixBreak(nl: string)
    requires IsBreak(nl)
    ensures Unix(nl) == "\n"
  {
    assert nl[1..] == "" || nl[2..] == "";
  }

  /** A logical line reads the same with a line break behind it. */
  lemma {:induction false} StmtBroken(chunk: string, nl: string)
    requires chunk != "" && Unbroken(chunk) && IsBreak(nl) && ParseStmt(chunk).Some?
    ensures ParseStmt(chunk + nl) == ParseStmt(chunk)
  {
    UnixEnd(chunk, nl);
    UnixBroken(Unix(chunk));
  }

  // ---------- documents ----------

  lemma {:induction false} BreakScan(nl: string, d: Lex)
    requires IsBreak(nl) && (d.mode.Plain? || d.mode.Comment?)
    ensures Leave(Scan(nl, d)) == Some(Carry(None, d.square, d.curly))
  {
    if nl == "\n" {
      assert nl[1..] == "";
    } else {
      assert nl[1..] == "\n" && nl[1..][1..] == "";
      ScanStep(nl, d, Step(nl, d));
      ScanStep(nl[1..], d, Step(nl[1..], d));
    }
  }

  function ClosedLines(lines: seq<string>, nl: string): seq<string>
    requires lines != []
  {
    lines[..|lines| - 1] + [lines[|lines| - 1] + nl]
  }

  lemma {:induction false} ClosedRest(lines: seq<string>, nl: string)
    requires |lines| > 1
    ensures ClosedLines(lines, nl)[0] == lines[0] && ClosedLines(lines, nl)[1..] == ClosedLines(lines[1..], nl)
  {
  }

  lemma {:induction false} LastLineClosed(lines: seq<string>, nl: string, acc: string, c: Carry)
    requires lines != [] && IsBreak(nl) && IsSplit(lines) && Unbroken(lines[|lines| - 1]) && Statements(lines, acc, c).Some?
    ensures Statements(ClosedLines(lines, nl), acc, c) == Statements(lines, acc, c)
  {
    var m := Advance(lines[0], c).value;
    if |lines| == 1 {
      assert ClosedLines(lines, nl) == [lines[0] + nl] && ClosedLines(lines, nl)[1..] == [] && lines[1..] == [];
      LineClosed(lines[0], nl, acc, c);
    } else {
      ClosedRest(lines, nl);
      LastLineClosed(lines[1..], nl, if m == OUTSIDE then "" else acc + lines[0], m);
    }
  }

  lemma {:induction false} LineClosed(line: string, nl: string, acc: string, c: Carry)
    requires line != "" && Unbroken(line) && IsBreak(nl) && Advance(line, c) == Some(OUTSIDE) && ParseChunk(acc, line).Some?
    ensures Advance(line + nl, c) == Some(OUTSIDE) && ParseChunk(acc, line + nl) == ParseChunk(acc, line)
  {
    AdvanceClosed(line, nl, c);
    ChunkClosed(acc, line, nl);
  }

  lemma {:induction false} AdvanceClosed(line: string, nl: string, c: Carry)
    requires IsBreak(nl) && Advance(line, c) == Some(OUTSIDE)
    ensures Advance(line + nl, c) == Some(OUTSIDE)
  {
    ScanAppend(line, nl, Enter(c));
    BreakScan(nl, Scan(line, Enter(c)).value);
  }

  lemma {:induction false} ChunkClosed(acc: string, line: string, nl: string)
    requires line != "" && Unbroken(line) && IsBreak(nl) && ParseChunk(acc, line).Some?
    ensures ParseChunk(acc, line + nl) == ParseChunk(acc, line)
  {
    UnbrokenTail(acc, line);
    StmtBroken(acc + line, nl);
    Assoc(acc, line, nl);
  }

  lemma {:induction false} UnbrokenTail(acc: string, line: string)
    requires line != "" && Unbroken(line)
    ensures Unbroken(acc + line)
  {
    assert (acc + line)[|acc| + |line| - 1] == line[|line| - 1];
  }

  /** A document whose last line has no line break reads the same with one. */
  lemma {:induction false} ClosedReads(text: string, nl: string)
    requires text != "" && Unbroken(text) && IsBreak(nl) && StatementsOf(SplitLines(text)).Some?
    ensures SplitLines(text + nl) == ClosedLines(SplitLines(text), nl)
    ensures StatementsOf(SplitLines(text + nl)) == StatementsOf(SplitLines(text))
  {
    var lines := SplitLines(text);
    LastOfConcat(lines);
    LastLineClosed(lines, nl, "", OUTSIDE);
    ConcatClosed(lines, nl);
    ClosedSplit(lines, nl);
    SplitUnique(ClosedLines(lines, nl));
  }

  lemma {:induction false} ClosedSplit(lines: seq<string>, nl: string)
    requires lines != [] && IsSplit(lines) && Unbroken(lines[|lines| - 1]) && IsBreak(nl)
    ensures IsSplit(ClosedLines(lines, nl)) && Ended(ClosedLines(lines, nl)[|lines| - 1])
  {
    var closed, last := ClosedLines(lines, nl), lines[|lines| - 1];
    assert forall i :: 0 <= i < |last| ==> (last + nl)[i] == last[i];
    assert forall i :: |last| <= i < |last + nl| ==> (last + nl)[i] == nl[i - |last|];
    forall i | 0 <= i < |closed| ensures IsLine(closed[i]) && (i < |closed| - 1 ==> Ended(closed[i])) {
      assert i < |closed| - 1 ==> closed[i] == lines[i];
    }
  }

  lemma {:induction false} LastOfConcat(lines: seq<string>)
    requires IsSplit(lines) && Concat(lines) != "" && Unbroken(Concat(lines))
    ensures lines != [] && Unbroken(lines[|lines| - 1])
  {
    if |lines| == 1 {
      assert Concat(lines) == lines[0];
    } else {
      assert lines[1..] != [] && lines[1..][0] != "";
      LastOfConcat(lines[1..]);
    }
  }

  lemma {:induction false} ConcatClosed(lines: seq<string>, nl: string)
    requires lines != []
    ensures Concat(ClosedLines(lines, nl)) == Concat(lines) + nl
  {
    if |lines| == 1 {
      assert ClosedLines(lines, nl) == [lines[0] + nl];
      assert ClosedLines(lines, nl)[1..] == [] && lines[1..] == [];
      assert lines[0] + "" == lines[0];
    } else {
      ClosedRest(lines, nl);
      ConcatClosed(lines[1..], nl);
      Assoc(lines[0], Concat(lines[1..]), nl);
    }
  }
}
