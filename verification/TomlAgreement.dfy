/**
  The grammar and the lexer agree: whatever a grammar rule reads, the one-pass lexer passes over without an error, and
  it is back outside the construct where the rule stops.  So a table header is one line, and a value that fills the
  rest of its line leaves the lexer neutral.  And behind every line break inside a construct the lexer is still in it:
  no run of physical lines in front of the last one is neutral.
 */
module TomlAgreement {
  import opened Wrappers
  import opened TomlLexer
  import opened TomlSyntax

  lemma {:induction false} One(s: string, d: Lex, e: Lex)
    requires s != "" && Step(s, d) == Some((1, e))
    ensures Scan(s, d) == Scan(s[1..], e)
  {
    ScanStep(s, d, Step(s, d));
  }

  // ---------- the lexer, watched at the line breaks ----------

  /** Inside a multi-line string or an array. */
  predicate Deep(d: Lex) {
    d.mode.Multi? || d.square > 0
  }

  /** The one pass, given up at a line break with `k` characters or more behind it where the lexer is not inside something. */
  function Watch(s: string, d: Lex, k: nat): Option<Lex> {
    if s == "" then Some(d)
    else
      var r := Step(s, d);
      if r.None? then None
      else
        var (n, e) := r.value;
        if s[n - 1] == '\n' && |s| - n >= k && !Deep(e) then None else Watch(s[n..], e, k)
  }

  lemma {:induction false} WatchStep(s: string, d: Lex, n: nat, e: Lex, k: nat)
    requires s != "" && Step(s, d) == Some((n, e)) && (s[n - 1] != '\n' || |s| - n < k || Deep(e))
    ensures Watch(s, d, k) == Watch(s[n..], e, k)
  {
  }

  lemma {:induction false} Unwatched(s: string, d: Lex, k: nat)
    requires k > |s|
    ensures Watch(s, d, k) == Scan(s, d)
  {
    if s != "" && Step(s, d).Some? {
      var (n, e) := Step(s, d).value;
      Unwatched(s[n..], e, k);
    }
  }

  lemma {:induction false} WatchIsScan(s: string, d: Lex, k: nat)
    requires Watch(s, d, k).Some?
    ensures Scan(s, d) == Watch(s, d, k)
  {
    if s != "" {
      var (n, e) := Step(s, d).value;
      WatchIsScan(s[n..], e, k);
    }
  }

  /** A watched lexer is inside something behind every run of lines but the whole text. */
  lemma {:induction false} WatchPrefix(p: string, q: string, d: Lex)
    requires Watch(p + q, d, 1).Some? && Ended(p) && q != ""
    ensures Scan(p, d).Some? && Deep(Scan(p, d).value)
    decreases |p|
  {
    var s := p + q;
    StepAppend(p, q, d);
    var (n, e) := Step(p, d).value;
    assert s[n..] == p[n..] + q && s[n - 1] == p[n - 1];
    if n < |p| {
      assert p[n..][|p| - n - 1] == p[|p| - 1];
      WatchPrefix(p[n..], q, e);
    } else {
      assert p[n..] == "";
    }
  }

  lemma {:induction false} OneWatch(s: string, d: Lex, e: Lex, k: nat)
    requires s != "" && Step(s, d) == Some((1, e)) && (s[0] != '\n' || |s| <= k || Deep(e))
    ensures Watch(s, d, k) == Watch(s[1..], e, k)
  {
    WatchStep(s, d, 1, e, k);
  }

  /** Characters that mean nothing to the lexer outside strings and comments. */
  predicate Inert(c: char) {
    !IsQuote(c) && c != '#' && c != '[' && c != ']' && c != '{' && c != '}'
  }

  lemma {:induction false} InertScan(s: string, n: nat, d: Lex)
    requires n <= |s| && d.mode.Plain? && forall i :: 0 <= i < n ==> Inert(s[i])
    ensures Scan(s, d) == Scan(s[n..], d)
  {
    if n == 0 {
      assert s[0..] == s;
    } else {
      One(s, d, d);
      InertScan(s[1..], n - 1, d);
      assert s[1..][n - 1..] == s[n..];
    }
  }

  lemma {:induction false} InertWatch(s: string, n: nat, d: Lex, k: nat)
    requires n <= |s| && d.mode.Plain? && forall i :: 0 <= i < n ==> Inert(s[i]) && s[i] != '\n'
    ensures Watch(s, d, k) == Watch(s[n..], d, k)
  {
    if n == 0 {
      assert s[0..] == s;
    } else {
      OneWatch(s, d, d, k);
      InertWatch(s[1..], n - 1, d, k);
      assert s[1..][n - 1..] == s[n..];
    }
  }

  lemma {:induction false} WsWatch(s: string, d: Lex, k: nat)
    requires d.mode.Plain?
    ensures Watch(s, d, k) == Watch(SkipWs(s), d, k)
  {
    if s != "" && IsWs(s[0]) {
      OneWatch(s, d, d, k);
      WsWatch(s[1..], d, k);
    }
  }

  /** Inside a string, characters that are neither quotes nor backslashes nor newlines. */
  lemma {:induction false} TextWatch(s: string, n: nat, d: Lex, k: nat)
    requires n <= |s| && (d.mode == OneLine(Basic, false) || d.mode == Multi(Basic, false))
    requires forall i :: 0 <= i < n ==> s[i] != '"' && s[i] != '\\' && s[i] != '\n'
    ensures Watch(s, d, k) == Watch(s[n..], d, k)
  {
    if n == 0 {
      assert s[0..] == s;
    } else {
      OneWatch(s, d, d, k);
      TextWatch(s[1..], n - 1, d, k);
      assert s[1..][n - 1..] == s[n..];
    }
  }

  lemma {:induction false} HexIsText(s: string)
    requires Hex(s).Some?
    ensures forall i :: 0 <= i < |s| ==> s[i] != '"' && s[i] != '\\' && s[i] != '\n'
  {
    if s != "" {
      HexIsText(s[..|s| - 1]);
      assert forall i :: 0 <= i < |s| ==> s[i] == if i < |s| - 1 then s[..|s| - 1][i] else s[|s| - 1];
    }
  }

  function Escaping(d: Lex): Lex
    requires d.mode.OneLine? || d.mode.Multi?
  {
    d.(mode := if d.mode.OneLine? then OneLine(Basic, true) else Multi(Basic, true))
  }

  lemma {:induction false} EscapeWatch(s: string, d: Lex, k: nat)
    requires (d.mode == OneLine(Basic, false) || d.mode == Multi(Basic, false)) && Escape(s).Some?
    ensures Watch(s, Escaping(d), k) == Watch(Escape(s).value.1, d, k)
  {
    OneWatch(s, Escaping(d), d, k);
    if s[0] == 'u' {
      UnicodeWatch(s[1..], 4, d, k);
    } else if s[0] == 'U' {
      UnicodeWatch(s[1..], 8, d, k);
    }
  }

  lemma {:induction false} UnicodeWatch(s: string, digits: nat, d: Lex, k: nat)
    requires (d.mode == OneLine(Basic, false) || d.mode == Multi(Basic, false)) && UnicodeEscape(s, digits).Some?
    ensures Watch(s, d, k) == Watch(UnicodeEscape(s, digits).value.1, d, k)
  {
    HexIsText(s[..digits]);
    assert forall i :: 0 <= i < digits ==> s[i] == s[..digits][i];
    TextWatch(s, digits, d, k);
  }

  lemma {:induction false} OneLineWatch(s: string, q: Quote, d: Lex, k: nat)
    requires d.mode.Plain? && OneLineString(s, q).Some?
    ensures Watch(s, d.(mode := OneLine(q, false)), k) == Watch(OneLineString(s, q).value.1, d, k)
    decreases |s|
  {
    var l := d.(mode := OneLine(q, false));
    if s[0] == Mark(q) {
      OneWatch(s, l, d, k);
    } else if q.Basic? && s[0] == '\\' {
      OneWatch(s, l, Escaping(l), k);
      EscapeWatch(s[1..], l, k);
      OneLineWatch(Escape(s[1..]).value.1, q, d, k);
    } else {
      OneWatch(s, l, l, k);
      OneLineWatch(s[1..], q, d, k);
    }
  }

  lemma {:induction false} BlankLinesWatch(s: string, d: Lex, k: nat)
    requires d.mode == Multi(Basic, false)
    ensures Watch(s, d, k) == Watch(SkipBlankLines(s), d, k)
  {
    if s != "" && (IsWs(s[0]) || s[0] == '\n') {
      OneWatch(s, d, d, k);
      BlankLinesWatch(s[1..], d, k);
    }
  }

  lemma {:induction false} BlanksWatch(s: string, d: Lex, k: nat)
    requires d.mode == Multi(Basic, false)
    ensures Watch(s, d, k) == Watch(SkipWs(s), d, k)
  {
    if s != "" && IsWs(s[0]) {
      OneWatch(s, d, d, k);
      BlanksWatch(s[1..], d, k);
    }
  }

  /** A backslash at the end of a line of a multi-line string: the lexer takes the first blank behind it as escaped. */
  lemma {:induction false} ContinuationWatch(s: string, d: Lex, k: nat)
    requires d.mode == Multi(Basic, false)
    requires SkipWs(s) != "" && SkipWs(s)[0] == '\n'
    ensures Watch(s, Escaping(d), k) == Watch(SkipBlankLines(SkipWs(s)[1..]), d, k)
  {
    OneWatch(s, Escaping(d), d, k);
    var t := SkipWs(s);
    if IsWs(s[0]) {
      BlanksWatch(s[1..], d, k);
      OneWatch(t, d, d, k);
    }
    BlankLinesWatch(t[1..], d, k);
  }

  lemma {:induction false} MultiWatch(s: string, q: Quote, d: Lex, k: nat)
    requires d.mode.Plain? && MultiString(s, q).Some?
    ensures Watch(s, d.(mode := Multi(q, false)), k) == Watch(MultiString(s, q).value.1, d, k)
    decreases |s|
  {
    var m := d.(mode := Multi(q, false));
    if Run(s, Mark(q)) >= 3 {
      WatchStep(s, m, Run(s, Mark(q)), d, k);
    } else if q.Basic? && s[0] == '\\' {
      OneWatch(s, m, Escaping(m), k);
      var t := SkipWs(s[1..]);
      if t != "" && t[0] == '\n' {
        ContinuationWatch(s[1..], m, k);
        MultiWatch(SkipBlankLines(t[1..]), q, d, k);
      } else {
        EscapeWatch(s[1..], m, k);
        MultiWatch(Escape(s[1..]).value.1, q, d, k);
      }
    } else {
      OneWatch(s, m, m, k);
      MultiWatch(s[1..], q, d, k);
    }
  }

  /** A comment that stops before a newline. */
  lemma {:induction false} CommentWatch(s: string, d: Lex, k: nat)
    requires d.mode.Plain? && Deep(d) && SkipComment(s).Some? && SkipComment(s).value != ""
    ensures Watch(s, d.(mode := Comment), k) == Watch(SkipComment(s).value, d, k)
  {
    var c := d.(mode := Comment);
    if s[0] == '\n' {
      OneWatch(s, c, d, k);
      OneWatch(s, d, d, k);
    } else {
      OneWatch(s, c, c, k);
      CommentWatch(s[1..], d, k);
    }
  }

  lemma {:induction false} TriviaWatch(s: string, d: Lex, k: nat)
    requires d.mode.Plain? && Deep(d) && SkipTrivia(s).Some? && SkipTrivia(s).value != ""
    ensures Watch(s, d, k) == Watch(SkipTrivia(s).value, d, k)
    decreases |s|
  {
    if IsWs(s[0]) || s[0] == '\n' {
      OneWatch(s, d, d, k);
      TriviaWatch(s[1..], d, k);
    } else if s[0] == '#' {
      OneWatch(s, d, d.(mode := Comment), k);
      assert SkipComment(s[1..]) != Some("");
      CommentWatch(s[1..], d, k);
      TriviaWatch(SkipComment(s[1..]).value, d, k);
    }
  }

  lemma {:induction false} OpenOneLineWatch(s: string, q: Quote, d: Lex, k: nat)
    requires d.mode.Plain? && s != "" && s[0] == Mark(q) && !OpensMulti(s, q) && OneLineString(s[1..], q).Some?
    ensures Watch(s, d, k) == Watch(OneLineString(s[1..], q).value.1, d, k)
  {
    OneWatch(s, d, d.(mode := OneLine(q, false)), k);
    OneLineWatch(s[1..], q, d, k);
  }

  lemma {:induction false} OpenMultiWatch(s: string, q: Quote, d: Lex, k: nat)
    requires d.mode.Plain? && OpensMulti(s, q) && ParseMulti(s, q).Some?
    ensures Watch(s, d, k) == Watch(ParseMulti(s, q).value.1, d, k)
  {
    var m := d.(mode := Multi(q, false));
    WatchStep(s, d, 3, m, k);
    if |s| > 3 && s[3] == '\n' {
      OneWatch(s[3..], m, m, k);
      assert s[3..][1..] == s[4..];
      MultiWatch(s[4..], q, d, k);
    } else {
      MultiWatch(s[3..], q, d, k);
    }
  }

  /** A value of any kind leaves the lexer where it found it. */
  lemma {:induction false} ValueWatch(s: string, d: Lex, k: nat)
    requires d.mode.Plain? && ParseValue(s).Some?
    ensures Watch(s, d, k) == Watch(ParseValue(s).value.1, d, k)
    decreases |s|, 0
  {
    if OpensMulti(s, Basic) {
      OpenMultiWatch(s, Basic, d, k);
    } else if OpensMulti(s, Literal) {
      OpenMultiWatch(s, Literal, d, k);
    } else if s[0] == '"' {
      OpenOneLineWatch(s, Basic, d, k);
    } else if s[0] == '\'' {
      OpenOneLineWatch(s, Literal, d, k);
    } else if s[0] == '[' {
      OneWatch(s, d, d.(square := d.square + 1), k);
      ItemsWatch(s[1..], d, k);
    } else {
      InertWatch(s, TokenLength(s), d, k);
    }
  }

  lemma {:induction false} ItemsWatch(s: string, d: Lex, k: nat)
    requires d.mode.Plain? && ParseItems(s).Some?
    ensures Watch(s, d.(square := d.square + 1), k) == Watch(ParseItems(s).value.1, d, k)
    decreases |s|, 2
  {
    var e := d.(square := d.square + 1);
    TriviaWatch(s, e, k);
    var t := SkipTrivia(s).value;
    if t[0] == ']' {
      OneWatch(t, e, d, k);
    } else {
      ItemWatch(t, d, ParseItems(s).value.1, k);
    }
  }

  /** One item of an array, and the rest of the array behind it. */
  lemma {:induction false} ItemWatch(t: string, d: Lex, r: string, k: nat)
    requires d.mode.Plain? && ParseValue(t).Some? && SkipTrivia(ParseValue(t).value.1).Some?
    requires var u := SkipTrivia(ParseValue(t).value.1).value;
      u != "" && ((u[0] == ']' && r == u[1..]) ||
                  (u[0] == ',' && ParseItems(u[1..]).Some? && r == ParseItems(u[1..]).value.1))
    ensures Watch(t, d.(square := d.square + 1), k) == Watch(r, d, k)
    decreases |t|, 1
  {
    var e := d.(square := d.square + 1);
    ValueWatch(t, e, k);
    TriviaWatch(ParseValue(t).value.1, e, k);
    ItemEndWatch(SkipTrivia(ParseValue(t).value.1).value, d, r, k);
  }

  lemma {:induction false} ItemEndWatch(u: string, d: Lex, r: string, k: nat)
    requires d.mode.Plain? && u != ""
    requires (u[0] == ']' && r == u[1..]) || (u[0] == ',' && ParseItems(u[1..]).Some? && r == ParseItems(u[1..]).value.1)
    ensures Watch(u, d.(square := d.square + 1), k) == Watch(r, d, k)
    decreases |u|
  {
    var e := d.(square := d.square + 1);
    if u[0] == ']' {
      OneWatch(u, e, d, k);
    } else {
      OneWatch(u, e, e, k);
      ItemsWatch(u[1..], d, k);
    }
  }

  lemma {:induction false} OpenOneLine(s: string, q: Quote, d: Lex)
    requires d.mode.Plain? && s != "" && s[0] == Mark(q) && !OpensMulti(s, q) && OneLineString(s[1..], q).Some?
    ensures Scan(s, d) == Scan(OneLineString(s[1..], q).value.1, d)
  {
    OpenOneLineWatch(s, q, d, |s| + 1);
    Unwatched(s, d, |s| + 1);
    Unwatched(OneLineString(s[1..], q).value.1, d, |s| + 1);
  }

  // ---------- lines ----------

  predicate Rests(r: Option<Lex>, d: Lex) {
    r.Some? && (r.value == d || r.value == d.(mode := Comment))
  }

  lemma {:induction false} CommentRests(s: string, d: Lex, k: nat)
    requires k > 0 && d.mode.Plain? && SkipComment(s).Some? && (SkipComment(s).value == "" || SkipComment(s).value == "\n")
    ensures Rests(Watch(s, d.(mode := Comment), k), d)
  {
    var c := d.(mode := Comment);
    if s != "" {
      if s[0] == '\n' {
        OneWatch(s, c, d, k);
        assert Watch("", d, k) == Some(d);
      } else {
        OneWatch(s, c, c, k);
        CommentRests(s[1..], d, k);
      }
    }
  }

  lemma {:induction false} EndWatch(s: string, d: Lex, k: nat)
    requires k > 0 && d.mode.Plain? && LineEnds(s)
    ensures Rests(Watch(s, d, k), d)
  {
    WsWatch(s, d, k);
    var t := SkipWs(s);
    if t == "\n" {
      OneWatch(t, d, d, k);
    } else if t != "" {
      OneWatch(t, d, d.(mode := Comment), k);
      CommentRests(t[1..], d, k);
    }
  }

  lemma {:induction false} KeyWatch(s: string, d: Lex, k: nat)
    requires d.mode.Plain? && ParseKey(s).Some?
    requires ParseKey(s).value.1 != "" && !IsQuote(ParseKey(s).value.1[0])
    ensures Watch(s, d, k) == Watch(ParseKey(s).value.1, d, k)
  {
    if s[0] == '"' {
      NotMulti(s, Basic);
      OpenOneLineWatch(s, Basic, d, k);
    } else if s[0] == '\'' {
      NotMulti(s, Literal);
      OpenOneLineWatch(s, Literal, d, k);
    } else {
      InertWatch(s, BareLength(s), d, k);
    }
  }

  lemma {:induction false} KeyScan(s: string, d: Lex)
    requires d.mode.Plain? && ParseKey(s).Some?
    requires ParseKey(s).value.1 != "" && !IsQuote(ParseKey(s).value.1[0])
    ensures Scan(s, d) == Scan(ParseKey(s).value.1, d)
  {
    KeyWatch(s, d, |s| + 1);
    Unwatched(s, d, |s| + 1);
    Unwatched(ParseKey(s).value.1, d, |s| + 1);
  }

  /** Three quotes in front are an empty one-line string followed by a quote. */
  lemma {:induction false} NotMulti(s: string, q: Quote)
    requires s != "" && OneLineString(s[1..], q).Some?
    requires var r := OneLineString(s[1..], q).value.1; r != "" && !IsQuote(r[0])
    ensures !OpensMulti(s, q)
  {
    if |s| >= 3 && s[1] == Mark(q) {
      assert s[1..][1..][0] == s[2];
    }
  }

  /** A key and the blanks behind it. */
  lemma {:induction false} KeyBlanksWatch(s: string, d: Lex, k: nat)
    requires d.mode.Plain? && ParseKey(s).Some?
    requires var t := SkipWs(ParseKey(s).value.1); t != "" && !IsQuote(t[0])
    ensures Watch(s, d, k) == Watch(SkipWs(ParseKey(s).value.1), d, k)
  {
    KeyWatch(s, d, k);
    WsWatch(ParseKey(s).value.1, d, k);
  }

  lemma {:induction false} PathWatch(s: string, d: Lex, k: nat)
    requires d.mode.Plain? && ParsePath(s).Some?
    requires ParsePath(s).value.1 != "" && !IsQuote(ParsePath(s).value.1[0])
    ensures Watch(s, d, k) == Watch(ParsePath(s).value.1, d, k)
    decreases |s|
  {
    var t := SkipWs(ParseKey(s).value.1);
    KeyBlanksWatch(s, d, k);
    if t[0] == '.' {
      ThenBlanksWatch(t, d, k);
      PathWatch(SkipWs(t[1..]), d, k);
    }
  }

  /** A mark such as `.` or `=` and the blanks behind it. */
  lemma {:induction false} ThenBlanksWatch(t: string, d: Lex, k: nat)
    requires d.mode.Plain? && t != "" && Inert(t[0]) && t[0] != '\n'
    ensures Watch(t, d, k) == Watch(SkipWs(t[1..]), d, k)
  {
    OneWatch(t, d, d, k);
    WsWatch(t[1..], d, k);
  }

  /** The path of a header between its opening and closing brackets. */
  lemma {:induction false} BracketedWatch(s: string, path: seq<string>, t: string, d: Lex, k: nat)
    requires d.mode.Plain? && ParsePath(SkipWs(s)) == Some((path, t)) && t != "" && t[0] == ']'
    ensures Watch(s, d.(square := d.square + 1), k) == Watch(t[1..], d, k)
  {
    BlanksPathWatch(s, path, t, d.(square := d.square + 1), k);
    OneWatch(t, d.(square := d.square + 1), d, k);
  }

  lemma {:induction false} BlanksPathWatch(s: string, path: seq<string>, t: string, d: Lex, k: nat)
    requires d.mode.Plain? && ParsePath(SkipWs(s)) == Some((path, t)) && t != "" && !IsQuote(t[0])
    ensures Watch(s, d, k) == Watch(t, d, k)
  {
    WsWatch(s, d, k);
    PathWatch(SkipWs(s), d, k);
  }

  lemma {:induction false} HeaderWatch(s: string, d: Lex, k: nat)
    requires k > 0 && d.mode.Plain? && s != "" && s[0] == '[' && ParseHeader(s).Some?
    ensures Rests(Watch(s, d, k), d)
  {
    OneWatch(s, d, d.(square := d.square + 1), k);
    if ParseHeader(s).value.ofTables {
      var (path, t) := ParsePath(SkipWs(s[2..])).value;
      assert s[1..][1..] == s[2..];
      TablesHeaderWatch(s[1..], path, t, d, k);
    } else {
      var (path, t) := ParsePath(SkipWs(s[1..])).value;
      BracketedWatch(s[1..], path, t, d, k);
      EndWatch(t[1..], d, k);
    }
  }

  lemma {:induction false} TablesHeaderWatch(s: string, path: seq<string>, t: string, d: Lex, k: nat)
    requires k > 0 && d.mode.Plain? && s != "" && s[0] == '[' && ParsePath(SkipWs(s[1..])) == Some((path, t))
    requires |t| >= 2 && t[0] == t[1] == ']' && LineEnds(t[2..])
    ensures Rests(Watch(s, d.(square := d.square + 1), k), d)
  {
    var e := d.(square := d.square + 1);
    OneWatch(s, e, e.(square := e.square + 1), k);
    BracketedWatch(s[1..], path, t, e, k);
    CloseWatch(t[1..], d, k);
  }

  lemma {:induction false} CloseWatch(t: string, d: Lex, k: nat)
    requires k > 0 && d.mode.Plain? && t != "" && t[0] == ']' && LineEnds(t[1..])
    ensures Rests(Watch(t, d.(square := d.square + 1), k), d)
  {
    OneWatch(t, d.(square := d.square + 1), d, k);
    EndWatch(t[1..], d, k);
  }

  lemma {:induction false} AssignWatch(s: string, d: Lex, k: nat)
    requires k > 0 && d.mode.Plain? && ParseAssign(s).Some?
    ensures Rests(Watch(s, d, k), d)
  {
    var t := SkipWs(ParseKey(s).value.1);
    KeyBlanksWatch(s, d, k);
    ThenBlanksWatch(t, d, k);
    ValueEndWatch(SkipWs(t[1..]), d, k);
  }

  lemma {:induction false} ValueEndWatch(s: string, d: Lex, k: nat)
    requires k > 0 && d.mode.Plain? && ParseValue(s).Some? && LineEnds(ParseValue(s).value.1)
    ensures Rests(Watch(s, d, k), d)
  {
    ValueWatch(s, d, k);
    EndWatch(ParseValue(s).value.1, d, k);
  }

  /** The lexer cannot tell CRLF from LF. */
  lemma {:induction false} UnixScan(s: string, d: Lex)
    ensures Scan(Unix(s), d) == Scan(s, d)
    decreases |s|
  {
    if s != "" {
      if |s| >= 2 && s[0] == '\r' && s[1] == '\n' {
        CrlfStep(s, d);
        var r := Step(Unix(s), d);
        ScanStep(Unix(s), d, r);
        if r.Some? {
          UnixScan(s[2..], r.value.1);
          assert Unix(s)[1..] == Unix(s[2..]);
        }
      } else {
        var n, e := UnixStep(s, d);
        ScanStep(s, d, Step(s, d));
        ScanStep(Unix(s), d, Step(s, d));
        if n > 0 {
          UnixScan(s[n..], e);
        }
      }
    }
  }

  lemma {:induction false} CrlfStep(s: string, d: Lex)
    requires |s| >= 2 && s[0] == '\r' && s[1] == '\n'
    ensures Step(Unix(s), d).None? ==> Scan(s, d).None?
    ensures Step(Unix(s), d).Some? ==>
      Step(Unix(s), d).value.0 == 1 && Scan(s, d) == Scan(s[2..], Step(Unix(s), d).value.1)
  {
    var r := Step(s, d).value;
    One(s, d, r.1);
    ScanStep(s[1..], r.1, Step(s[1..], r.1));
    assert s[1..][1..] == s[2..];
  }

  lemma {:induction false} UnixDrop(s: string, n: nat)
    requires n <= |s| && forall i :: 0 <= i < n ==> s[i] != '\r'
    ensures n <= |Unix(s)| && Unix(s)[n..] == Unix(s[n..]) && Unix(s)[..n] == s[..n]
    decreases n
  {
    if n == 0 {
      assert s[0..] == s && Unix(s)[0..] == Unix(s);
    } else {
      UnixDrop(s[1..], n - 1);
      assert Unix(s) == [s[0]] + Unix(s[1..]);
      assert s[n..] == s[1..][n - 1..] && Unix(s)[n..] == Unix(s[1..])[n - 1..];
      assert s[..n] == [s[0]] + s[1..][..n - 1] && Unix(s)[..n] == [s[0]] + Unix(s[1..])[..n - 1];
    }
  }

  lemma {:induction false} UnixRun(s: string, c: char)
    requires IsQuote(c)
    ensures Run(Unix(s), c) == Run(s, c)
    decreases |s|
  {
    if s != "" && s[0] == c {
      assert Unix(s) == [s[0]] + Unix(s[1..]);
      UnixRun(s[1..], c);
    }
  }

  lemma {:induction false} UnixOpens(s: string, q: Quote)
    ensures OpensMulti(Unix(s), q) <==> OpensMulti(s, q)
  {
    UnixRun(s, Mark(q));
    assert s[0..] == s && Unix(s)[0..] == Unix(s);
    StartsWithMark(s, 0, q);
    StartsWithMark(Unix(s), 0, q);
  }

  lemma {:induction false} UnixFirst(s: string)
    requires s != "" && !(|s| >= 2 && s[0] == '\r' && s[1] == '\n')
    ensures Unix(s) != "" && Unix(s)[0] == s[0] && Unix(s)[1..] == Unix(s[1..])
  {
    assert Unix(s) == [s[0]] + Unix(s[1..]);
  }

  /** Away from a CRLF the lexer reads the same token from both texts: `n` characters, or none where it fails. */
  lemma {:induction false} UnixStep(s: string, d: Lex) returns (n: nat, e: Lex)
    requires s != "" && !(|s| >= 2 && s[0] == '\r' && s[1] == '\n')
    ensures Unix(s) != "" && n <= |s| && n <= |Unix(s)| && Unix(s)[n..] == Unix(s[n..])
    ensures if n == 0 then Step(s, d).None? && Step(Unix(s), d).None?
            else Step(s, d) == Step(Unix(s), d) == Some((n, e))
  {
    UnixFirst(s);
    n, e := 1, d;
    if d.mode.Multi? && !d.mode.escaped {
      var run := Run(s, Mark(d.mode.q));
      UnixRun(s, Mark(d.mode.q));
      if run >= 3 {
        UnixDrop(s, run);
        n := run;
      }
      e := Step(s, d).value.1;
    } else if d.mode.Plain? {
      n, e := UnixPlainStep(s, d);
    } else if Step(s, d).Some? {
      e := Step(s, d).value.1;
    } else {
      n := 0;
      assert Unix(s)[0..] == Unix(s) && s[0..] == s;
    }
  }

  lemma {:induction false} UnixPlainStep(s: string, d: Lex) returns (n: nat, e: Lex)
    requires s != "" && !(|s| >= 2 && s[0] == '\r' && s[1] == '\n') && d.mode.Plain?
    ensures Unix(s) != "" && n <= |s| && n <= |Unix(s)| && Unix(s)[n..] == Unix(s[n..])
    ensures if n == 0 then Step(s, d).None? && Step(Unix(s), d).None?
            else Step(s, d) == Step(Unix(s), d) == Some((n, e))
  {
    UnixFirst(s);
    UnixOpens(s, Basic);
    UnixOpens(s, Literal);
    assert Step(Unix(s), d) == Step(s, d);
    if Step(s, d).None? {
      n, e := 0, d;
      assert Unix(s)[0..] == Unix(s) && s[0..] == s;
    } else {
      n, e := Step(s, d).value.0, Step(s, d).value.1;
      if n == 3 {
        UnixDrop(s, 3);
      } else {
        assert n == 1;
      }
    }
  }

  /** Every readable logical line leaves the lexer outside, and inside at every line break before its end. */
  lemma {:induction false} LineWatch(c: string, k: nat)
    requires k > 0 && ParseUnix(c).Some?
    ensures Rests(Watch(c, NEUTRAL, k), NEUTRAL)
  {
    var s := SkipWs(c);
    WsWatch(c, NEUTRAL, k);
    if LineEnds(s) {
      EndWatch(s, NEUTRAL, k);
    } else if s[0] == '[' {
      HeaderWatch(s, NEUTRAL, k);
    } else {
      AssignWatch(s, NEUTRAL, k);
    }
  }

  /** Every text the grammar accepts as one statement leaves the lexer outside every string, array and table. */
  lemma {:induction false} StatementIsNeutral(chunk: string)
    requires ParseStmt(chunk).Some?
    ensures Advance(chunk, OUTSIDE) == Some(OUTSIDE)
  {
    UnixScan(chunk, NEUTRAL);
    LineWatch(Unix(chunk), 1);
    WatchIsScan(Unix(chunk), NEUTRAL, 1);
  }

  /** No run of its lines but the whole does: behind each earlier line break the lexer is still inside something. */
  lemma {:induction false} PrefixIsNotNeutral(p: string, q: string)
    requires ParseUnix(p + q).Some? && Ended(p) && q != ""
    ensures Advance(p, OUTSIDE).Some? && Advance(p, OUTSIDE) != Some(OUTSIDE)
  {
    LineWatch(p + q, 1);
    WatchPrefix(p, q, NEUTRAL);
    AfterNewline(p, NEUTRAL);
  }
}
