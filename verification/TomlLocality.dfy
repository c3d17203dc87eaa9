/** What the reference reader takes from a text does not depend on the text behind it. */
module TomlLocality {
  import opened Wrappers
  import opened TomlLexer
  import opened TomlSyntax

  // ---------- what has been read ----------

  predicate Tail(s: string, r: string) {
    |r| <= |s| && s[|s| - |r|..] == r
  }

  /** The part of `s` in front of its tail `r`. */
  function Used(s: string, r: string): (p: string)
    requires Tail(s, r)
    ensures s == p + r
  {
    s[..|s| - |r|]
  }

  lemma {:induction false} UsedThrough(s: string, t: string, r: string)
    requires Tail(s, t) && Tail(t, r)
    ensures Tail(s, r) && Used(s, r) == Used(s, t) + Used(t, r)
  {
    assert s == Used(s, t) + (Used(t, r) + r);
  }

  lemma {:induction false} UsedOne(s: string)
    requires s != ""
    ensures Tail(s, s[1..]) && Used(s, s[1..]) == [s[0]]
  {
  }

  lemma {:induction false} UsedStep(s: string, r: string)
    requires s != "" && Tail(s[1..], r)
    ensures Tail(s, r) && Used(s, r) == [s[0]] + Used(s[1..], r)
  {
    UsedOne(s);
    UsedThrough(s, s[1..], r);
  }

  /** Nothing here can go on with a value: no quote and no character of a bare token. */
  predicate Stops(x: string) {
    x == "" || (!IsQuote(x[0]) && !IsTokenChar(x[0]))
  }

  lemma {:induction false} Cons(c: char, p: string, x: string)
    ensures ([c] + p) + x == [c] + (p + x) && (([c] + p) + x)[1..] == p + x
  {
  }

  // ---------- skipping ----------

  lemma {:induction false} WsLocal(s: string, y: string)
    requires y == "" || !IsWs(y[0])
    ensures Tail(s, SkipWs(s)) && SkipWs(Used(s, SkipWs(s)) + y) == y
  {
    if s != "" && IsWs(s[0]) {
      WsLocal(s[1..], y);
      UsedStep(s, SkipWs(s));
      Cons(s[0], Used(s[1..], SkipWs(s)), y);
    } else {
      assert s[..0] + y == y;
    }
  }

  lemma {:induction false} BlankLinesLocal(s: string, y: string)
    requires y == "" || !(IsWs(y[0]) || y[0] == '\n')
    ensures Tail(s, SkipBlankLines(s)) && SkipBlankLines(Used(s, SkipBlankLines(s)) + y) == y
  {
    if s != "" && (IsWs(s[0]) || s[0] == '\n') {
      BlankLinesLocal(s[1..], y);
      UsedStep(s, SkipBlankLines(s));
      Cons(s[0], Used(s[1..], SkipBlankLines(s)), y);
    } else {
      assert s[..0] + y == y;
    }
  }

  lemma {:induction false} CommentLocal(s: string, y: string)
    requires SkipComment(s).Some? && y != "" && y[0] == '\n'
    ensures var r := SkipComment(s).value; Tail(s, r) && SkipComment(Used(s, r) + y) == Some(y)
  {
    var r := SkipComment(s).value;
    if s == "" || s[0] == '\n' {
      assert s[..0] + y == y;
    } else {
      CommentLocal(s[1..], y);
      UsedStep(s, r);
      Cons(s[0], Used(s[1..], r), y);
    }
  }

  lemma {:induction false} TriviaLocal(s: string, y: string)
    requires SkipTrivia(s).Some? && SkipTrivia(s).value != "" && y != "" && y[0] == SkipTrivia(s).value[0]
    ensures var t := SkipTrivia(s).value; Tail(s, t) && SkipTrivia(Used(s, t) + y) == Some(y)
    decreases |s|
  {
    var t := SkipTrivia(s).value;
    if s != "" && (IsWs(s[0]) || s[0] == '\n') {
      TriviaLocal(s[1..], y);
      UsedStep(s, t);
      Cons(s[0], Used(s[1..], t), y);
    } else if s != "" && s[0] == '#' {
      var r := SkipComment(s[1..]).value;
      CommentTrivia(s, r, t, y);
    } else {
      assert s[..0] + y == y;
      TriviaStops(s);
    }
  }

  /** Skipping stops at a character that it would not skip. */
  lemma {:induction false} TriviaStops(s: string)
    requires SkipTrivia(s).Some? && SkipTrivia(s).value != ""
    ensures var c := SkipTrivia(s).value[0]; !IsWs(c) && c != '\n' && c != '#'
    decreases |s|
  {
    if s != "" && (IsWs(s[0]) || s[0] == '\n') {
      TriviaStops(s[1..]);
    } else if s != "" && s[0] == '#' {
      TriviaStops(SkipComment(s[1..]).value);
    }
  }

  lemma {:induction false} TriviaComment(body: string, z: string)
    requires SkipComment(body) == Some(z)
    ensures SkipTrivia(['#'] + body) == SkipTrivia(z)
  {
    assert (['#'] + body)[1..] == body;
  }

  lemma {:induction false} Join3(a: string, b: string, c: string, d: string)
    ensures ((a + (b + c)) + d) == a + (b + (c + d))
  {
  }

  lemma {:induction false} CommentTrivia(s: string, r: string, t: string, y: string)
    requires s != "" && s[0] == '#' && SkipComment(s[1..]) == Some(r) && SkipTrivia(r) == Some(t) && t != ""
    requires y != "" && y[0] == t[0]
    ensures Tail(s, t) && SkipTrivia(Used(s, t) + y) == Some(y)
    decreases |s|, 0
  {
    TriviaLocal(r, y);
    TriviaStops(r);
    CommentUsed(r, t, y);
    var z := Used(r, t) + y;
    CommentLocal(s[1..], z);
    UsedThrough(s[1..], r, t);
    UsedStep(s, t);
    Join3(['#'], Used(s[1..], r), Used(r, t), y);
    TriviaComment(Used(s[1..], r) + z, z);
  }

  lemma {:induction false} CommentUsed(r: string, t: string, y: string)
    requires Tail(r, t) && r != "" && r[0] == '\n' && t != "" && t[0] != '\n'
    ensures var z := Used(r, t) + y; z != "" && z[0] == '\n'
  {
    assert Used(r, t) == "" ==> r == t;
    assert r[0] == Used(r, t)[0];
  }

  // ---------- strings ----------

  lemma {:induction false} UnicodeLocal(s: string, digits: nat, y: string)
    requires UnicodeEscape(s, digits).Some?
    ensures var r := UnicodeEscape(s, digits).value; Tail(s, r.1) && UnicodeEscape(Used(s, r.1) + y, digits) == Some((r.0, y))
  {
    var t := Used(s, s[digits..]) + y;
    assert t[..digits] == s[..digits] && t[digits..] == y;
  }

  lemma {:induction false} EscapeLocal(s: string, y: string)
    requires Escape(s).Some?
    ensures var r := Escape(s).value; Tail(s, r.1) && Escape(Used(s, r.1) + y) == Some((r.0, y))
  {
    var r := Escape(s).value;
    UsedOne(s);
    if s[0] == 'u' || s[0] == 'U' {
      var digits := if s[0] == 'u' then 4 else 8;
      UnicodeLocal(s[1..], digits, y);
      UsedStep(s, r.1);
      Cons(s[0], Used(s[1..], r.1), y);
    } else {
      assert ([s[0]] + y)[1..] == y;
    }
  }

  lemma {:induction false} OneLineLocal(s: string, q: Quote, x: string)
    requires OneLineString(s, q).Some?
    ensures var r := OneLineString(s, q).value; Tail(s, r.1) && OneLineString(Used(s, r.1) + x, q) == Some((r.0, x))
    decreases |s|
  {
    var r := OneLineString(s, q).value;
    UsedOne(s);
    if s[0] == Mark(q) {
      assert ([s[0]] + x)[1..] == x;
    } else if q.Basic? && s[0] == '\\' {
      var e := Escape(s[1..]).value;
      OneLineLocal(e.1, q, x);
      var y := Used(e.1, r.1) + x;
      EscapeLocal(s[1..], y);
      UsedThrough(s[1..], e.1, r.1);
      UsedStep(s, r.1);
      Join3([s[0]], Used(s[1..], e.1), Used(e.1, r.1), x);
      OneLineEscape(Used(s[1..], e.1) + y, e.0, y, x, OneLineString(e.1, q).value.0);
    } else {
      OneLineLocal(s[1..], q, x);
      UsedStep(s, r.1);
      Cons(s[0], Used(s[1..], r.1), x);
    }
  }

  lemma {:induction false} OneLineEscape(t: string, c: char, y: string, x: string, v: string)
    requires Escape(t) == Some((c, y)) && OneLineString(y, Basic) == Some((v, x))
    ensures OneLineString(['\\'] + t, Basic) == Some(([c] + v, x))
  {
    assert (['\\'] + t)[1..] == t;
  }

  lemma {:induction false} RunOf(s: string, n: nat, c: char, x: string)
    requires n <= |s| && (Run(s, c) < n || (Run(s, c) == n && (x == "" || x[0] != c)))
    ensures Run(s[..n] + x, c) == Run(s, c)
    decreases n
  {
    var t := s[..n] + x;
    if n > 0 && s[0] == c {
      RunOf(s[1..], n - 1, c, x);
      assert t[1..] == s[1..][..n - 1] + x;
    } else if n == 0 {
      assert t == x;
    }
  }

  /** A multi-line string reads beyond a run of fewer than three quotes at its start. */
  lemma {:induction false} BeyondRun(s: string, q: Quote)
    requires MultiString(s, q).Some? && Run(s, Mark(q)) < 3
    ensures |s| - |MultiString(s, q).value.1| > Run(s, Mark(q))
    decreases |s|
  {
    if s[0] == Mark(q) {
      BeyondRun(s[1..], q);
    }
  }

  lemma {:induction false} MultiClose(p: string, q: Quote, n: nat, x: string)
    requires |p| == n && Run(p + x, Mark(q)) == n && 3 <= n <= 5
    ensures MultiString(p + x, q) == Some((Copies(Mark(q), n - 3), x))
  {
    assert (p + x)[n..] == x;
  }

  lemma {:induction false} MultiChar(c: char, t: string, q: Quote, v: string, x: string)
    requires Run([c] + t, Mark(q)) < 3 && !(q.Basic? && c == '\\') && (!IsControl(c) || c == '\t' || c == '\n')
    requires MultiString(t, q) == Some((v, x))
    ensures MultiString([c] + t, q) == Some(([c] + v, x))
  {
    assert ([c] + t)[1..] == t;
  }

  lemma {:induction false} MultiLocal(s: string, q: Quote, x: string)
    requires MultiString(s, q).Some? && Stops(x)
    ensures var r := MultiString(s, q).value; Tail(s, r.1) && MultiString(Used(s, r.1) + x, q) == Some((r.0, x))
    decreases |s|, 2
  {
    var r := MultiString(s, q).value;
    var n := Run(s, Mark(q));
    if n >= 3 {
      RunOf(s, n, Mark(q), x);
      assert Used(s, r.1) == s[..n];
      MultiClose(s[..n], q, n, x);
    } else if q.Basic? && s[0] == '\\' {
      EscapedLocal(s, x);
    } else {
      PlainLocal(s, q, x);
    }
  }

  lemma {:induction false} PlainLocal(s: string, q: Quote, x: string)
    requires MultiString(s, q).Some? && Stops(x) && Run(s, Mark(q)) < 3 && !(q.Basic? && s[0] == '\\')
    ensures var r := MultiString(s, q).value; Tail(s, r.1) && MultiString(Used(s, r.1) + x, q) == Some((r.0, x))
    decreases |s|, 0
  {
    var r := MultiString(s, q).value;
    MultiLocal(s[1..], q, x);
    UsedStep(s, r.1);
    BeyondRun(s, q);
    RunOf(s, |s| - |r.1|, Mark(q), x);
    Cons(s[0], Used(s[1..], r.1), x);
    MultiChar(s[0], Used(s[1..], r.1) + x, q, MultiString(s[1..], q).value.0, x);
  }

  /** Behind a backslash: the line goes on, or one escaped character. */
  lemma {:induction false} EscapedLocal(s: string, x: string)
    requires MultiString(s, Basic).Some? && Stops(x) && s[0] == '\\'
    ensures var r := MultiString(s, Basic).value; Tail(s, r.1) && MultiString(Used(s, r.1) + x, Basic) == Some((r.0, x))
    decreases |s|, 1
  {
    var r := MultiString(s, Basic).value;
    var t := SkipWs(s[1..]);
    if t != "" && t[0] == '\n' {
      ContinuedLocal(s, t, x);
    } else {
      var e := Escape(s[1..]).value;
      MultiLocal(e.1, Basic, x);
      var y := Used(e.1, r.1) + x;
      EscapeLocal(s[1..], y);
      UsedThrough(s[1..], e.1, r.1);
      UsedStep(s, r.1);
      Join3([s[0]], Used(s[1..], e.1), Used(e.1, r.1), x);
      MultiEscape(Used(s[1..], e.1) + y, e.0, y, x, MultiString(e.1, Basic).value.0);
    }
  }

  lemma {:induction false} MultiEscape(t: string, c: char, y: string, x: string, v: string)
    requires Escape(t) == Some((c, y)) && MultiString(y, Basic) == Some((v, x))
    ensures MultiString(['\\'] + t, Basic) == Some(([c] + v, x))
  {
    var s := ['\\'] + t;
    assert s[1..] == t;
    assert SkipWs(t) == t && t[0] != '\n';
  }

  lemma {:induction false} ContinuedPieces(s: string, t: string, u: string, r: string, x: string)
    requires s != "" && Tail(s[1..], t) && t != "" && t[0] == '\n' && Tail(t[1..], u) && Tail(u, r)
    ensures Tail(s, r)
    ensures Used(s, r) + x == [s[0]] + (Used(s[1..], t) + (['\n'] + (Used(t[1..], u) + (Used(u, r) + x))))
  {
    UsedThrough(t[1..], u, r);
    UsedStep(t, r);
    UsedThrough(s[1..], t, r);
    UsedStep(s, r);
    Join4([s[0]], Used(s[1..], t), ['\n'], Used(t[1..], u), Used(u, r), x);
  }

  /** What is read behind skipped lines starts with a character that is not skipped. */
  lemma {:induction false} StartsLike(u: string, r: string, x: string)
    requires Tail(u, r) && |r| < |u| && !(IsWs(u[0]) || u[0] == '\n')
    ensures var y := Used(u, r) + x; y != "" && !(IsWs(y[0]) || y[0] == '\n')
  {
    assert Used(u, r)[0] == u[0];
  }

  lemma {:induction false} ContinuedLocal(s: string, t: string, x: string)
    requires MultiString(s, Basic).Some? && Stops(x) && s[0] == '\\' && t == SkipWs(s[1..]) && t != "" && t[0] == '\n'
    ensures var r := MultiString(s, Basic).value; Tail(s, r.1) && MultiString(Used(s, r.1) + x, Basic) == Some((r.0, x))
    decreases |s|, 0
  {
    var r := MultiString(s, Basic).value;
    var u := SkipBlankLines(t[1..]);
    MultiLocal(u, Basic, x);
    BlankLinesStop(t[1..]);
    StartsLike(u, r.1, x);
    var y := Used(u, r.1) + x;
    BlankLinesLocal(t[1..], y);
    var w := ['\n'] + (Used(t[1..], u) + y);
    WsLocal(s[1..], w);
    ContinuedPieces(s, t, u, r.1, x);
    MultiContinues(Used(s[1..], t) + w, Used(t[1..], u) + y, y, r.0, x);
  }

  lemma {:induction false} Join4(a: string, b: string, c: string, d: string, e: string, f: string)
    ensures (a + (b + (c + (d + e)))) + f == a + (b + (c + (d + (e + f))))
  {
  }

  lemma {:induction false} MultiContinues(t: string, b: string, y: string, v: string, x: string)
    requires SkipWs(t) == ['\n'] + b && SkipBlankLines(b) == y && MultiString(y, Basic) == Some((v, x))
    ensures MultiString(['\\'] + t, Basic) == Some((v, x))
  {
    var s := ['\\'] + t;
    assert s[1..] == t && (['\n'] + b)[1..] == b;
  }

  lemma {:induction false} BlankLinesStop(s: string)
    ensures var r := SkipBlankLines(s); r == "" || !(IsWs(r[0]) || r[0] == '\n')
  {
    if s != "" && (IsWs(s[0]) || s[0] == '\n') {
      BlankLinesStop(s[1..]);
    }
  }

  // ---------- values ----------

  lemma {:induction false} TokenLengthLocal(s: string, n: nat, x: string)
    requires n == TokenLength(s) && (x == "" || !IsTokenChar(x[0]))
    ensures TokenLength(s[..n] + x) == n
    decreases n
  {
    var t := s[..n] + x;
    if n > 0 {
      TokenLengthLocal(s[1..], n - 1, x);
      assert t[1..] == s[1..][..n - 1] + x;
    } else {
      assert t == x;
    }
  }

  /** Values that are neither quoted nor arrays. */
  predicate IsBareValue(s: string) {
    s != "" && !IsQuote(s[0]) && s[0] != '['
  }

  lemma {:induction false} BareValue(s: string)
    requires IsBareValue(s)
    ensures ParseValue(s) == (var n := TokenLength(s); var v := Token(s[..n]); if v.None? then None else Some((v.value, s[n..])))
  {
  }

  lemma {:induction false} TokenLocal(s: string, x: string)
    requires IsBareValue(s) && ParseValue(s).Some? && Stops(x)
    ensures var r := ParseValue(s).value; Tail(s, r.1) && ParseValue(Used(s, r.1) + x) == Some((r.0, x))
  {
    var n := TokenLength(s);
    TokenNonEmpty(s[..n]);
    var t := s[..n] + x;
    assert t[0] == s[0];
    BareValue(s);
    BareValue(t);
    TokenLengthLocal(s, n, x);
    assert t[..n] == s[..n] && t[n..] == x;
    assert Used(s, s[n..]) == s[..n];
  }

  lemma {:induction false} TokenNonEmpty(t: string)
    requires Token(t).Some?
    ensures t != ""
  {
  }

  lemma {:induction false} OneLineValue(s: string, q: Quote, v: string, x: string)
    requires s != "" && s[0] == Mark(q) && !OpensMulti(s, q) && OneLineString(s[1..], q) == Some((v, x))
    ensures ParseValue(s) == Some((Str(v), x))
  {
  }

  lemma {:induction false} QuotedLocal(s: string, q: Quote, x: string)
    requires s != "" && s[0] == Mark(q) && !OpensMulti(s, q) && ParseValue(s).Some? && Stops(x)
    ensures var r := ParseValue(s).value; Tail(s, r.1) && ParseValue(Used(s, r.1) + x) == Some((r.0, x))
  {
    var r := OneLineString(s[1..], q).value;
    OneLineLocal(s[1..], q, x);
    UsedStep(s, r.1);
    Cons(s[0], Used(s[1..], r.1), x);
    var p := Used(s[1..], r.1);
    StillOneLine(s, q, p, r.1, x);
    OneLineValue([s[0]] + (p + x), q, r.0, x);
    OneLineValue(s, q, r.0, r.1);
  }

  lemma {:induction false} StillOneLine(s: string, q: Quote, p: string, r: string, x: string)
    requires s != "" && s[0] == Mark(q) && !OpensMulti(s, q) && s == [s[0]] + (p + r) && p != "" && Stops(x)
    ensures !OpensMulti([s[0]] + (p + x), q)
  {
    var t := [s[0]] + (p + x);
    assert t[1] == p[0] == s[1];
    if |p| > 1 {
      assert t[2] == p[1] == s[2];
    }
  }

  lemma {:induction false} MultiValue(s: string, q: Quote, body: string, v: string, x: string)
    requires OpensMulti(s, q) && body == (if |s| > 3 && s[3] == '\n' then s[4..] else s[3..]) && MultiString(body, q) == Some((v, x))
    ensures ParseValue(s) == Some((Str(v), x))
  {
  }

  /** Where the content of a multi-line string starts. */
  function BodyAt(s: string): (k: nat)
    requires |s| >= 3
    ensures 3 <= k <= |s|
  {
    if |s| > 3 && s[3] == '\n' then 4 else 3
  }

  lemma {:induction false} SameBody(s: string, k: nat, p: string, r: string, x: string)
    requires |s| >= 3 && k == BodyAt(s) && s[k..] == p + r && p != ""
    ensures var t := s[..k] + (p + x); |t| >= 3 && BodyAt(t) == k && t[k..] == p + x && t[..3] == s[..3]
  {
    var t := s[..k] + (p + x);
    assert forall i :: 0 <= i < k ==> t[i] == s[i];
    assert t[k] == p[0] && s[k] == s[k..][0] == p[0];
  }

  lemma {:induction false} MultiAgain(t: string, q: Quote, k: nat, v: string, x: string)
    requires OpensMulti(t, q) && k == BodyAt(t) && MultiString(t[k..], q) == Some((v, x))
    ensures ParseValue(t) == Some((Str(v), x))
  {
    MultiValue(t, q, t[k..], v, x);
  }

  lemma {:induction false} StillMulti(s: string, t: string, q: Quote)
    requires OpensMulti(s, q) && |t| >= 3 && t[..3] == s[..3]
    ensures OpensMulti(t, q)
  {
    assert t[0] == t[..3][0] && t[1] == t[..3][1] && t[2] == t[..3][2];
  }

  lemma {:induction false} UsedHead(s: string, k: nat, r: string)
    requires k <= |s| && Tail(s[k..], r)
    ensures Tail(s, r) && Used(s, r) == s[..k] + Used(s[k..], r)
  {
    assert Tail(s, s[k..]) && Used(s, s[k..]) == s[..k];
    UsedThrough(s, s[k..], r);
  }

  lemma {:induction false} MultiQuotedLocal(s: string, q: Quote, x: string)
    requires OpensMulti(s, q) && ParseValue(s).Some? && Stops(x)
    ensures var r := ParseValue(s).value; Tail(s, r.1) && ParseValue(Used(s, r.1) + x) == Some((r.0, x))
  {
    var k := BodyAt(s);
    var r := MultiString(s[k..], q).value;
    MultiLocal(s[k..], q, x);
    var p := Used(s[k..], r.1);
    UsedHead(s, k, r.1);
    SameBody(s, k, p, r.1, x);
    var t := s[..k] + (p + x);
    StillMulti(s, t, q);
    MultiAgain(t, q, k, r.0, x);
    MultiAgain(s, q, k, r.0, r.1);
    Assoc(s[..k], p, x);
  }

  lemma {:induction false} Assoc(a: string, b: string, c: string)
    ensures (a + b) + c == a + (b + c)
  {
  }

  lemma {:induction false} ValueLocal(s: string, x: string)
    requires ParseValue(s).Some? && Stops(x)
    ensures var r := ParseValue(s).value; Tail(s, r.1) && ParseValue(Used(s, r.1) + x) == Some((r.0, x))
    decreases |s|, 0
  {
    if OpensMulti(s, Basic) {
      MultiQuotedLocal(s, Basic, x);
    } else if OpensMulti(s, Literal) {
      MultiQuotedLocal(s, Literal, x);
    } else if s[0] == '"' {
      QuotedLocal(s, Basic, x);
    } else if s[0] == '\'' {
      QuotedLocal(s, Literal, x);
    } else if s[0] == '[' {
      ItemsLocal(s[1..], x);
      var r := ParseItems(s[1..]).value;
      UsedStep(s, r.1);
      Cons('[', Used(s[1..], r.1), x);
      ArrayValue(Used(s[1..], r.1) + x, r.0, x);
    } else {
      TokenLocal(s, x);
    }
  }

  lemma {:induction false} ArrayValue(t: string, vs: seq<Value>, x: string)
    requires ParseItems(t) == Some((vs, x))
    ensures ParseValue(['['] + t) == Some((List(vs), x))
  {
    assert (['['] + t)[1..] == t;
  }

  lemma {:induction false} ItemsLocal(s: string, x: string)
    requires ParseItems(s).Some?
    ensures var r := ParseItems(s).value; Tail(s, r.1) && ParseItems(Used(s, r.1) + x) == Some((r.0, x))
    decreases |s|, 2
  {
    var r := ParseItems(s).value;
    var t := SkipTrivia(s).value;
    if t[0] == ']' {
      UsedOne(t);
      TriviaLocal(s, [']'] + x);
      UsedThrough(s, t, t[1..]);
      assert (Used(s, t) + [']']) + x == Used(s, t) + ([']'] + x);
      NoItems(Used(s, t) + ([']'] + x), x);
    } else {
      var v := ParseValue(t).value;
      var u := SkipTrivia(v.1).value;
      ItemLocal(s, t, v.1, u, x);
    }
  }

  lemma {:induction false} NoItems(s: string, x: string)
    requires SkipTrivia(s) == Some([']'] + x)
    ensures ParseItems(s) == Some(([], x))
  {
    assert ([']'] + x)[1..] == x;
  }

  lemma {:induction false} TriviaStarts(w: string)
    requires SkipTrivia(w).Some? && SkipTrivia(w).value != w
    ensures w != "" && (IsWs(w[0]) || w[0] == '\n' || w[0] == '#')
  {
  }

  lemma {:induction false} TriviaChar(c: char)
    requires IsWs(c) || c == '\n' || c == '#'
    ensures !IsQuote(c) && !IsTokenChar(c)
  {
  }

  lemma {:induction false} StopsAt(p: string, z: string, c: char)
    requires z != "" && c == (if p == "" then z[0] else p[0]) && !IsQuote(c) && !IsTokenChar(c)
    ensures Stops(p + z)
  {
    assert (p + z)[0] == c;
  }

  lemma {:induction false} NothingUsed(w: string, u: string)
    requires Tail(w, u)
    ensures Used(w, u) == "" <==> w == u
    ensures Used(w, u) != "" ==> w != "" && Used(w, u)[0] == w[0]
  {
  }

  /** What follows an item starts with trivia, a comma or a bracket. */
  lemma {:induction false} TriviaStopsValue(w: string, u: string, z: string)
    requires SkipTrivia(w) == Some(u) && u != "" && (u[0] == ',' || u[0] == ']') && Tail(w, u) && z != "" && z[0] == u[0]
    ensures Stops(Used(w, u) + z)
  {
    NothingUsed(w, u);
    if u == w {
      StopsAt(Used(w, u), z, u[0]);
    } else {
      TriviaStarts(w);
      TriviaChar(w[0]);
      StopsAt(Used(w, u), z, w[0]);
    }
  }

  lemma {:induction false} LastItem(s: string, t: string, v: Value, w: string, x: string)
    requires SkipTrivia(s) == Some(t) && t != "" && t[0] != ']' && ParseValue(t) == Some((v, w)) && SkipTrivia(w) == Some([']'] + x)
    ensures ParseItems(s) == Some(([v], x))
  {
    assert ([']'] + x)[1..] == x;
  }

  lemma {:induction false} NextItem(s: string, t: string, v: Value, w: string, m: string, vs: seq<Value>, x: string)
    requires SkipTrivia(s) == Some(t) && t != "" && t[0] != ']' && ParseValue(t) == Some((v, w)) && SkipTrivia(w) == Some([','] + m)
    requires ParseItems(m) == Some((vs, x))
    ensures ParseItems(s) == Some(([v] + vs, x))
  {
    assert ([','] + m)[1..] == m;
  }

  /** The pieces of the array up to the end of what is read. */
  lemma {:induction false} ItemPieces(s: string, t: string, w: string, u: string, r: string, x: string)
    requires Tail(s, t) && Tail(t, w) && Tail(w, u) && u != "" && Tail(u[1..], r)
    ensures Tail(s, r)
    ensures Used(s, r) + x == Used(s, t) + (Used(t, w) + (Used(w, u) + ([u[0]] + (Used(u[1..], r) + x))))
  {
    UsedStep(u, r);
    UsedThrough(w, u, r);
    UsedThrough(t, w, r);
    UsedThrough(s, t, r);
    Join5(Used(s, t), Used(t, w), Used(w, u), [u[0]], Used(u[1..], r), x);
  }

  lemma {:induction false} LastPieces(s: string, t: string, w: string, u: string, x: string)
    requires Tail(s, t) && Tail(t, w) && Tail(w, u) && u != ""
    ensures Tail(s, u[1..]) && Used(s, u[1..]) + x == Used(s, t) + (Used(t, w) + (Used(w, u) + ([u[0]] + x)))
  {
    var r := u[1..];
    assert Tail(r, r) && Used(r, r) == "" && "" + x == x;
    ItemPieces(s, t, w, u, r, x);
  }

  /** The item and the separator, read again in front of `more`. */
  lemma {:induction false} ItemAgain(s: string, t: string, v: Value, w: string, u: string, more: string)
    requires SkipTrivia(s) == Some(t) && t != "" && t[0] != ']' && ParseValue(t) == Some((v, w))
    requires SkipTrivia(w) == Some(u) && u != "" && (u[0] == ']' || u[0] == ',')
    requires forall y :: Stops(y) ==> Tail(t, w) && ParseValue(Used(t, w) + y) == Some((v, y))
    ensures Tail(s, t) && Tail(t, w) && Tail(w, u)
    ensures var y := Used(w, u) + ([u[0]] + more); var i := Used(t, w) + y;
      && SkipTrivia(Used(s, t) + i) == Some(i) && i != "" && i[0] != ']' && ParseValue(i) == Some((v, y))
      && SkipTrivia(y) == Some([u[0]] + more)
  {
    var z := [u[0]] + more;
    TriviaLocal(w, z);
    TriviaStopsValue(w, u, z);
    var y := Used(w, u) + z;
    assert Stops(y);
    FirstChar(t, w, y);
    TriviaLocal(s, Used(t, w) + y);
  }

  /** An item and more items. */
  lemma {:induction false} NextLocal(s: string, t: string, v: Value, w: string, u: string, vs: seq<Value>, r: string, x: string)
    requires SkipTrivia(s) == Some(t) && t != "" && t[0] != ']' && ParseValue(t) == Some((v, w))
    requires SkipTrivia(w) == Some(u) && u != "" && u[0] == ',' && ParseItems(u[1..]) == Some((vs, r))
    requires forall y :: Stops(y) ==> Tail(t, w) && ParseValue(Used(t, w) + y) == Some((v, y))
    requires Tail(u[1..], r) && ParseItems(Used(u[1..], r) + x) == Some((vs, x))
    ensures ParseItems(s) == Some(([v] + vs, r)) && Tail(s, r) && ParseItems(Used(s, r) + x) == Some(([v] + vs, x))
  {
    var more := Used(u[1..], r) + x;
    assert u == [','] + u[1..];
    NextItem(s, t, v, w, u[1..], vs, r);
    ItemAgain(s, t, v, w, u, more);
    ItemPieces(s, t, w, u, r, x);
    var y := Used(w, u) + ([','] + more);
    NextItem(Used(s, t) + (Used(t, w) + y), Used(t, w) + y, v, y, more, vs, x);
  }

  /** The last item. */
  lemma {:induction false} LastLocal(s: string, t: string, v: Value, w: string, u: string, x: string)
    requires SkipTrivia(s) == Some(t) && t != "" && t[0] != ']' && ParseValue(t) == Some((v, w))
    requires SkipTrivia(w) == Some(u) && u != "" && u[0] == ']'
    requires forall y :: Stops(y) ==> Tail(t, w) && ParseValue(Used(t, w) + y) == Some((v, y))
    ensures ParseItems(s) == Some(([v], u[1..])) && Tail(s, u[1..]) && ParseItems(Used(s, u[1..]) + x) == Some(([v], x))
  {
    assert u == [']'] + u[1..];
    LastItem(s, t, v, w, u[1..]);
    ItemAgain(s, t, v, w, u, x);
    LastPieces(s, t, w, u, x);
    var y := Used(w, u) + ([']'] + x);
    LastItem(Used(s, t) + (Used(t, w) + y), Used(t, w) + y, v, y, x);
  }

  lemma {:induction false} ItemLocal(s: string, t: string, w: string, u: string, x: string)
    requires ParseItems(s).Some? && SkipTrivia(s) == Some(t) && t != "" && t[0] != ']'
    requires ParseValue(t).Some? && ParseValue(t).value.1 == w && SkipTrivia(w) == Some(u) && u != "" && (u[0] == ']' || u[0] == ',')
    ensures var r := ParseItems(s).value; Tail(s, r.1) && ParseItems(Used(s, r.1) + x) == Some((r.0, x))
    decreases |s|, 1
  {
    var v := ParseValue(t).value.0;
    forall y | Stops(y) ensures Tail(t, w) && ParseValue(Used(t, w) + y) == Some((v, y)) {
      ValueLocal(t, y);
    }
    if u[0] == ',' {
      ItemsLocal(u[1..], x);
      var rest := ParseItems(u[1..]).value;
      NextLocal(s, t, v, w, u, rest.0, rest.1, x);
    } else {
      LastLocal(s, t, v, w, u, x);
    }
  }

  lemma {:induction false} FirstChar(t: string, w: string, y: string)
    requires Tail(t, w) && |w| < |t|
    ensures Used(t, w) != "" && (Used(t, w) + y)[0] == t[0]
  {
  }

  lemma {:induction false} Join5(a: string, b: string, c: string, d: string, e: string, x: string)
    ensures (a + (b + (c + (d + e)))) + x == a + (b + (c + (d + (e + x))))
  {
  }
}
