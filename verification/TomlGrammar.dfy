/**
  A reader of whole documents made from the grammar alone: it takes the longest statement and the rest of its line, and
  knows nothing of the lexer.  What it takes does not depend on what follows.
 */
module TomlGrammar {
  import opened Wrappers
  import opened TomlLexer
  import opened TomlSyntax
  import opened TomlLocality
  import opened TomlLineBreaks

  // ---------- the reader ----------

  /** Behind a statement: blanks, a comment and a line break; what follows the line. */
  function TakeLine(s: string): (r: Option<string>)
    ensures r.Some? ==> |r.value| <= |s| && (s != "" ==> |r.value| < |s|)
  {
    var t := SkipWs(s);
    if t == "" then Some("")
    else if t[0] == '\n' then Some(t[1..])
    else if t[0] == '#' then
      var r := SkipComment(t[1..]);
      if r.None? then None else if r.value == "" then Some("") else Some(r.value[1..])
    else None
  }

  function TakeHeader(s: string): (r: Option<(Stmt, string)>)
    requires s != "" && s[0] == '['
  {
    var ofTables := |s| > 1 && s[1] == '[';
    var n := if ofTables then 2 else 1;
    var p := ParsePath(SkipWs(s[n..]));
    if p.None? then None
    else
      var t := p.value.1;
      if |t| < n || t[0] != ']' || t[n - 1] != ']' then None
      else
        var r := TakeLine(t[n..]);
        if r.None? then None else Some((Header(p.value.0, ofTables), r.value))
  }

  function TakeAssign(s: string): (r: Option<(Stmt, string)>) {
    var k := ParseKey(s);
    if k.None? then None
    else
      var t := SkipWs(k.value.1);
      if t == "" || t[0] != '=' then None
      else
        var v := ParseValue(SkipWs(t[1..]));
        if v.None? then None
        else
          var r := TakeLine(v.value.1);
          if r.None? then None else Some((Assign(k.value.0, v.value.0), r.value))
  }

  /** One statement, and the document behind its line. */
  function TakeStmt(s: string): Option<(Stmt, string)> {
    var blank := TakeLine(s);
    if blank.Some? then Some((Blank, blank.value))
    else if SkipWs(s) == "" then None
    else if SkipWs(s)[0] == '[' then TakeHeader(SkipWs(s))
    else TakeAssign(SkipWs(s))
  }

  // ---------- one line ----------

  lemma {:induction false} TakesLine(s: string)
    ensures LineEnds(s) <==> TakeLine(s) == Some("")
  {
    var t := SkipWs(s);
    if t != "" && t[0] == '\n' {
      assert t == "\n" <==> t[1..] == "";
    } else if t != "" && t[0] == '#' {
      var r := SkipComment(t[1..]);
      assert r.Some? && r.value != "" ==> (r.value == "\n" <==> r.value[1..] == "");
    }
  }

  /** A line break can only stand at the end of `p`. */
  predicate OneBreak(p: string) {
    forall i :: 0 <= i < |p| - 1 ==> p[i] != '\n'
  }

  predicate NoBreak(p: string) {
    forall i :: 0 <= i < |p| ==> p[i] != '\n'
  }

  lemma {:induction false} WsNoBreak(s: string)
    ensures Tail(s, SkipWs(s)) && NoBreak(Used(s, SkipWs(s)))
  {
    if s != "" && IsWs(s[0]) {
      WsNoBreak(s[1..]);
      UsedStep(s, SkipWs(s));
    }
  }

  lemma {:induction false} CommentNoBreak(s: string)
    requires SkipComment(s).Some?
    ensures Tail(s, SkipComment(s).value) && NoBreak(Used(s, SkipComment(s).value))
  {
    if s != "" && s[0] != '\n' {
      CommentNoBreak(s[1..]);
      UsedStep(s, SkipComment(s).value);
    }
  }

  lemma {:induction false} BreakAfter(p: string, q: string)
    requires NoBreak(p) && OneBreak(q)
    ensures OneBreak(p + q) && (Ended(q) ==> Ended(p + q)) && (q != "" && Ended(p + q) ==> Ended(q))
  {
  }

  lemma {:induction false} NoBreakAfter(p: string, q: string)
    requires NoBreak(p) && NoBreak(q)
    ensures NoBreak(p + q)
  {
  }

  /** The rest of a line holds one line break at most, at its end. */
  lemma {:induction false} LineShape(s: string)
    requires TakeLine(s).Some?
    ensures var r := TakeLine(s).value;
      Tail(s, r) && OneBreak(Used(s, r)) && (Ended(Used(s, r)) || r == "") && (Used(s, r) == "" ==> s == "")
  {
    var t, r := SkipWs(s), TakeLine(s).value;
    WsNoBreak(s);
    if t == "" {
      UsedThrough(s, t, "");
      assert OneBreak(Used(s, t)) && Used(s, "") == s;
    } else if t[0] == '\n' {
      UsedOne(t);
      UsedThrough(s, t, r);
      BreakAfter(Used(s, t), [t[0]]);
    } else {
      CommentLineShape(t);
      UsedThrough(s, t, r);
      BreakAfter(Used(s, t), Used(t, r));
    }
  }

  lemma {:induction false} CommentLineShape(t: string)
    requires t != "" && t[0] == '#' && SkipComment(t[1..]).Some?
    ensures var c := SkipComment(t[1..]).value; var r := if c == "" then "" else c[1..];
      Tail(t, r) && OneBreak(Used(t, r)) && (Ended(Used(t, r)) || r == "") && Used(t, r) != ""
  {
    var c := SkipComment(t[1..]).value;
    var r := if c == "" then "" else c[1..];
    CommentNoBreak(t[1..]);
    UsedStep(t, c);
    if c == "" {
      assert Used(t, r) == t && OneBreak(t);
    } else {
      UsedOne(c);
      UsedThrough(t, c, r);
      BreakAfter(Used(t, c), [c[0]]);
    }
  }

  lemma {:induction false} LineLocal(s: string, x: string)
    requires TakeLine(s).Some? && Tail(s, TakeLine(s).value) && (Ended(Used(s, TakeLine(s).value)) || x == "")
    ensures TakeLine(Used(s, TakeLine(s).value) + x) == Some(x)
  {
    var t, r := SkipWs(s), TakeLine(s).value;
    LineShape(s);
    WsNoBreak(s);
    if t == "" {
      BlankLineLocal(s, x);
    } else if t[0] == '\n' {
      var y := ['\n'] + x;
      WsLocal(s, y);
      UsedOne(t);
      UsedThrough(s, t, r);
      assert Used(s, r) + x == Used(s, t) + y && y[1..] == x;
    } else {
      CommentLineLocal(s, t, x);
    }
  }

  lemma {:induction false} BlankLineLocal(s: string, x: string)
    requires SkipWs(s) == "" && (Ended(s) || x == "")
    ensures Tail(s, "") && Used(s, "") == s && TakeLine(s + x) == Some(x)
  {
    WsNoBreak(s);
    assert Used(s, "") == s && NoBreak(s);
    assert s + "" == s;
  }

  lemma {:induction false} TailIs(s: string, q: string, r: string)
    requires s == q + r
    ensures Tail(s, r) && Used(s, r) == q
  {
  }

  lemma {:induction false} CommentLineLocal(s: string, t: string, x: string)
    requires t == SkipWs(s) && t != "" && t[0] == '#' && SkipComment(t[1..]).Some?
    requires Tail(s, TakeLine(s).value) && (Ended(Used(s, TakeLine(s).value)) || x == "")
    ensures TakeLine(Used(s, TakeLine(s).value) + x) == Some(x)
  {
    var c := SkipComment(t[1..]).value;
    WsNoBreak(s);
    CommentNoBreak(t[1..]);
    assert TakeLine(s) == Some(if c == "" then "" else c[1..]);
    if c == "" {
      OpenComment(s, t, x);
    } else {
      ClosedComment(s, t, c, Used(s, t), Used(t[1..], c), x);
    }
  }

  /** A comment up to the end of the document. */
  lemma {:induction false} OpenComment(s: string, t: string, x: string)
    requires t == SkipWs(s) && t != "" && t[0] == '#' && SkipComment(t[1..]) == Some("")
    requires Tail(s, t) && NoBreak(Used(s, t)) && Tail(t[1..], "") && NoBreak(Used(t[1..], "")) && (Ended(s) || x == "")
    ensures Tail(s, "") && Used(s, "") == s && TakeLine(s + x) == Some(x)
  {
    assert Used(t[1..], "") == t[1..];
    NoBreakAfter(['#'], t[1..]);
    assert ['#'] + t[1..] == t;
    NoBreakAfter(Used(s, t), t);
    assert s + "" == s;
  }

  lemma {:induction false} ClosedComment(s: string, t: string, c: string, a: string, b: string, x: string)
    requires t == SkipWs(s) && Tail(s, t) && a == Used(s, t) && t != "" && t[0] == '#'
    requires SkipComment(t[1..]) == Some(c) && c != "" && Tail(t[1..], c) && b == Used(t[1..], c)
    ensures Tail(s, c[1..]) && TakeLine(Used(s, c[1..]) + x) == Some(x)
  {
    var y := ['\n'] + x;
    var z := ['#'] + (b + y);
    CommentJoin(s, t, c, a, b, x);
    CommentLocal(t[1..], y);
    WsLocal(s, z);
    assert z[1..] == b + y && y[1..] == x;
  }

  lemma {:induction false} CommentJoin(s: string, t: string, c: string, a: string, b: string, x: string)
    requires s == a + t && t != "" && t[0] == '#' && t[1..] == b + c && c != "" && c[0] == '\n'
    ensures Tail(s, c[1..]) && Used(s, c[1..]) + x == a + (['#'] + (b + (['\n'] + x)))
  {
    var q := a + (['#'] + (b + ['\n']));
    assert t == ['#'] + t[1..] && c == ['\n'] + c[1..];
    assert s == q + c[1..];
    TailIs(s, q, c[1..]);
    assert q + x == a + (['#'] + (b + (['\n'] + x)));
  }

  // ---------- keys and paths ----------

  lemma {:induction false} OneLineNoBreak(s: string, q: Quote)
    requires OneLineString(s, q).Some?
    ensures var r := OneLineString(s, q).value.1; Tail(s, r) && NoBreak(Used(s, r))
    decreases |s|
  {
    var r := OneLineString(s, q).value.1;
    if s[0] == Mark(q) {
      UsedOne(s);
    } else if q.Basic? && s[0] == '\\' {
      var e := Escape(s[1..]).value;
      EscapeNoBreak(s[1..]);
      OneLineNoBreak(e.1, q);
      UsedThrough(s[1..], e.1, r);
      NoBreakAfter(Used(s[1..], e.1), Used(e.1, r));
      UsedStep(s, r);
    } else {
      OneLineNoBreak(s[1..], q);
      UsedStep(s, r);
    }
  }

  lemma {:induction false} HexNoBreak(s: string)
    requires Hex(s).Some?
    ensures NoBreak(s)
  {
    if s != "" {
      HexNoBreak(s[..|s| - 1]);
      assert forall i :: 0 <= i < |s| ==> s[i] == if i < |s| - 1 then s[..|s| - 1][i] else s[|s| - 1];
    }
  }

  lemma {:induction false} EscapeNoBreak(s: string)
    requires Escape(s).Some?
    ensures var r := Escape(s).value.1; Tail(s, r) && NoBreak(Used(s, r))
  {
    var r := Escape(s).value.1;
    UsedOne(s);
    if s[0] == 'u' || s[0] == 'U' {
      var digits := if s[0] == 'u' then 4 else 8;
      HexNoBreak(s[1..][..digits]);
      assert Used(s[1..], r) == s[1..][..digits];
      UsedStep(s, r);
    }
  }

  lemma {:induction false} KeyNoBreak(s: string)
    requires ParseKey(s).Some?
    ensures var r := ParseKey(s).value.1; Tail(s, r) && NoBreak(Used(s, r)) && Used(s, r) != ""
  {
    if s[0] == '"' {
      QuotedNoBreak(s, Basic);
    } else if s[0] == '\'' {
      QuotedNoBreak(s, Literal);
    } else {
      BareNoBreak(s, BareLength(s));
    }
  }

  lemma {:induction false} QuotedNoBreak(s: string, q: Quote)
    requires s != "" && s[0] == Mark(q) && OneLineString(s[1..], q).Some?
    ensures var r := OneLineString(s[1..], q).value.1; Tail(s, r) && NoBreak(Used(s, r)) && Used(s, r) != ""
  {
    OneLineNoBreak(s[1..], q);
    UsedStep(s, OneLineString(s[1..], q).value.1);
  }

  lemma {:induction false} BareNoBreak(s: string, n: nat)
    requires n <= |s| && forall i :: 0 <= i < n ==> IsBareKey(s[i])
    ensures Tail(s, s[n..]) && Used(s, s[n..]) == s[..n] && NoBreak(s[..n])
  {
  }

  lemma {:induction false} BareLocal(s: string, n: nat, x: string)
    requires n == BareLength(s) && (x == "" || !IsBareKey(x[0]))
    ensures BareLength(s[..n] + x) == n
    decreases n
  {
    var t := s[..n] + x;
    if n > 0 {
      BareLocal(s[1..], n - 1, x);
      assert t[1..] == s[1..][..n - 1] + x;
    } else {
      assert t == x;
    }
  }

  lemma {:induction false} KeyLocal(s: string, x: string)
    requires ParseKey(s).Some? && (x == "" || !IsBareKey(x[0]))
    ensures var r := ParseKey(s).value; Tail(s, r.1) && ParseKey(Used(s, r.1) + x) == Some((r.0, x))
  {
    var r := ParseKey(s).value;
    if s[0] == '"' {
      OneLineLocal(s[1..], Basic, x);
      UsedStep(s, r.1);
      Cons(s[0], Used(s[1..], r.1), x);
    } else if s[0] == '\'' {
      OneLineLocal(s[1..], Literal, x);
      UsedStep(s, r.1);
      Cons(s[0], Used(s[1..], r.1), x);
    } else {
      var n := BareLength(s);
      BareLocal(s, n, x);
      var t := s[..n] + x;
      assert Used(s, r.1) == s[..n] && t[0] == s[0] && t[..n] == s[..n] && t[n..] == x;
    }
  }

  /** A key and the blanks behind it. */
  lemma {:induction false} KeyWsLocal(s: string, x: string)
    requires ParseKey(s).Some? && x != "" && !IsBareKey(x[0]) && !IsWs(x[0])
    ensures var (k, r) := ParseKey(s).value; var t := SkipWs(r);
      Tail(s, t) && NoBreak(Used(s, t)) && Used(s, t) != "" &&
      ParseKey(Used(s, t) + x).Some? && ParseKey(Used(s, t) + x).value.0 == k && SkipWs(ParseKey(Used(s, t) + x).value.1) == x
  {
    var (k, r) := ParseKey(s).value;
    var t := SkipWs(r);
    KeyNoBreak(s);
    WsNoBreak(r);
    UsedThrough(s, r, t);
    NoBreakAfter(Used(s, r), Used(r, t));
    WsLocal(r, x);
    var y := Used(r, t) + x;
    WsFirst(r, t, x);
    KeyLocal(s, y);
    assert Used(s, t) + x == Used(s, r) + y;
  }

  /** Blanks or what follows them cannot go on with a key. */
  lemma {:induction false} WsFirst(r: string, t: string, x: string)
    requires t == SkipWs(r) && Tail(r, t) && x != "" && !IsBareKey(x[0])
    ensures var y := Used(r, t) + x; y != "" && !IsBareKey(y[0])
  {
    if r != "" && IsWs(r[0]) {
      assert Used(r, t) != "" && Used(r, t)[0] == r[0];
    } else {
      assert Used(r, t) == "";
    }
  }

  /** What stands in front of the tail is on one line. */
  predicate OnLine(s: string, r: string) {
    Tail(s, r) && NoBreak(Used(s, r))
  }

  lemma {:induction false} OnLineThrough(s: string, t: string, r: string)
    requires OnLine(s, t) && OnLine(t, r)
    ensures OnLine(s, r)
  {
    UsedThrough(s, t, r);
    NoBreakAfter(Used(s, t), Used(t, r));
  }

  lemma {:induction false} OnLineStep(s: string, r: string)
    requires s != "" && s[0] != '\n' && OnLine(s[1..], r)
    ensures OnLine(s, r)
  {
    UsedStep(s, r);
  }

  lemma {:induction false} PathShape(s: string)
    requires ParsePath(s).Some?
    ensures OnLine(s, ParsePath(s).value.1) && |ParsePath(s).value.1| < |s|
    decreases |s|
  {
    var r := ParseKey(s).value.1;
    var t := SkipWs(r);
    KeyNoBreak(s);
    WsNoBreak(r);
    OnLineThrough(s, r, t);
    if t != "" && t[0] == '.' {
      var u := SkipWs(t[1..]);
      PathShape(u);
      WsNoBreak(t[1..]);
      OnLineStep(t, u);
      OnLineThrough(s, t, u);
      OnLineThrough(s, u, ParsePath(u).value.1);
    }
  }

  /** The path of a header, in front of its closing bracket. */
  lemma {:induction false} PathLocal(s: string, x: string)
    requires ParsePath(s).Some? && x != "" && x[0] == ']'
    ensures var (p, t) := ParsePath(s).value; Tail(s, t) && ParsePath(Used(s, t) + x) == Some((p, x))
    decreases |s|
  {
    var k := ParseKey(s).value;
    var t := SkipWs(k.1);
    PathShape(s);
    if t != "" && t[0] == '.' {
      var u := SkipWs(t[1..]);
      var (p, rest) := ParsePath(u).value;
      PathShape(u);
      PathLocal(u, x);
      NextLocal(s, k.0, t, u, Used(u, rest), rest, p, x);
    } else {
      KeyWsLocal(s, x);
    }
  }

  lemma {:induction false} NextLocal(s: string, k: string, t: string, u: string, c: string, rest: string, p: seq<string>, x: string)
    requires ParseKey(s).Some? && ParseKey(s).value.0 == k && SkipWs(ParseKey(s).value.1) == t && t != "" && t[0] == '.'
    requires u == SkipWs(t[1..]) && u == c + rest && c != "" && ParsePath(c + x) == Some((p, x))
    ensures Tail(s, rest) && ParsePath(Used(s, rest) + x) == Some(([k] + p, x))
  {
    DotLocal(t, u, c, rest, x);
    var b := Used(t[1..], u);
    var d := ['.'] + (b + (c + x));
    KeyWsLocal(s, d);
    var a := Used(s, t);
    DottedPieces(s, t, a, b, c, rest, x);
    NextKey(a + d, k, d, c + x, p, x);
  }

  lemma {:induction false} DottedPieces(s: string, t: string, a: string, b: string, c: string, rest: string, x: string)
    requires s == a + t && t != "" && t[0] == '.' && t[1..] == b + (c + rest)
    ensures Tail(s, rest) && Used(s, rest) + x == a + (['.'] + (b + (c + x)))
  {
    var q := a + (['.'] + (b + c));
    assert t == ['.'] + t[1..];
    assert s == q + rest;
    TailIs(s, q, rest);
    assert q + x == a + (['.'] + (b + (c + x)));
  }

  /** Behind a dot the blanks are skipped again. */
  lemma {:induction false} DotLocal(t: string, u: string, p: string, rest: string, x: string)
    requires t != "" && u == SkipWs(t[1..]) && u == p + rest && p != ""
    ensures Tail(t[1..], u) && SkipWs(Used(t[1..], u) + (p + x)) == p + x
  {
    WsStopsAt(t[1..], u, p, rest, x);
    WsLocal(t[1..], p + x);
  }

  lemma {:induction false} NextKey(s: string, k: string, d: string, y: string, p: seq<string>, x: string)
    requires ParseKey(s).Some? && ParseKey(s).value.0 == k && SkipWs(ParseKey(s).value.1) == d
    requires d != "" && d[0] == '.' && SkipWs(d[1..]) == y && ParsePath(y) == Some((p, x))
    ensures ParsePath(s) == Some(([k] + p, x))
  {
  }

  lemma {:induction false} WsStopsAt(w: string, u: string, p: string, rest: string, x: string)
    requires u == SkipWs(w) && u == p + rest && p != ""
    ensures var y := p + x; y != "" && !IsWs(y[0])
  {
    WsStop(w);
  }

  // ---------- statements ----------

  /** What a line may look like: one line break at most, at its end, and missing only at the end of the document. */
  predicate LineLike(s: string, r: string) {
    Tail(s, r) && OneBreak(Used(s, r)) && (Ended(Used(s, r)) || r == "")
  }

  lemma {:induction false} RestLocal(l: string, r: string, e: string, x: string)
    requires TakeLine(l) == Some(r) && Tail(l, r) && e == Used(l, r) && (Ended(e) || x == "")
    ensures TakeLine(e + x) == Some(x)
  {
    LineLocal(l, x);
  }

  /** Where the parts of a header start. */
  lemma {:induction false} HeaderCuts(s: string) returns (n: nat, w: string, p: seq<string>, t: string, r: string)
    requires s != "" && s[0] == '[' && TakeHeader(s).Some?
    ensures 1 <= n <= 2 && n <= |s| && s[n - 1] == '[' && (n == 2 <==> |s| > 1 && s[1] == '[') && w == SkipWs(s[n..])
    ensures ParsePath(w) == Some((p, t)) && |t| >= n && t[0] == ']' && t[n - 1] == ']' && TakeLine(t[n..]) == Some(r)
    ensures TakeHeader(s) == Some((Header(p, n == 2), r))
  {
    n := if |s| > 1 && s[1] == '[' then 2 else 1;
    w := SkipWs(s[n..]);
    p, t := ParsePath(w).value.0, ParsePath(w).value.1;
    r := TakeLine(t[n..]).value;
  }

  lemma {:induction false} HeaderLocal(s: string, x: string)
    requires s != "" && s[0] == '[' && TakeHeader(s).Some?
    ensures var (h, r) := TakeHeader(s).value;
      LineLike(s, r) && (Ended(Used(s, r)) || x == "" ==> TakeHeader(Used(s, r) + x) == Some((h, x)))
  {
    var n, w, p, t, r := HeaderCuts(s);
    WsNoBreak(s[n..]);
    PathShape(w);
    LineShape(t[n..]);
    var b, c, d, e := Used(s[n..], w), Used(w, t), t[..n], Used(t[n..], r);
    FiveParts(s, n, w, t, b, c, d, e, r);
    HeaderPieces(s, n, s[..n], b, c, d, e, r);
    if Ended(Used(s, r)) || x == "" {
      RestLocal(t[n..], r, e, x);
      HeaderStill(s, n, w, p, t, b, c, d, e, x);
      JoinFive(s[..n], b, c, d, e, x);
    }
  }

  lemma {:induction false} FiveParts(s: string, n: nat, w: string, t: string, b: string, c: string, d: string, e: string, r: string)
    requires n <= |s| && s[n..] == b + w && w == c + t && n <= |t| && d == t[..n] && t[n..] == e + r
    ensures s == s[..n] + (b + (c + (d + (e + r))))
  {
    assert t == d + (e + r);
  }

  lemma {:induction false} JoinFive(a: string, b: string, c: string, d: string, e: string, x: string)
    ensures (a + (b + (c + (d + e)))) + x == a + (b + (c + (d + (e + x))))
  {
  }

  lemma {:induction false} HeaderStill(s: string, n: nat, w: string, p: seq<string>, t: string, b: string, c: string, d: string, e: string,
                                       x: string)
    requires 1 <= n <= 2 && |s| >= n && s[0] == '[' && (n == 2 <==> |s| > 1 && s[1] == '[')
    requires w == SkipWs(s[n..]) && Tail(s[n..], w) && b == Used(s[n..], w)
    requires ParsePath(w) == Some((p, t)) && Tail(w, t) && c == Used(w, t) && c != ""
    requires |d| == n && d[0] == ']' && d[n - 1] == ']' && TakeLine(e + x) == Some(x)
    ensures TakeHeader(s[..n] + (b + (c + (d + (e + x))))) == Some((Header(p, n == 2), x))
  {
    var y := d + (e + x);
    PathLocal(w, y);
    WsStopsAt(s[n..], w, c, t, y);
    WsLocal(s[n..], c + y);
    HeaderFirst(s, n, b, c, y, w, t);
    HeaderAgain(s, n, b, c + y, p, d, e + x, x);
  }

  /** The parts of a header line. */
  lemma {:induction false} HeaderPieces(s: string, n: nat, a: string, b: string, c: string, d: string, e: string, r: string)
    requires s == a + (b + (c + (d + (e + r)))) && NoBreak(b) && NoBreak(c) && c != "" && OneBreak(e) && (Ended(e) || r == "")
    requires 1 <= n <= 2 && |a| == n && a[0] == '[' && a[n - 1] == '[' && |d| == n && d[0] == ']' && d[n - 1] == ']'
    ensures LineLike(s, r) && Used(s, r) == a + (b + (c + (d + e))) && (Ended(Used(s, r)) ==> Ended(e))
  {
    var q := a + (b + (c + (d + e)));
    assert s == q + r;
    TailIs(s, q, r);
    BreakAfter(d, e);
    BreakAfter(c, d + e);
    BreakAfter(b, c + (d + e));
    BreakAfter(a, b + (c + (d + e)));
    if Ended(q) {
      LastOfJoined(a, b, c, d, e);
    }
  }

  lemma {:induction false} LastOfJoined(a: string, b: string, c: string, d: string, e: string)
    requires Ended(a + (b + (c + (d + e)))) && d != "" && !Ended(d)
    ensures Ended(e)
  {
    assert (a + (b + (c + (d + e)))) == (a + (b + c)) + (d + e);
    assert Ended(d + e);
  }

  /** The second character decides as before whether it is an array. */
  lemma {:induction false} HeaderFirst(s: string, n: nat, b: string, c: string, y: string, w: string, t: string)
    requires 1 <= n <= |s| && s[n..] == b + w && w == c + t && c != ""
    ensures (b + (c + y))[0] == s[n]
  {
    assert s[n] == s[n..][0];
  }

  lemma {:induction false} HeaderAgain(s: string, n: nat, b: string, c: string, p: seq<string>, d: string, e: string, x: string)
    requires 1 <= n <= 2 && |s| >= n && s[0] == '[' && (n == 2 <==> |s| > 1 && s[1] == '[')
    requires SkipWs(b + c) == c && ParsePath(c) == Some((p, d + e)) && |d| == n && d[0] == ']' && d[n - 1] == ']'
    requires TakeLine(e) == Some(x) && c != "" && (n == 1 ==> (b + c)[0] != '[')
    ensures TakeHeader(s[..n] + (b + c)) == Some((Header(p, n == 2), x))
  {
    Fronted(s[..n], b + c);
    Fronted(d, e);
    HeaderIs(s[..n] + (b + c), n, c, p, d + e, e, x);
  }

  lemma {:induction false} Fronted(a: string, b: string)
    requires a != ""
    ensures (a + b)[..|a|] == a && (a + b)[|a|..] == b && (a + b)[0] == a[0] && (a + b)[|a| - 1] == a[|a| - 1]
    ensures b != "" ==> (a + b)[|a|] == b[0]
  {
  }

  lemma {:induction false} HeaderIs(z: string, n: nat, c: string, p: seq<string>, t: string, e: string, x: string)
    requires 1 <= n <= 2 && |z| > n && z[0] == '[' && (n == 2 <==> z[1] == '[')
    requires SkipWs(z[n..]) == c && ParsePath(c) == Some((p, t)) && |t| >= n && t[0] == ']' && t[n - 1] == ']'
    requires t[n..] == e && TakeLine(e) == Some(x)
    ensures TakeHeader(z) == Some((Header(p, n == 2), x))
  {
  }

  /** The parts of an assignment: key and blanks, equals sign, blanks, value, rest of the line. */
  lemma {:induction false} AssignPieces(s: string, a: string, b: string, c: string, e: string, r: string, y: string)
    requires s == a + (['='] + (b + (c + (e + r)))) && c != ""
    ensures Tail(s, r) && Used(s, r) == a + (['='] + (b + (c + e)))
    ensures Used(s, r) + y == a + (['='] + (b + (c + (e + y))))
    ensures Ended(Used(s, r)) <==> if e == "" then Ended(c) else Ended(e)
  {
    var q := a + (['='] + (b + (c + e)));
    assert s == q + r;
    TailIs(s, q, r);
    assert q + y == a + (['='] + (b + (c + (e + y))));
    assert q == (a + (['='] + b)) + (c + e);
    assert e == "" ==> c + e == c;
  }

  lemma {:induction false} AssignAgain(z: string, k: string, d: string, w: string, v: Value, l: string, y: string)
    requires ParseKey(z).Some? && ParseKey(z).value.0 == k && SkipWs(ParseKey(z).value.1) == d && d != "" && d[0] == '='
    requires SkipWs(d[1..]) == w && ParseValue(w) == Some((v, l)) && TakeLine(l) == Some(y)
    ensures TakeAssign(z) == Some((Assign(k, v), y))
  {
  }

  /** What stands behind a value does not go on with it. */
  lemma {:induction false} LineStops(z: string)
    requires TakeLine(z).Some?
    ensures Stops(z)
  {
    if z != "" && !IsWs(z[0]) {
      assert SkipWs(z) == z;
    }
  }

  lemma {:induction false} RestStopsOn(z: string, e: string, r: string, y: string)
    requires TakeLine(z) == Some(r) && z == e + r && (e == "" ==> z == "" && y == "")
    ensures Stops(e + y)
  {
    LineStops(z);
    if e != "" {
      assert (e + y)[0] == e[0] == z[0];
    }
  }

  /** Where the parts of an assignment start. */
  lemma {:induction false} AssignCuts(s: string) returns (t: string, w: string, z: string, r: string)
    requires TakeAssign(s).Some?
    ensures ParseKey(s).Some? && t == SkipWs(ParseKey(s).value.1) && t != "" && t[0] == '=' && w == SkipWs(t[1..])
    ensures ParseValue(w).Some? && z == ParseValue(w).value.1 && TakeLine(z) == Some(r)
    ensures TakeAssign(s) == Some((Assign(ParseKey(s).value.0, ParseValue(w).value.0), r))
  {
    t := SkipWs(ParseKey(s).value.1);
    w := SkipWs(t[1..]);
    z := ParseValue(w).value.1;
    r := TakeLine(z).value;
  }

  lemma {:induction false} AssignUses(s: string, t: string, w: string, z: string, r: string)
    returns (a: string, b: string, c: string, e: string)
    requires ParseKey(s).Some? && t == SkipWs(ParseKey(s).value.1) && t != "" && t[0] == '=' && w == SkipWs(t[1..])
    requires ParseValue(w).Some? && z == ParseValue(w).value.1 && TakeLine(z) == Some(r)
    ensures Tail(s, t) && a == Used(s, t) && a != "" && NoBreak(a) && Tail(t[1..], w) && b == Used(t[1..], w) && NoBreak(b)
    ensures Tail(w, z) && c == Used(w, z) && c != "" && !Ended(c) && Tail(z, r) && e == Used(z, r)
    ensures OneBreak(e) && (Ended(e) || r == "") && (e == "" ==> z == "")
    ensures s == a + (['='] + (b + (c + (e + r))))
  {
    KeyWsLocal(s, "=");
    WsNoBreak(t[1..]);
    ValueEnd(w);
    LineShape(z);
    a, b, c, e := Used(s, t), Used(t[1..], w), Used(w, z), Used(z, r);
    AssignParts5(s, a, b, c, e, t, w, z, r);
    NotEnded(w, z, c);
  }

  lemma {:induction false} NotEnded(w: string, z: string, c: string)
    requires EndsWell(w, z) && w == c + z
    ensures c != "" && !Ended(c)
  {
    assert c[|c| - 1] == w[|w| - |z| - 1];
  }

  lemma {:induction false} AssignParts5(s: string, a: string, b: string, c: string, e: string, t: string, w: string, z: string, r: string)
    requires s == a + t && t != "" && t[0] == '=' && t[1..] == b + w && w == c + z && z == e + r
    ensures s == a + (['='] + (b + (c + (e + r))))
  {
    assert t == ['='] + t[1..];
  }

  lemma {:induction false} AssignLocal(s: string, y: string)
    requires TakeAssign(s).Some?
    ensures var (h, r) := TakeAssign(s).value;
      Tail(s, r) && (Ended(Used(s, r)) || r == "") && Used(s, r) != "" && Used(s, r)[0] == s[0] &&
      (Ended(Used(s, r)) || y == "" ==> TakeAssign(Used(s, r) + y) == Some((h, y)))
  {
    var t, w, z, r := AssignCuts(s);
    var a, b, c, e := AssignUses(s, t, w, z, r);
    AssignPieces(s, a, b, c, e, r, y);
    if Ended(Used(s, r)) || y == "" {
      RestStopsOn(z, e, r, y);
      LineLocal(z, y);
      ValueLocal(w, e + y);
      AssignStill(s, a, b, c, e, t, w, z, ParseValue(w).value.0, y);
    }
  }

  lemma {:induction false} Tailed(c: char, s: string)
    ensures ([c] + s)[0] == c && ([c] + s)[1..] == s
  {
  }

  lemma {:induction false} AssignStill(s: string, a: string, b: string, c: string, e: string, t: string, w: string, z: string, v: Value,
                                       y: string)
    requires ParseKey(s).Some? && t == SkipWs(ParseKey(s).value.1) && t != "" && t[0] == '=' && w == SkipWs(t[1..])
    requires ParseValue(c + (e + y)) == Some((v, e + y)) && TakeLine(e + y) == Some(y)
    requires Tail(s, t) && a == Used(s, t) && Tail(t[1..], w) && b == Used(t[1..], w) && w == c + z && c != ""
    ensures TakeAssign(a + (['='] + (b + (c + (e + y))))) == Some((Assign(ParseKey(s).value.0, v), y))
  {
    var l := e + y;
    WsStopsAt(t[1..], w, c, z, l);
    WsLocal(t[1..], c + l);
    var d := ['='] + (b + (c + l));
    KeyWsLocal(s, d);
    Tailed('=', b + (c + l));
    AssignAgain(a + d, ParseKey(s).value.0, d, c + l, v, l, y);
  }

  // ---------- a statement does not depend on what follows its line ----------

  lemma {:induction false} StmtIs(s: string, u: string)
    requires SkipWs(s) == u && u != "" && u[0] != '\n' && u[0] != '#'
    ensures TakeStmt(s) == if u[0] == '[' then TakeHeader(u) else TakeAssign(u)
  {
  }

  lemma {:induction false} Indented(s: string, u: string, p: string, r: string, y: string)
    requires u == SkipWs(s) && Tail(u, r) && p == Used(u, r) && p != ""
    ensures Tail(s, r) && Tail(s, u) && NoBreak(Used(s, u)) && Used(s, r) == Used(s, u) + p
    ensures Used(s, r) + y == Used(s, u) + (p + y) && SkipWs(Used(s, r) + y) == p + y
    ensures Ended(Used(s, r)) <==> Ended(p)
  {
    WsNoBreak(s);
    UsedThrough(s, u, r);
    WsStopsAt(s, u, p, r, y);
    WsLocal(s, p + y);
    assert Used(s, r) + y == Used(s, u) + (p + y);
  }

  lemma {:induction false} StmtAgain(s: string, u: string, p: string, h: Stmt, y: string)
    requires SkipWs(s) == p + y && p != "" && u != "" && p[0] == u[0] && u[0] != '\n' && u[0] != '#'
    requires if u[0] == '[' then TakeHeader(p + y) == Some((h, y)) else TakeAssign(p + y) == Some((h, y))
    ensures TakeStmt(s) == Some((h, y))
  {
    assert (p + y)[0] == p[0];
    StmtIs(s, p + y);
  }

  lemma {:induction false} StmtLocal(s: string, y: string)
    requires TakeStmt(s).Some?
    ensures var (h, r) := TakeStmt(s).value;
      Tail(s, r) && (Ended(Used(s, r)) || r == "") && (Ended(Used(s, r)) || y == "" ==> TakeStmt(Used(s, r) + y) == Some((h, y)))
  {
    if TakeLine(s).Some? {
      LineShape(s);
      if Ended(Used(s, TakeLine(s).value)) || y == "" {
        LineLocal(s, y);
      }
    } else {
      var (h, r) := TakeStmt(s).value;
      var u := SkipWs(s);
      FullLocal(u, h, r, y);
      Indented(s, u, Used(u, r), r, y);
      if Ended(Used(s, r)) || y == "" {
        StmtAgain(Used(s, r) + y, u, Used(u, r), h, y);
      }
    }
  }

  /** A header or an assignment behind its indentation. */
  lemma {:induction false} FullLocal(u: string, h: Stmt, r: string, y: string)
    requires u != "" && (if u[0] == '[' then TakeHeader(u) else TakeAssign(u)) == Some((h, r))
    ensures Tail(u, r) && (Ended(Used(u, r)) || r == "") && Used(u, r) != "" && Used(u, r)[0] == u[0]
    ensures Ended(Used(u, r)) || y == "" ==>
      (if u[0] == '[' then TakeHeader(Used(u, r) + y) else TakeAssign(Used(u, r) + y)) == Some((h, y))
  {
    if u[0] == '[' {
      HeaderLocal(u, y);
      HeaderStarts(u);
    } else {
      AssignLocal(u, y);
    }
  }

  lemma {:induction false} HeaderStarts(s: string)
    requires s != "" && s[0] == '[' && TakeHeader(s).Some?
    ensures var r := TakeHeader(s).value.1; |r| < |s| && (Tail(s, r) ==> Used(s, r) != "" && Used(s, r)[0] == '[')
  {
    var n := if |s| > 1 && s[1] == '[' then 2 else 1;
    PathShape(SkipWs(s[n..]));
  }

  /** Taking a whole chunk is parsing it as one logical line. */
  lemma {:induction false} TakesChunk(c: string)
    ensures forall h :: TakeStmt(c) == Some((h, "")) <==> ParseUnix(c) == Some(h)
  {
    var u := SkipWs(c);
    TakesLine(c);
    TakesLine(u);
    WsTwice(c);
    if u != "" && u[0] == '[' {
      var n := if |u| > 1 && u[1] == '[' then 2 else 1;
      var p := ParsePath(SkipWs(u[n..]));
      if p.Some? && |p.value.1| >= n {
        TakesLine(p.value.1[n..]);
      }
    } else if u != "" {
      var k := ParseKey(u);
      if k.Some? {
        var t := SkipWs(k.value.1);
        if t != "" {
          var v := ParseValue(SkipWs(t[1..]));
          if v.Some? {
            TakesLine(v.value.1);
          }
        }
      }
    }
  }

  lemma {:induction false} WsTwice(s: string)
    ensures SkipWs(SkipWs(s)) == SkipWs(s) && TakeLine(SkipWs(s)) == TakeLine(s)
  {
    if s != "" && IsWs(s[0]) {
      WsTwice(s[1..]);
    }
  }
}
