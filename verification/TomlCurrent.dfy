/**
  Which lines `replace_toml_scalar` can work on: those that assign the key, and of these the ones whose value it reads as the
  document has it.
 */
module TomlCurrent {
  import opened Text
  import opened Wrappers
  import opened TomlLexer
  import opened TomlSyntax
  import opened TomlAgreement
  import opened TomlWriter
  import opened TomlScalars
  import opened TomlRoundTrip
  import opened TomlReplace
  import Locality = TomlLocality
  import Breaks = TomlLineBreaks

  // ---------- the lines that assign a key ----------

  /** A bare key and an equals sign, with any blanks around the key. */
  predicate AssignsWith(body: string, key: string, a: string, b: string, rest: string) {
    Spaces(a) && Spaces(b) && IsBare(key) && body == a + key + b + "=" + rest
  }

  lemma {:induction false} SpaceEndAt(s: string, i: nat, n: nat)
    requires i <= n <= |s| && (forall j :: i <= j < n ==> IsSpace(s[j])) && (n < |s| ==> !IsSpace(s[n]))
    ensures SpaceEnd(s, i) == n
    decreases n - i
  {
    if i < n {
      SpaceEndAt(s, i + 1, n);
    }
  }

  lemma {:induction false} BareEndAt(s: string, i: nat, n: nat)
    requires i <= n <= |s| && (forall j :: i <= j < n ==> IsBareKey(s[j])) && (n < |s| ==> !IsBareKey(s[n]))
    ensures BareEnd(s, i) == n
    decreases n - i
  {
    if i < n {
      BareEndAt(s, i + 1, n);
    }
  }

  /** The characters of a line made of these parts. */
  lemma {:induction false} PartsAt(body: string, a: string, key: string, b: string, rest: string)
    requires body == a + key + b + "=" + rest
    ensures |body| == |a| + |key| + |b| + 1 + |rest|
    ensures forall j :: 0 <= j < |a| ==> body[j] == a[j]
    ensures forall j :: |a| <= j < |a| + |key| ==> body[j] == key[j - |a|]
    ensures forall j :: |a| + |key| <= j < |a| + |key| + |b| ==> body[j] == b[j - |a| - |key|]
    ensures body[|a| + |key| + |b|] == '='
    ensures body[|a|..|a| + |key|] == key
  {
  }

  lemma {:induction false} AssignedWith(body: string, key: string, a: string, b: string, rest: string)
    requires AssignsWith(body, key, a, b, rest)
    ensures MatchAssignment(body).Some? && MatchAssignment(body).value.key == key
  {
    var k, e := |a| + |key|, |a| + |key| + |b|;
    PartsAt(body, a, key, b, rest);
    assert !IsSpace(body[|a|]) by {
      assert IsBareKey(key[0]);
    }
    SpaceEndAt(body, 0, |a|);
    assert k < |body| && !IsBareKey(body[k]) by {
      assert body[k] == if b == "" then '=' else b[0];
    }
    BareEndAt(body, |a|, k);
    SpaceEndAt(body, k, e);
  }

  /** The pattern takes a line for an assignment to the key exactly if it has this form. */
  lemma {:induction false} AssignsExactly(line: string, key: string)
    ensures AssignsKey(line, key) <==> exists a, b, rest :: AssignsWith(Body(line), key, a, b, rest)
  {
    if AssignsKey(line, key) {
      var m := MatchAssignment(Body(line)).value;
      MatchGroups(Body(line), m);
      Regroup(m);
      assert AssignsWith(Body(line), key, m.indent, m.before, m.after + m.payload);
    }
    forall a, b, rest | AssignsWith(Body(line), key, a, b, rest) ensures AssignsKey(line, key) {
      AssignedWith(Body(line), key, a, b, rest);
    }
  }

  lemma {:induction false} Regroup(m: Parts)
    ensures m.Head() + m.payload == m.indent + m.key + m.before + "=" + (m.after + m.payload)
  {
  }

  // ---------- the payload as the grammar reads it ----------

  /** CRLF at the end of a line is the only one in it. */
  lemma {:induction false} UnixLine(body: string, lineBreak: string)
    requires Without(body, '\n') && (lineBreak == "" || lineBreak == "\n" || lineBreak == "\r\n")
    requires lineBreak == "\n" ==> body == "" || body[|body| - 1] != '\r'
    ensures Unix(body + lineBreak) == body + (if lineBreak == "" then "" else "\n")
    decreases |body|
  {
    if body == "" {
      BreakIsUnix(lineBreak);
    } else {
      var s := body + lineBreak;
      assert s[0] == body[0] && s[1..] == body[1..] + lineBreak;
      assert |s| >= 2 ==> !(s[0] == '\r' && s[1] == '\n') by {
        assert |body| >= 2 ==> s[1] == body[1];
        assert |body| == 1 && lineBreak != "" ==> s[1] == lineBreak[0];
      }
      UnixLine(body[1..], lineBreak);
      FirstAndRest(body, if lineBreak == "" then "" else "\n");
    }
  }

  lemma {:induction false} BreakIsUnix(lineBreak: string)
    requires lineBreak == "" || lineBreak == "\n" || lineBreak == "\r\n"
    ensures Unix("" + lineBreak) == "" + (if lineBreak == "" then "" else "\n")
  {
    assert "" + lineBreak == lineBreak;
    if lineBreak == "\n" {
      assert lineBreak[1..] == "";
    } else if lineBreak == "\r\n" {
      assert lineBreak[2..] == "";
    }
  }

  /** How much of a payload the grammar takes as its value. */
  function Taken(p: string): nat
    requires ParseValue(p).Some?
  {
    |p| - |ParseValue(p).value.1|
  }

  /** The payload with the line's end, as the grammar sees it. */
  function Ending(line: string, a: Parts): string {
    a.payload + (if LineBreak(line) == "" then "" else "\n")
  }

  lemma {:induction false} LineIs(line: string, a: Parts)
    requires IsLine(line) && MatchAssignment(Body(line)) == Some(a)
    ensures Unix(line) == a.Head() + Ending(line, a) && Without(a.Head(), '\n') && Without(a.payload, '\n')
  {
    var end := if LineBreak(line) == "" then "" else "\n";
    MatchGroups(Body(line), a);
    BodyAndBreak(line);
    NoReturnBefore(line);
    UnixLine(Body(line), LineBreak(line));
    WithoutAppend(a.Head(), a.payload, '\n');
    Assoc(a.Head(), a.payload, end);
  }

  /** What the grammar reads behind the head of an assignment line. */
  lemma {:induction false} LineReads(line: string, a: Parts, key: string, v: Value)
    requires IsLine(line) && MatchAssignment(Body(line)) == Some(a) && ParseStmt(line) == Some(Assign(key, v))
    ensures var r := ParseValue(Ending(line, a)); r.Some? && r.value.0 == v && LineEnds(r.value.1) && key == a.key
  {
    LineIs(line, a);
    MatchGroups(Body(line), a);
    PartsParse(a, Ending(line, a));
  }

  lemma {:induction false} NoReturnBefore(line: string)
    ensures LineBreak(line) == "\n" ==> Body(line) == "" || Body(line)[|Body(line)| - 1] != '\r'
  {
    var n := |line|;
    assert n >= 2 ==> line[n - 2..] == [line[n - 2], line[n - 1]];
  }

  // ---------- the value the document has, and the one that is read ----------

  /** The value is read from the payload alone, and ends in it. */
  lemma {:induction false} PayloadReads(line: string, a: Parts, key: string, v: Value)
    requires IsLine(line) && MatchAssignment(Body(line)) == Some(a) && ParseStmt(line) == Some(Assign(key, v))
    ensures var r := ParseValue(a.payload); r.Some? && r.value.0 == v && LineEnds(r.value.1) && Locality.Tail(a.payload, r.value.1)
    ensures !IsSpace(a.payload[Taken(a.payload) - 1])
  {
    LineReads(line, a, key, v);
    LineIs(line, a);
    EndingIs(line, a);
    AloneReads(a.payload, Ending(line, a), v);
  }

  lemma {:induction false} EndingIs(line: string, a: Parts)
    ensures Ending(line, a) == a.payload || Ending(line, a) == Breaks.Broken(a.payload)
  {
    assert a.payload + "" == a.payload;
  }

  lemma {:induction false} AloneReads(p: string, s: string, v: Value)
    requires Without(p, '\n') && (s == p || s == Breaks.Broken(p))
    requires ParseValue(s).Some? && ParseValue(s).value.0 == v && LineEnds(ParseValue(s).value.1)
    ensures var r := ParseValue(p); r.Some? && r.value.0 == v && LineEnds(r.value.1) && Locality.Tail(p, r.value.1)
    ensures !IsSpace(p[Taken(p) - 1])
  {
    if s != p {
      Unbreak(p, v);
    }
    TakenEnd(p);
  }

  lemma {:induction false} TakenEnd(p: string)
    requires ParseValue(p).Some?
    ensures Locality.Tail(p, ParseValue(p).value.1) && !IsSpace(p[Taken(p) - 1])
  {
    Breaks.ValueEnd(p);
  }

  /** Without the line break behind it. */
  lemma {:induction false} Unbreak(p: string, v: Value)
    requires Without(p, '\n') && ParseValue(Breaks.Broken(p)).Some? && ParseValue(Breaks.Broken(p)).value.0 == v
    requires LineEnds(ParseValue(Breaks.Broken(p)).value.1)
    ensures var r := ParseValue(p); r.Some? && r.value.0 == v && LineEnds(r.value.1)
  {
    var r := ParseValue(Breaks.Broken(p)).value.1;
    Breaks.ValueEnd(Breaks.Broken(p));
    Breaks.EndStops(r);
    assert r != "";
    var rest := r[..|r| - 1];
    Breaks.RestStops(r, "");
    Locality.ValueLocal(Breaks.Broken(p), rest + "");
    Breaks.LeftOver(p, r, "");
    assert p + "" == p && rest + "" == rest;
    LeftInside(p, r);
    EndsEarlier(r, rest);
  }

  lemma {:induction false} LeftInside(p: string, r: string)
    requires Without(p, '\n') && Locality.Tail(Breaks.Broken(p), r) && r != ""
    ensures Without(r[..|r| - 1], '\n')
  {
    var b := Breaks.Broken(p);
    assert forall i :: 0 <= i < |r| - 1 ==> r[i] == b[|b| - |r| + i] == p[|b| - |r| + i];
  }

  /** What ends a line still does so when it is cut, with or without a line break behind it. */
  lemma {:induction false} EndsEarlier(t: string, w: string)
    requires LineEnds(t) && w <= t && Without(w, '\n')
    ensures LineEnds(w) && LineEnds(w + "\n")
  {
    if w == "" {
      assert w + "\n" == "\n";
    } else {
      assert (w + "\n")[0] == w[0] && (w + "\n")[1..] == w[1..] + "\n" && w[1..] <= t[1..];
      if IsWs(w[0]) {
        EndsEarlier(t[1..], w[1..]);
      } else {
        CommentEarlier(t[1..], w[1..]);
      }
    }
  }

  lemma {:induction false} CommentEarlier(t: string, w: string)
    requires SkipComment(t).Some? && w <= t && Without(w, '\n')
    ensures SkipComment(w) == Some("") && SkipComment(w + "\n") == Some("\n")
  {
    if w == "" {
      assert w + "\n" == "\n";
    } else {
      assert (w + "\n")[0] == w[0] && (w + "\n")[1..] == w[1..] + "\n" && w[1..] <= t[1..];
      CommentEarlier(t[1..], w[1..]);
    }
  }

  /** The value is read from any part of the payload that holds it. */
  lemma {:induction false} PrefixReads(p: string, w: string)
    requires ParseValue(p).Some? && LineEnds(ParseValue(p).value.1) && Without(p, '\n')
    requires w <= p && Taken(p) <= |w|
    ensures var r := ParseValue(Breaks.Broken(w)); r.Some? && r.value.0 == ParseValue(p).value.0 && LineEnds(r.value.1)
  {
    var r := ParseValue(p).value.1;
    var n := Taken(p);
    Breaks.ValueEnd(p);
    Breaks.EndStops(r);
    var rest := w[n..];
    assert rest <= r by {
      assert r == p[n..];
    }
    EndsEarlier(r, rest);
    Breaks.EndStops(rest + "\n");
    Locality.ValueLocal(p, rest + "\n");
    assert Breaks.Broken(w) == p[..n] + (rest + "\n");
  }

  /** And from no part that does not. */
  lemma {:induction false} ShortReads(p: string, w: string)
    requires ParseValue(p).Some? && w <= p && (w == "" || !IsSpace(w[|w| - 1])) && Without(p, '\n')
    requires var r := ParseValue(Breaks.Broken(w)); r.Some? && LineEnds(r.value.1)
    requires |w| == |p| || p[|w|] == '#' || IsSpace(p[|w|])
    ensures Taken(p) <= |w|
  {
    var t := p[|w|..];
    var r := ParseValue(Breaks.Broken(w)).value.1;
    Breaks.ValueEnd(Breaks.Broken(w));
    Breaks.EndStops(r);
    assert r != "";
    var rest := r[..|r| - 1];
    Breaks.RestStops(r, t);
    Locality.ValueLocal(Breaks.Broken(w), rest + t);
    Breaks.LeftOver(w, r, t);
    assert w + t == p;
  }

  // ---------- when the value is read ----------

  lemma {:induction false} RStripLength(s: string, n: nat)
    requires 0 < n <= |s| && !IsSpace(s[n - 1])
    ensures n <= |RStrip(s)|
  {
    if IsSpace(s[|s| - 1]) {
      RStripLength(s[..|s| - 1], n);
    }
  }

  lemma {:induction false} RStripNext(s: string)
    ensures |RStrip(s)| < |s| ==> IsSpace(s[|RStrip(s)|])
  {
    if s != "" && IsSpace(s[|s| - 1]) {
      RStripNext(s[..|s| - 1]);
    }
  }

  /** What loads as a value. */
  lemma {:induction false} Loads(w: string)
    requires Without(w, '\n') && (w == "" || (!IsSpace(w[0]) && !IsSpace(w[|w| - 1])))
    ensures var r := ParseValue(Breaks.Broken(w));
      LoadValue(w) == if r.Some? && LineEnds(r.value.1) then Some(r.value.0) else None
  {
    var n: string := ['\n'];
    if w == "" {
      if LoadValue(w).Some? {
        EmptyValueText(w);
      }
      NoValueAtSpace(n);
      assert Breaks.Broken(w) == n;
    } else {
      UnixCut("value = ", w, n);
      assert n[1..] == "" && Unix(n[1..]) == "" && Unix(n) == n;
      assert (w + n)[0] == w[0];
      LoadedParse(w + n);
    }
  }

  /**
    The value of a line that assigns the key is read, and is then the document's, if and only if the first `#` outside
    one-line quotes lies behind it.
   */
  lemma {:induction false} CurrentExactly(line: string, key: string, v: Value)
    requires IsLine(line) && MatchAssignment(Body(line)).Some? && ParseStmt(line) == Some(Assign(key, v))
    ensures var p := MatchAssignment(Body(line)).value.payload;
      && ParseValue(p).Some?
      && (CurrentValue(line).Some? <==> Taken(p) <= CommentAt(p, 0, None, false))
      && (CurrentValue(line).Some? ==> CurrentValue(line).value == v)
  {
    var a := MatchAssignment(Body(line)).value;
    PayloadReads(line, a, key, v);
    LineIs(line, a);
    MatchGroups(Body(line), a);
    CurrentOfPayload(a.payload, v);
  }

  lemma {:induction false} CurrentOfPayload(p: string, v: Value)
    requires Without(p, '\n') && p != "" && !IsSpace(p[0])
    requires var r := ParseValue(p); r.Some? && r.value.0 == v && LineEnds(r.value.1) && Locality.Tail(p, r.value.1)
    requires !IsSpace(p[Taken(p) - 1])
    ensures LoadValue(ValueText(p)).Some? <==> Taken(p) <= CommentAt(p, 0, None, false)
    ensures LoadValue(ValueText(p)).Some? ==> LoadValue(ValueText(p)).value == v
  {
    if Taken(p) <= CommentAt(p, 0, None, false) {
      CutBehind(p, v);
    }
    if LoadValue(ValueText(p)).Some? {
      CutInside(p);
      CutBehind(p, v);
    }
  }

  lemma {:induction false} CutBehind(p: string, v: Value)
    requires Without(p, '\n') && p != "" && !IsSpace(p[0])
    requires ParseValue(p).Some? && ParseValue(p).value.0 == v && LineEnds(ParseValue(p).value.1)
    requires !IsSpace(p[Taken(p) - 1]) && Taken(p) <= CommentAt(p, 0, None, false)
    ensures LoadValue(ValueText(p)) == Some(v)
  {
    var c := CommentAt(p, 0, None, false);
    TextShape(p);
    Loads(ValueText(p));
    assert p[..c][Taken(p) - 1] == p[Taken(p) - 1];
    RStripLength(p[..c], Taken(p));
    PrefixReads(p, ValueText(p));
  }

  lemma {:induction false} CutInside(p: string)
    requires Without(p, '\n') && p != "" && !IsSpace(p[0]) && ParseValue(p).Some? && LoadValue(ValueText(p)).Some?
    ensures Taken(p) <= CommentAt(p, 0, None, false)
  {
    TextShape(p);
    Loads(ValueText(p));
    ShortReads(p, ValueText(p));
  }

  /** The value text starts and ends in no blank, and stops at a comment, a blank or the end. */
  lemma {:induction false} TextShape(p: string)
    requires Without(p, '\n') && p != "" && !IsSpace(p[0])
    ensures var w := ValueText(p);
      && w <= p && Without(w, '\n') && (w == "" || (!IsSpace(w[0]) && !IsSpace(w[|w| - 1])))
      && |w| <= CommentAt(p, 0, None, false) && (|w| == |p| || p[|w|] == '#' || IsSpace(p[|w|]))
  {
    var c, w := CommentAt(p, 0, None, false), ValueText(p);
    RStripNext(p[..c]);
    assert w != "" ==> w[0] == p[0];
  }

  // ---------- values without triple quotes ----------

  predicate NoTriples(s: string) {
    forall i :: 0 <= i < |s| - 2 ==> !(IsQuote(s[i]) && s[i] == s[i + 1] == s[i + 2])
  }

  /** The quote and the escape flag of the splitter. */
  function QuoteOf(d: Lex): Option<Quote> {
    if d.mode.OneLine? then Some(d.mode.q) else None
  }

  function EscapeOf(d: Lex): bool {
    d.mode.OneLine? && d.mode.escaped
  }

  /** One character, outside multi-line strings and comments. */
  lemma {:induction false} SameStep(p: string, i: nat, n: nat, d: Lex, e: Lex)
    requires i < n <= |p| && NoTriples(p[i..n]) && p[i] != '\n'
    requires (d.mode.Plain? && p[i] != '#') || d.mode.OneLine?
    requires d.mode.OneLine? && d.mode.escaped ==> d.mode.q.Basic?
    requires Step(p[i..n], d).Some? && e == Step(p[i..n], d).value.1
    ensures Step(p[i..n], d).value.0 == 1 && (e.mode.Plain? || e.mode.OneLine?)
    ensures e.mode.OneLine? && e.mode.escaped ==> e.mode.q.Basic?
    ensures CommentAt(p, i, QuoteOf(d), EscapeOf(d)) == CommentAt(p, i + 1, QuoteOf(e), EscapeOf(e))
  {
    var s := p[i..n];
    assert s[0] == p[i];
    assert !OpensMulti(s, Basic) && !OpensMulti(s, Literal);
  }

  /** A scan that ends outside everything has met no `#` outside quotes. */
  lemma {:induction false} NoCommentIn(p: string, i: nat, n: nat, d: Lex)
    requires i <= n <= |p| && NoTriples(p[i..n]) && Without(p[i..n], '\n')
    requires d.mode.Plain? || (d.mode.OneLine? && (d.mode.escaped ==> d.mode.q.Basic?))
    requires Scan(p[i..n], d).Some? && Scan(p[i..n], d).value.mode.Plain?
    ensures n <= CommentAt(p, i, QuoteOf(d), EscapeOf(d))
    decreases n - i
  {
    if i < n {
      var s := p[i..n];
      assert s[0] == p[i] && s[1..] == p[i + 1..n];
      ScanStep(s, d, Step(s, d));
      if d.mode.Plain? && p[i] == '#' {
        StaysComment(p[i + 1..n], d.(mode := Comment));
        assert false;
      }
      var e := Step(s, d).value.1;
      SameStep(p, i, n, d, e);
      NoCommentIn(p, i + 1, n, e);
    }
  }

  lemma {:induction false} StaysComment(s: string, d: Lex)
    requires d.mode.Comment? && Without(s, '\n')
    ensures Scan(s, d) == Some(d)
  {
    if s != "" {
      ScanStep(s, d, Step(s, d));
      StaysComment(s[1..], d);
    }
  }

  lemma {:induction false} TakenScan(p: string)
    requires ParseValue(p).Some?
    ensures Scan(p[..Taken(p)], NEUTRAL) == Some(NEUTRAL)
  {
    var n := Taken(p);
    var u := p[..n];
    Locality.ValueLocal(p, "");
    assert u + "" == u;
    ValueWatch(u, NEUTRAL, n + 1);
    Unwatched(u, NEUTRAL, n + 1);
  }

  /** So the value of such a line without triple quotes is always read as the document has it. */
  lemma {:induction false} PlainIsRead(line: string, key: string, v: Value)
    requires IsLine(line) && MatchAssignment(Body(line)).Some? && ParseStmt(line) == Some(Assign(key, v))
    requires NoTriples(MatchAssignment(Body(line)).value.payload)
    ensures CurrentValue(line) == Some(v)
  {
    var a := MatchAssignment(Body(line)).value;
    CurrentExactly(line, key, v);
    LineIs(line, a);
    PlainPayload(a.payload);
  }

  lemma {:induction false} PlainPayload(p: string)
    requires ParseValue(p).Some? && NoTriples(p) && Without(p, '\n')
    ensures Taken(p) <= CommentAt(p, 0, None, false)
  {
    TakenScan(p);
    assert p[0..Taken(p)] == p[..Taken(p)];
    NoCommentIn(p, 0, Taken(p), NEUTRAL);
  }

  // ---------- a value that is not read ----------

  /** A string in triple quotes that holds a quote in front of a `#`. */
  const HASH_VALUE := "\"\"\"a \"#\" b\"\"\""

  lemma {:induction false} MultiNext(s: string, t: string, v: string, w: string)
    requires s != "" && s[1..] == t && Run(s, '"') < 3 && s[0] != '\\' && !IsControl(s[0]) && MultiString(t, Basic) == Some((v, ""))
    requires w == [s[0]] + v
    ensures MultiString(s, Basic) == Some((w, ""))
  {
  }

  lemma {:induction false} MultiLast(s: string)
    requires s == "\"\"\""
    ensures MultiString(s, Basic) == Some(("", ""))
  {
    assert s[1..] == "\"\"" && s[1..][1..] == "\"" && s[1..][1..][1..] == "";
    assert Run(s, '"') == 3 && s[3..] == "" && Copies(Mark(Basic), 0) == "";
  }

  lemma {:induction false} SecondHalf(s: string)
    requires s == "#\" b\"\"\""
    ensures MultiString(s, Basic) == Some(("#\" b", ""))
  {
    var s7, s6, s5, s4 := s[4..], s[3..], s[2..], s[1..];
    MultiLast(s7);
    MultiNext(s6, s7, "", "b");
    MultiNext(s5, s6, "b", " b");
    assert s4[1..] == s5 && Run(s5, '"') == 0;
    MultiNext(s4, s5, " b", "\" b");
    MultiNext(s, s4, "\" b", "#\" b");
  }

  lemma {:induction false} HashBody(s: string)
    requires s == "a \"#\" b\"\"\""
    ensures MultiString(s, Basic) == Some(("a \"#\" b", ""))
  {
    var s3, s2, s1 := s[3..], s[2..], s[1..];
    SecondHalf(s3);
    assert s2[1..] == s3 && Run(s3, '"') == 0;
    MultiNext(s2, s3, "#\" b", "\"#\" b");
    MultiNext(s1, s2, "\"#\" b", " \"#\" b");
    MultiNext(s, s1, " \"#\" b", "a \"#\" b");
  }

  lemma {:induction false} HashValueReads()
    ensures ParseValue(HASH_VALUE) == Some((Str("a \"#\" b"), ""))
  {
    HashBody(HASH_VALUE[3..]);
  }

  lemma {:induction false} HashValueCut()
    ensures CommentAt(HASH_VALUE, 0, None, false) == 6
  {
    var p := HASH_VALUE;
    assert CommentAt(p, 6, None, false) == 6;
    assert CommentAt(p, 5, Some(Basic), false) == 6;
    assert CommentAt(p, 4, Some(Basic), false) == 6;
    assert CommentAt(p, 3, Some(Basic), false) == 6;
    assert CommentAt(p, 2, None, false) == 6;
    assert CommentAt(p, 1, Some(Basic), false) == 6;
  }

  /** TOML knows its value, but it is not read: the `#` in the string is taken for a comment. */
  lemma {:induction false} HashIsMissed()
    ensures var line := "k = " + HASH_VALUE;
      && ParseStmt(line) == Some(Assign("k", Str("a \"#\" b"))) && AssignsKey(line, "k") && CurrentValue(line).None?
  {
    var line := "k = " + HASH_VALUE;
    HashPayload(line);
    HashLine(line);
    HashValueReads();
    HashValueCut();
    CurrentExactly(line, "k", Str("a \"#\" b"));
  }

  lemma {:induction false} HashLine(line: string)
    requires line == "k = " + HASH_VALUE
    ensures ParseStmt(line) == Some(Assign("k", Str("a \"#\" b")))
  {
    var a := Parts("", "k", " ", " ", HASH_VALUE);
    HashIsUnix(line);
    HashHead(a);
    HashValueReads();
    PartsParse(a, HASH_VALUE);
  }

  lemma {:induction false} HashHead(a: Parts)
    requires a == Parts("", "k", " ", " ", HASH_VALUE)
    ensures a.Head() == "k = " && WellFormed(a) && Without(a.Head(), '\n') && Blanked(a)
  {
  }

  lemma {:induction false} HashIsUnix(line: string)
    requires line == "k = " + HASH_VALUE
    ensures Unix(line) == line
  {
    assert Without(line, '\n');
    UnixLine(line, "");
    assert line + "" == line;
  }

  lemma {:induction false} HashPayload(line: string)
    requires line == "k = " + HASH_VALUE
    ensures IsLine(line) && Body(line) == line && MatchAssignment(line).Some?
    ensures MatchAssignment(line).value.key == "k" && MatchAssignment(line).value.payload == HASH_VALUE
  {
    assert line[|line| - 1] == '"' && Without(line, '\n');
    assert |line| >= 2 && line[|line| - 2..][1] == '"';
    assert LineBreak(line) == "" && line[..|line|] == line;
    SpaceEndAt(line, 0, 0);
    BareEndAt(line, 0, 1);
    SpaceEndAt(line, 1, 2);
    SpaceEndAt(line, 3, 4);
    assert line[4..] == HASH_VALUE;
  }
}
