/**
  Reading a whole document from the grammar alone gives what reading it line by line behind the lexer gives.  The
  grammar takes a statement as far as it goes and then the rest of the line; the lexer cuts the document where it is
  outside everything for the first time.  Neither knows of the other, and both find the same statements.
 */
module TomlDocument {
  import opened Wrappers
  import opened TomlLexer
  import opened TomlSyntax
  import opened TomlAgreement
  import opened TomlLocality
  import opened TomlGrammar

  // ---------- the reader ----------

  lemma {:induction false} StmtShorter(s: string)
    requires s != "" && TakeStmt(s).Some?
    ensures |TakeStmt(s).value.1| < |s|
  {
    var r := TakeStmt(s).value.1;
    StmtLocal(s, "");
    if TakeLine(s).None? {
      var u := SkipWs(s);
      if u[0] == '[' {
        HeaderStarts(u);
      } else {
        AssignLocal(u, "");
        assert |Used(u, r)| == |u| - |r|;
      }
    }
  }

  /** The statements of a document, one after the other. */
  function TakeAll(s: string): Option<seq<Stmt>>
    decreases |s|
  {
    if s == "" then Some([])
    else
      var h := TakeStmt(s);
      if h.None? then None
      else
        StmtShorter(s);
        var r := TakeAll(h.value.1);
        if r.None? then None else Some(Only(h.value.0) + r.value)
  }

  /** A document read without the lexer. */
  function Read(text: string): Option<Node> {
    var s := TakeAll(Unix(text));
    if s.None? then None
    else
      var d := Build(START, s.value);
      if d.None? then None else Some(d.value.root)
  }

  // ---------- where a statement may end ----------

  predicate Neutral(p: string) {
    Leave(Scan(p, NEUTRAL)) == Some(OUTSIDE)
  }

  /** Position `i` is behind a line of `s`. */
  predicate CutAt(s: string, i: nat) {
    0 < i <= |s| && (i == |s| || s[i - 1] == '\n')
  }

  predicate NeutralAt(s: string, i: nat)
    requires i <= |s|
  {
    Neutral(s[..i])
  }

  /** Behind none of the lines of `a` is the lexer outside. */
  predicate Open(a: string) {
    forall i: nat :: i <= |a| && CutAt(a, i) ==> !NeutralAt(a, i)
  }

  /** A statement is taken up to the end of a line, and leaves the lexer outside there and nowhere before. */
  lemma {:induction false} Taken(s: string) returns (i: nat)
    requires s != "" && TakeStmt(s).Some?
    ensures CutAt(s, i) && NeutralAt(s, i) && s[i..] == TakeStmt(s).value.1
    ensures ParseUnix(s[..i]) == Some(TakeStmt(s).value.0)
  {
    var (h, r) := TakeStmt(s).value;
    StmtShorter(s);
    StmtLocal(s, "");
    i := |s| - |r|;
    var p := Used(s, r);
    assert p == s[..i] && p != "";
    EndsAt(s, p, r);
    assert p + "" == p;
    TakesChunk(p);
    LineWatch(p, 1);
    WatchIsScan(p, NEUTRAL, 1);
  }

  lemma {:induction false} EndsAt(s: string, p: string, r: string)
    requires s == p + r && p != "" && (Ended(p) || r == "")
    ensures CutAt(s, |p|)
  {
  }

  /** No statement ends where the lexer is not outside. */
  lemma {:induction false} EndsBehind(a: string, b: string, i: nat)
    requires Open(a) && CutAt(a + b, i) && NeutralAt(a + b, i)
    ensures i > |a|
  {
    if i <= |a| {
      InFront(a, b, i);
    }
  }

  lemma {:induction false} InFront(a: string, b: string, i: nat)
    requires i <= |a|
    ensures NeutralAt(a + b, i) <==> NeutralAt(a, i)
    ensures CutAt(a + b, i) ==> CutAt(a, i)
  {
    assert (a + b)[..i] == a[..i];
  }

  /** Nor in the middle of a line. */
  lemma {:induction false} EndsLine(a: string, l: string, v: string, i: nat)
    requires OneBreak(l) && CutAt((a + l) + v, i) && i > |a|
    ensures i >= |a + l| && ((a + l) + v)[..i] == (a + l) + v[..i - |a + l|]
  {
    if i < |a + l| {
      InMiddle(a, l, v, i - |a|);
    }
  }

  lemma {:induction false} InMiddle(a: string, l: string, v: string, i: int)
    ensures 0 < i <= |l| ==> ((a + l) + v)[|a| + i - 1] == l[i - 1]
  {
  }

  lemma {:induction false} NothingBehind(s: string)
    ensures s + "" == s
  {
  }

  lemma {:induction false} ClosesLine(a: string, l: string)
    requires Ended(l)
    ensures Ended(a + l)
  {
  }

  /** A line the lexer refuses is in no statement. */
  lemma {:induction false} RefusedLine(a: string, l: string, v: string)
    requires Open(a) && OneBreak(l) && l != "" && (Ended(l) || v == "") && Leave(Scan(a + l, NEUTRAL)).None?
    ensures TakeStmt((a + l) + v).None?
  {
    if TakeStmt((a + l) + v).Some? {
      var q := TakenBehind(a, l, v);
      if q == "" {
        NothingBehind(a + l);
      } else {
        ClosesLine(a, l);
        RefusedStays(a + l, q);
      }
    }
  }

  /** A statement that begins in front of a line takes all of it. */
  lemma {:induction false} TakenBehind(a: string, l: string, v: string) returns (q: string)
    requires Open(a) && OneBreak(l) && l != "" && TakeStmt((a + l) + v).Some?
    ensures q <= v && Neutral((a + l) + q) && ParseUnix((a + l) + q) == Some(TakeStmt((a + l) + v).value.0)
  {
    var i := Taken((a + l) + v);
    Assoc(a, l, v);
    EndsBehind(a, l + v, i);
    EndsLine(a, l, v, i);
    q := v[..i - |a + l|];
  }

  /** What the lexer refuses at a line break stays refused. */
  lemma {:induction false} RefusedStays(s: string, q: string)
    requires Ended(s) && Leave(Scan(s, NEUTRAL)).None?
    ensures Scan(s + q, NEUTRAL).None?
  {
    ScanAppend(s, q, NEUTRAL);
    if Scan(s, NEUTRAL).Some? {
      AfterNewline(s, NEUTRAL);
    }
  }

  /** Where the lexer is outside for the first time, a statement ends there or nowhere. */
  lemma {:induction false} OddLine(a: string, l: string, v: string)
    requires Open(a) && OneBreak(l) && l != "" && (Ended(l) || v == "") && Neutral(a + l) && ParseUnix(a + l).None?
    ensures TakeStmt((a + l) + v).None?
  {
    if TakeStmt((a + l) + v).Some? {
      var q := TakenBehind(a, l, v);
      if q == "" {
        NothingBehind(a + l);
      } else {
        ClosesLine(a, l);
        PrefixIsNotNeutral(a + l, q);
      }
    }
  }

  lemma {:induction false} ReadLine(c: string, h: Stmt, v: string)
    requires ParseUnix(c) == Some(h) && (Ended(c) || v == "")
    ensures TakeStmt(c + v) == Some((h, v))
  {
    TakesChunk(c);
    StmtLocal(c, v);
    assert Used(c, "") == c;
  }

  /** Only an assignment goes over several lines. */
  lemma {:induction false} SeveralLines(a: string, l: string)
    requires ParseUnix(a + l).Some? && Ended(a) && l != ""
    ensures ParseUnix(a + l).value.Assign?
  {
    var c := a + l;
    TakesChunk(c);
    assert c[|a| - 1] == '\n' && Used(c, "") == c;
    if TakeLine(c).Some? {
      LineShape(c);
    } else if SkipWs(c)[0] == '[' {
      var u := SkipWs(c);
      HeaderLocal(u, "");
      WsNoBreak(c);
      assert Used(u, "") == u;
      BreakAfter(Used(c, u), u);
    }
  }

  lemma {:induction false} StaysOpen(a: string, l: string)
    requires Open(a) && OneBreak(l) && !Neutral(a + l)
    ensures Open(a + l)
  {
    forall i: nat | i <= |a + l| && CutAt(a + l, i) ensures !NeutralAt(a + l, i) {
      if i > |a| {
        assert a + l == (a + l) + "";
        EndsLine(a, l, "", i);
        assert (a + l)[..i] == a + l;
      } else {
        InFront(a, l, i);
      }
    }
  }

  lemma {:induction false} NeverClosed(a: string)
    requires a != "" && Open(a)
    ensures TakeStmt(a).None?
  {
    if TakeStmt(a).Some? {
      var i := Taken(a);
    }
  }

  // ---------- line breaks ----------

  lemma {:induction false} UnixCrlf(s: string)
    requires |s| >= 2 && s[0] == '\r' && s[1] == '\n'
    ensures Unix(s) == ['\n'] + Unix(s[2..])
  {
  }

  lemma {:induction false} UnixPlain(s: string)
    requires s != "" && !(|s| >= 2 && s[0] == '\r' && s[1] == '\n')
    ensures Unix(s) == [s[0]] + Unix(s[1..])
  {
  }

  /** One line break, or one other character, in front of joined texts. */
  lemma {:induction false} UnixJoin(a: string, b: string)
    requires Ended(a)
    ensures Unix(a + b) == Unix(a) + Unix(b) && Ended(Unix(a))
    decreases |a|
  {
    var n := if |a| >= 2 && a[0] == '\r' && a[1] == '\n' then 2 else 1;
    var x := a[n..];
    assert (a + b)[n..] == x + b;
    if n == 2 {
      UnixCrlf(a);
      UnixCrlf(a + b);
    } else {
      SameStart(a, b);
      UnixPlain(a);
      UnixPlain(a + b);
    }
    if x == "" {
      assert x + b == b;
    } else {
      UnixJoin(x, b);
      ClosesLine([if n == 2 then '\n' else a[0]], Unix(x));
    }
    Assoc([if n == 2 then '\n' else a[0]], Unix(x), Unix(b));
  }

  lemma {:induction false} SameStart(a: string, b: string)
    requires Ended(a) && !(|a| >= 2 && a[0] == '\r' && a[1] == '\n')
    ensures (a + b)[0] == a[0] && !(|a + b| >= 2 && (a + b)[0] == '\r' && (a + b)[1] == '\n')
  {
  }

  lemma {:induction false} UnixLine(l: string)
    requires IsLine(l)
    ensures OneBreak(Unix(l)) && Unix(l) != ""
    decreases |l|
  {
    if |l| >= 2 && l[0] == '\r' && l[1] == '\n' {
      assert l[2..] == "";
    } else if |l| > 1 {
      UnixLine(l[1..]);
      assert Unix(l) == [l[0]] + Unix(l[1..]);
    }
  }

  /** The lexer goes on from line to line. */
  lemma {:induction false} GoesOn(acc: string, line: string, c: Carry)
    requires acc == "" ==> c == OUTSIDE
    requires acc != "" ==> Ended(acc) && Advance(acc, OUTSIDE) == Some(c)
    ensures Advance(line, c) == Advance(acc + line, OUTSIDE) == Leave(Scan(Unix(acc + line), NEUTRAL))
  {
    UnixScan(acc + line, NEUTRAL);
    if acc == "" {
      assert acc + line == line;
    } else {
      AfterNewline(acc, NEUTRAL);
      ScanAppend(acc, line, NEUTRAL);
    }
  }

  // ---------- the two readers ----------

  /** The open logical line. */
  ghost predicate Pending(lines: seq<string>, acc: string, c: Carry) {
    && (acc == "" ==> c == OUTSIDE)
    && (acc != "" ==> Advance(acc, OUTSIDE) == Some(c) && (lines == [] || Ended(acc)) && Open(Unix(acc)))
  }

  /** The text of the open logical line, of the next line and of what is behind it. */
  lemma {:induction false} Pieces(lines: seq<string>, acc: string, c: Carry, u: string, l: string, v: string)
    requires IsSplit(lines) && lines != [] && Pending(lines, acc, c)
    requires u == Unix(acc) && l == Unix(lines[0]) && v == Unix(Concat(lines[1..]))
    ensures Unix(acc + lines[0]) == u + l && Unix(acc + Concat(lines)) == (u + l) + v
    ensures Open(u) && OneBreak(l) && l != "" && (Ended(l) || v == "") && (acc != "" ==> Ended(u))
  {
    var line, rest := lines[0], Concat(lines[1..]);
    UnixLine(line);
    if lines[1..] == [] {
      assert line + "" == line && l + "" == l;
    } else {
      UnixJoin(line, rest);
    }
    if acc == "" {
      assert acc + line == line && acc + (line + rest) == line + rest && u + l == l;
    } else {
      UnixJoin(acc, line);
      UnixJoin(acc, line + rest);
    }
    Assoc(u, l, v);
  }

  /** A line behind which the lexer is outside: a logical line ends. */
  lemma {:induction false} LineCloses(acc: string, line: string, u: string, l: string, v: string)
    requires Unix(acc + line) == u + l && Open(u) && OneBreak(l) && l != "" && (Ended(l) || v == "") && (acc != "" ==> Ended(u))
    requires Neutral(u + l)
    ensures var s := ParseChunk(acc, line); TakeStmt((u + l) + v) == if s.None? then None else Some((s.value, v))
  {
    var s := ParseUnix(u + l);
    if s.None? {
      OddLine(u, l, v);
    } else {
      if acc != "" {
        SeveralLines(u, l);
      }
      if v != "" {
        ClosesLine(u, l);
      }
      ReadLine(u + l, s.value, v);
    }
  }

  lemma {:induction false} TakeOne(w: string, s: Option<Stmt>, v: string)
    requires w != "" && TakeStmt(w) == if s.None? then None else Some((s.value, v))
    ensures var r := TakeAll(v); TakeAll(w) == if s.None? || r.None? then None else Some(Only(s.value) + r.value)
  {
  }

  /**
    The lines behind `acc`, cut by the lexer, hold the statements that the grammar takes from the text, and are
    unreadable when the grammar comes to a statement that it cannot take.
   */
  lemma {:induction false} SameStatements(lines: seq<string>, acc: string, c: Carry)
    requires IsSplit(lines) && Pending(lines, acc, c)
    ensures Statements(lines, acc, c) == TakeAll(Unix(acc + Concat(lines)))
    decreases |lines|
  {
    if lines == [] {
      assert acc + "" == acc;
      if acc != "" {
        NeverClosed(Unix(acc));
      }
    } else {
      var line, rest := lines[0], lines[1..];
      var u, l, v := Unix(acc), Unix(line), Unix(Concat(rest));
      Pieces(lines, acc, c, u, l, v);
      GoesOn(acc, line, c);
      var m := Advance(line, c);
      if m.None? {
        RefusedLine(u, l, v);
      } else if m.value != OUTSIDE {
        StaysOpen(u, l);
        StillPending(lines, acc, m.value);
        SameStatements(rest, acc + line, m.value);
      } else {
        LineCloses(acc, line, u, l, v);
        TakeOne((u + l) + v, ParseChunk(acc, line), v);
        SameStatements(rest, "", OUTSIDE);
        assert "" + Concat(rest) == Concat(rest);
      }
    }
  }

  lemma {:induction false} StillPending(lines: seq<string>, acc: string, m: Carry)
    requires IsSplit(lines) && lines != [] && Advance(acc + lines[0], OUTSIDE) == Some(m) && Open(Unix(acc + lines[0]))
    ensures Pending(lines[1..], acc + lines[0], m) && IsSplit(lines[1..])
    ensures (acc + lines[0]) + Concat(lines[1..]) == acc + Concat(lines)
  {
    if lines[1..] != [] {
      ClosesLine(acc, lines[0]);
    }
  }

  /** Reading with the lexer is reading without it, for every text. */
  lemma {:induction false} ReadersAgree(text: string)
    ensures Parse(text) == Read(text)
  {
    SameStatements(SplitLines(text), "", OUTSIDE);
    assert "" + text == text;
  }
}
