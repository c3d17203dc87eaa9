/** Control characters: TOML allows none but tabs and line breaks anywhere, so a text with another one is not read. */
module TomlControl {
  import opened Wrappers
  import opened TomlLexer
  import opened TomlSyntax

  predicate Forbidden(c: char) {
    IsControl(c) && c != '\t' && c != '\n' && c != '\r'
  }

  /** How many characters of this kind there are. */
  function Count(s: string, f: char -> bool): nat {
    if s == "" then 0 else (if f(s[0]) then 1 else 0) + Count(s[1..], f)
  }

  /** A kind of characters that the grammar has no place for. */
  ghost predicate Foreign(f: char -> bool) {
    forall c :: f(c) ==> IsControl(c) && c != '\t' && c != '\n'
  }

  /** How many forbidden ones there are. */
  function Bad(s: string): nat {
    if s == "" then 0 else (if Forbidden(s[0]) then 1 else 0) + Bad(s[1..])
  }

  lemma {:induction false} BadIsCount(s: string)
    ensures Bad(s) == Count(s, Forbidden)
  {
    if s != "" {
      BadIsCount(s[1..]);
    }
  }

  lemma {:induction false} BadAppend(a: string, b: string)
    ensures Bad(a + b) == Bad(a) + Bad(b)
  {
    if a == "" {
      assert a + b == b;
    } else {
      assert (a + b)[0] == a[0] && (a + b)[1..] == a[1..] + b;
      BadAppend(a[1..], b);
    }
  }

  lemma {:induction false} CountDrop(s: string, n: nat, f: char -> bool)
    requires n <= |s| && forall i :: 0 <= i < n ==> !f(s[i])
    ensures Count(s, f) == Count(s[n..], f)
  {
    if n == 0 {
      assert s[0..] == s;
    } else {
      CountDrop(s[1..], n - 1, f);
      assert s[1..][n - 1..] == s[n..];
    }
  }

  lemma {:induction false} NotBad(s: string)
    ensures Bad(s) == 0 <==> forall i :: 0 <= i < |s| ==> !Forbidden(s[i])
  {
    if s != "" {
      NotBad(s[1..]);
      assert forall i :: 0 < i < |s| ==> s[i] == s[1..][i - 1];
      if Bad(s) == 0 {
        forall i | 0 <= i < |s| ensures !Forbidden(s[i]) {
          assert i > 0 ==> s[i] == s[1..][i - 1];
        }
      } else if !Forbidden(s[0]) {
        var i :| 0 <= i < |s[1..]| && Forbidden(s[1..][i]);
        assert Forbidden(s[i + 1]);
      }
    }
  }

  // ---------- what the grammar reads holds none ----------

  lemma {:induction false} WsFree(s: string, f: char -> bool)
    requires Foreign(f)
    ensures Count(SkipWs(s), f) == Count(s, f)
  {
    if s != "" && IsWs(s[0]) {
      WsFree(s[1..], f);
    }
  }

  lemma {:induction false} CommentFree(s: string, f: char -> bool)
    requires Foreign(f)
    requires SkipComment(s).Some?
    ensures Count(SkipComment(s).value, f) == Count(s, f)
  {
    if s != "" && s[0] != '\n' {
      CommentFree(s[1..], f);
    }
  }

  lemma {:induction false} TriviaFree(s: string, f: char -> bool)
    requires Foreign(f)
    requires SkipTrivia(s).Some?
    ensures Count(SkipTrivia(s).value, f) == Count(s, f)
    decreases |s|
  {
    if s != "" && (IsWs(s[0]) || s[0] == '\n') {
      TriviaFree(s[1..], f);
    } else if s != "" && s[0] == '#' {
      CommentFree(s[1..], f);
      TriviaFree(SkipComment(s[1..]).value, f);
    }
  }

  lemma {:induction false} BreakFree(f: char -> bool)
    requires Foreign(f)
    ensures Count("\n", f) == 0 && Count("", f) == 0
  {
    assert "\n"[1..] == "";
  }

  lemma {:induction false} EndFree(s: string, f: char -> bool)
    requires Foreign(f)
    requires LineEnds(s)
    ensures Count(s, f) == 0
  {
    WsFree(s, f);
    BreakFree(f);
    var t := SkipWs(s);
    if t != "" && t != "\n" {
      CommentFree(t[1..], f);
    }
  }

  lemma {:induction false} HexFree(s: string, f: char -> bool)
    requires Foreign(f)
    requires Hex(s).Some?
    ensures forall i :: 0 <= i < |s| ==> !f(s[i])
  {
    if s != "" {
      HexFree(s[..|s| - 1], f);
      assert forall i :: 0 <= i < |s| ==> s[i] == if i < |s| - 1 then s[..|s| - 1][i] else s[|s| - 1];
    }
  }

  lemma {:induction false} UnicodeFree(s: string, digits: nat, f: char -> bool)
    requires Foreign(f)
    requires UnicodeEscape(s, digits).Some?
    ensures Count(UnicodeEscape(s, digits).value.1, f) == Count(s, f)
  {
    HexFree(s[..digits], f);
    assert forall i :: 0 <= i < digits ==> s[i] == s[..digits][i];
    CountDrop(s, digits, f);
  }

  lemma {:induction false} EscapeFree(s: string, f: char -> bool)
    requires Foreign(f)
    requires Escape(s).Some?
    ensures Count(Escape(s).value.1, f) == Count(s, f)
  {
    if s[0] == 'u' {
      UnicodeFree(s[1..], 4, f);
    } else if s[0] == 'U' {
      UnicodeFree(s[1..], 8, f);
    }
  }

  lemma {:induction false} OneLineFree(s: string, q: Quote, f: char -> bool)
    requires Foreign(f)
    requires OneLineString(s, q).Some?
    ensures Count(OneLineString(s, q).value.1, f) == Count(s, f)
    decreases |s|
  {
    if s[0] == Mark(q) {
    } else if q.Basic? && s[0] == '\\' {
      EscapeFree(s[1..], f);
      OneLineFree(Escape(s[1..]).value.1, q, f);
    } else {
      OneLineFree(s[1..], q, f);
    }
  }

  lemma {:induction false} BlankLinesFree(s: string, f: char -> bool)
    requires Foreign(f)
    ensures Count(SkipBlankLines(s), f) == Count(s, f)
  {
    if s != "" && (IsWs(s[0]) || s[0] == '\n') {
      BlankLinesFree(s[1..], f);
    }
  }

  lemma {:induction false} RunFree(s: string, q: Quote, n: nat, f: char -> bool)
    requires Foreign(f)
    requires n <= Run(s, Mark(q)) && n <= |s|
    ensures Count(s[n..], f) == Count(s, f)
  {
    if n == 0 {
      assert s[0..] == s;
    } else {
      RunFree(s[1..], q, n - 1, f);
      assert s[1..][n - 1..] == s[n..];
      CountMark(s, q, f);
    }
  }

  lemma {:induction false} CountMark(s: string, q: Quote, f: char -> bool)
    requires Foreign(f) && s != "" && s[0] == Mark(q)
    ensures Count(s, f) == Count(s[1..], f)
  {
    assert !IsControl(Mark(q));
  }

  lemma {:induction false} MultiFree(s: string, q: Quote, f: char -> bool)
    requires Foreign(f)
    requires MultiString(s, q).Some?
    ensures Count(MultiString(s, q).value.1, f) == Count(s, f)
    decreases |s|
  {
    if Run(s, Mark(q)) >= 3 {
      RunFree(s, q, Run(s, Mark(q)), f);
    } else if q.Basic? && s[0] == '\\' {
      var t := SkipWs(s[1..]);
      WsFree(s[1..], f);
      if t != "" && t[0] == '\n' {
        BlankLinesFree(t[1..], f);
        MultiFree(SkipBlankLines(t[1..]), q, f);
      } else {
        EscapeFree(s[1..], f);
        MultiFree(Escape(s[1..]).value.1, q, f);
      }
    } else {
      MultiFree(s[1..], q, f);
    }
  }

  lemma {:induction false} ParseMultiFree(s: string, q: Quote, f: char -> bool)
    requires Foreign(f)
    requires OpensMulti(s, q) && ParseMulti(s, q).Some?
    ensures Count(ParseMulti(s, q).value.1, f) == Count(s, f)
  {
    var n := if |s| > 3 && s[3] == '\n' then 4 else 3;
    assert s[0] == s[1] == s[2] == Mark(q);
    CountDrop(s, n, f);
    MultiFree(s[n..], q, f);
  }

  lemma {:induction false} ValueFree(s: string, f: char -> bool)
    requires Foreign(f)
    requires ParseValue(s).Some?
    ensures Count(ParseValue(s).value.1, f) == Count(s, f)
    decreases |s|, 0
  {
    if OpensMulti(s, Basic) {
      ParseMultiFree(s, Basic, f);
    } else if OpensMulti(s, Literal) {
      ParseMultiFree(s, Literal, f);
    } else if s[0] == '"' {
      OneLineFree(s[1..], Basic, f);
    } else if s[0] == '\'' {
      OneLineFree(s[1..], Literal, f);
    } else if s[0] == '[' {
      ItemsFree(s[1..], f);
    } else {
      CountDrop(s, TokenLength(s), f);
    }
  }

  lemma {:induction false} ItemsFree(s: string, f: char -> bool)
    requires Foreign(f)
    requires ParseItems(s).Some?
    ensures Count(ParseItems(s).value.1, f) == Count(s, f)
    decreases |s|, 1
  {
    TriviaFree(s, f);
    var t := SkipTrivia(s).value;
    if t[0] != ']' {
      ValueFree(t, f);
      var w := ParseValue(t).value.1;
      TriviaFree(w, f);
      var u := SkipTrivia(w).value;
      if u[0] == ',' {
        ItemsFree(u[1..], f);
      }
    }
  }

  lemma {:induction false} KeyFree(s: string, f: char -> bool)
    requires Foreign(f)
    requires ParseKey(s).Some?
    ensures Count(ParseKey(s).value.1, f) == Count(s, f)
  {
    if s[0] == '"' {
      OneLineFree(s[1..], Basic, f);
    } else if s[0] == '\'' {
      OneLineFree(s[1..], Literal, f);
    } else {
      CountDrop(s, BareLength(s), f);
    }
  }

  lemma {:induction false} PathFree(s: string, f: char -> bool)
    requires Foreign(f)
    requires ParsePath(s).Some?
    ensures Count(ParsePath(s).value.1, f) == Count(s, f)
    decreases |s|
  {
    KeyFree(s, f);
    var k := ParseKey(s).value.1;
    WsFree(k, f);
    var t := SkipWs(k);
    if t != "" && t[0] == '.' {
      WsFree(t[1..], f);
      PathFree(SkipWs(t[1..]), f);
    }
  }

  lemma {:induction false} HeaderFree(s: string, f: char -> bool)
    requires Foreign(f)
    requires s != "" && s[0] == '[' && ParseHeader(s).Some?
    ensures Count(s, f) == 0
  {
    var n := if ParseHeader(s).value.ofTables then 2 else 1;
    CountDrop(s, n, f);
    WsFree(s[n..], f);
    PathFree(SkipWs(s[n..]), f);
    var t := ParsePath(SkipWs(s[n..])).value.1;
    CountDrop(t, n, f);
    EndFree(t[n..], f);
  }

  lemma {:induction false} AssignFree(s: string, f: char -> bool)
    requires Foreign(f)
    requires ParseAssign(s).Some?
    ensures Count(s, f) == 0
  {
    KeyFree(s, f);
    var k := ParseKey(s).value.1;
    WsFree(k, f);
    var t := SkipWs(k);
    WsFree(t[1..], f);
    ValueFree(SkipWs(t[1..]), f);
    EndFree(ParseValue(SkipWs(t[1..])).value.1, f);
  }

  /** A statement holds no forbidden character. */
  lemma {:induction false} StatementFree(s: string, f: char -> bool)
    requires Foreign(f)
    requires ParseUnix(s).Some?
    ensures Count(s, f) == 0
  {
    WsFree(s, f);
    var t := SkipWs(s);
    if LineEnds(t) {
      EndFree(t, f);
    } else if t[0] == '[' {
      HeaderFree(t, f);
    } else {
      AssignFree(t, f);
    }
  }

  // ---------- documents ----------

  lemma {:induction false} UnixFree(s: string)
    ensures Bad(Unix(s)) == Bad(s)
    decreases |s|
  {
    if s != "" {
      if |s| >= 2 && s[0] == '\r' && s[1] == '\n' {
        UnixFree(s[2..]);
        assert (['\n'] + Unix(s[2..]))[1..] == Unix(s[2..]) && s[1..][1..] == s[2..];
      } else {
        UnixFree(s[1..]);
        assert ([s[0]] + Unix(s[1..]))[1..] == Unix(s[1..]);
      }
    }
  }

  lemma {:induction false} StatementsFree(lines: seq<string>, acc: string, c: Carry)
    requires Statements(lines, acc, c).Some?
    ensures Bad(acc + Concat(lines)) == 0
  {
    if lines == [] {
      assert acc + Concat(lines) == "";
    } else {
      var chunk, rest := acc + lines[0], Concat(lines[1..]);
      var m := Advance(lines[0], c).value;
      assert acc + Concat(lines) == chunk + rest;
      if m != OUTSIDE {
        StatementsFree(lines[1..], chunk, m);
      } else {
        assert "" + rest == rest;
        StatementsFree(lines[1..], "", OUTSIDE);
        StatementFree(Unix(chunk), Forbidden);
        BadIsCount(Unix(chunk));
        UnixFree(chunk);
        BadAppend(chunk, rest);
      }
    }
  }

  /** A text with another control character is not read. */
  lemma {:induction false} ControlIsNotRead(text: string)
    requires StatementsOf(SplitLines(text)).Some?
    ensures Bad(text) == 0
  {
    assert "" + Concat(SplitLines(text)) == text;
    StatementsFree(SplitLines(text), "", OUTSIDE);
  }

  // ---------- carriage returns ----------

  predicate IsCr(c: char) {
    c == '\r'
  }

  /** Every carriage return has its line feed. */
  predicate Paired(s: string) {
    forall i :: 0 <= i < |s| && s[i] == '\r' ==> i + 1 < |s| && s[i + 1] == '\n'
  }

  lemma {:induction false} UnixPaired(s: string)
    requires Count(Unix(s), IsCr) == 0
    ensures Paired(s)
    decreases |s|
  {
    if s != "" {
      if |s| >= 2 && s[0] == '\r' && s[1] == '\n' {
        assert (['\n'] + Unix(s[2..]))[1..] == Unix(s[2..]);
        UnixPaired(s[2..]);
        PairedBehind(s, 2);
      } else {
        assert ([s[0]] + Unix(s[1..]))[1..] == Unix(s[1..]);
        UnixPaired(s[1..]);
        PairedBehind(s, 1);
      }
    }
  }

  lemma {:induction false} PairedBehind(s: string, n: nat)
    requires 0 < n <= |s| && Paired(s[n..]) && (n == 1 ==> s[0] != '\r') && (n > 1 ==> n == 2 && s[0] == '\r' && s[1] == '\n')
    ensures Paired(s)
  {
    forall i | 0 <= i < |s| && s[i] == '\r' ensures i + 1 < |s| && s[i + 1] == '\n' {
      if i >= n {
        assert s[n..][i - n] == s[i];
        assert s[n..][i - n + 1] == s[i + 1];
      }
    }
  }

  lemma {:induction false} PairedAppend(a: string, b: string)
    requires Paired(a) && Paired(b)
    ensures Paired(a + b)
  {
  }

  lemma {:induction false} StatementsPaired(lines: seq<string>, acc: string, c: Carry)
    requires Statements(lines, acc, c).Some?
    ensures Paired(acc + Concat(lines))
  {
    if lines == [] {
      assert acc + Concat(lines) == "";
    } else {
      var chunk, rest := acc + lines[0], Concat(lines[1..]);
      var m := Advance(lines[0], c).value;
      assert acc + Concat(lines) == chunk + rest;
      if m != OUTSIDE {
        StatementsPaired(lines[1..], chunk, m);
      } else {
        assert "" + rest == rest;
        StatementsPaired(lines[1..], "", OUTSIDE);
        StatementFree(Unix(chunk), IsCr);
        UnixPaired(chunk);
        PairedAppend(chunk, rest);
      }
    }
  }

  /** Nor is a text with a carriage return that has no line feed behind it. */
  lemma {:induction false} LoneCrIsNotRead(text: string)
    requires StatementsOf(SplitLines(text)).Some?
    ensures Paired(text)
  {
    assert "" + Concat(SplitLines(text)) == text;
    StatementsPaired(SplitLines(text), "", OUTSIDE);
  }
}
