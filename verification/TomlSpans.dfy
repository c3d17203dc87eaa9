/** Where the tables of a document start and end: `_table_spans` and the one-pass lexer. */
module TomlSpans {
  import opened Wrappers
  import opened TomlLexer
  import opened TomlSyntax
  import opened TomlAgreement

  /** The path of the header on this line, if the line is one. */
  function TablePathFromLine(line: string): (r: Option<seq<string>>)
    ensures r.Some? ==> r.value != []
  {
    var s := ParseStmt(line);
    if s.Some? && s.value.Header? then Some(s.value.path) else None
  }

  datatype TableSpan = TableSpan(path: seq<string>, start: nat, end: nat)

  predicate Outside(lines: seq<string>, i: nat)
    requires i <= |lines|
  {
    Fold(lines[..i], OUTSIDE) == Some(OUTSIDE)
  }

  predicate IsHeader(lines: seq<string>, i: nat)
    requires i < |lines|
  {
    Outside(lines, i) && TablePathFromLine(lines[i]).Some?
  }

  /** The header lines among the first `n` lines, with their paths. */
  function Headers(lines: seq<string>, n: nat): seq<(nat, seq<string>)>
    requires n <= |lines|
  {
    if n == 0 then [] else Headers(lines, n - 1) + HeaderAt(lines, n - 1)
  }

  function HeaderAt(lines: seq<string>, i: nat): seq<(nat, seq<string>)>
    requires i < |lines|
  {
    if IsHeader(lines, i) then [(i, TablePathFromLine(lines[i]).value)] else []
  }

  lemma {:induction false} HeadersSound(lines: seq<string>, n: nat, k: nat)
    requires n <= |lines| && k < |Headers(lines, n)|
    ensures var (i, path) := Headers(lines, n)[k]; i < n && IsHeader(lines, i) && TablePathFromLine(lines[i]) == Some(path)
    decreases n
  {
    if k < |Headers(lines, n - 1)| {
      HeadersSound(lines, n - 1, k);
    }
  }

  /** What one line adds to the headers. */
  lemma {:induction false} HeadersStep(lines: seq<string>, n: nat, k: nat)
    requires 0 < n <= |lines| && k < |Headers(lines, n)|
    ensures var rest := Headers(lines, n - 1);
      if k < |rest| then Headers(lines, n)[k] == rest[k] else k == |rest| && Headers(lines, n)[k].0 == n - 1
  {
  }

  lemma {:induction false} HeadersSorted(lines: seq<string>, n: nat, k: nat, l: nat)
    requires n <= |lines| && k < l < |Headers(lines, n)|
    ensures Headers(lines, n)[k].0 < Headers(lines, n)[l].0
    decreases n
  {
    HeadersStep(lines, n, k);
    HeadersStep(lines, n, l);
    if l < |Headers(lines, n - 1)| {
      HeadersSorted(lines, n - 1, k, l);
    } else {
      HeadersSound(lines, n - 1, k);
    }
  }

  lemma {:induction false} HeadersComplete(lines: seq<string>, n: nat, i: nat) returns (k: nat)
    requires n <= |lines| && i < n && IsHeader(lines, i)
    ensures k < |Headers(lines, n)| && Headers(lines, n)[k] == (i, TablePathFromLine(lines[i]).value)
    decreases n
  {
    var rest := Headers(lines, n - 1);
    if i == n - 1 {
      k := |rest|;
    } else {
      k := HeadersComplete(lines, n - 1, i);
      assert Headers(lines, n)[k] == rest[k];
    }
  }

  function SpansOf(headers: seq<(nat, seq<string>)>, n: nat): (r: seq<TableSpan>)
    ensures |r| == |headers|
    ensures forall k {:trigger r[k]} :: 0 <= k < |r| ==>
      r[k] == TableSpan(headers[k].1, headers[k].0, if k + 1 < |headers| then headers[k + 1].0 else n)
  {
    seq(|headers|, k requires 0 <= k < |headers| =>
      TableSpan(headers[k].1, headers[k].0, if k + 1 < |headers| then headers[k + 1].0 else n))
  }

  lemma {:induction false} FoldNext(lines: seq<string>, i: nat, c: Carry)
    requires i < |lines| && Fold(lines[..i], OUTSIDE) == Some(c)
    ensures Fold(lines[..i + 1], OUTSIDE) == Advance(lines[i], c)
  {
    assert lines[..i + 1] == lines[..i] + [lines[i]];
    FoldAppend(lines[..i], [lines[i]], OUTSIDE);
    var m := Advance(lines[i], c);
    assert m.Some? ==> Fold([lines[i]][1..], m.value) == m;
  }

  lemma {:induction false} FoldStops(lines: seq<string>, i: nat)
    requires i <= |lines| && Fold(lines[..i], OUTSIDE).None?
    ensures Fold(lines, OUTSIDE).None?
  {
    assert lines == lines[..i] + lines[i..];
    FoldAppend(lines[..i], lines[i..], OUTSIDE);
  }

  /**
    `_table_spans`: it raises exactly when the lexer fails or ends inside something, and otherwise lists every table
    with the lines it reaches over.
   */
  method TableSpans(lines: seq<string>) returns (r: Option<seq<TableSpan>>)
    requires IsSplit(lines)
    ensures r.Some? <==> Fold(lines, OUTSIDE) == Some(OUTSIDE)
    ensures r.Some? ==> r.value == SpansOf(Headers(lines, |lines|), |lines|)
  {
    var headers: seq<(nat, seq<string>)> := [];
    var state := new TomlLexicalState();
    for index := 0 to |lines|
      invariant state.Valid() && Fold(lines[..index], OUTSIDE) == Some(state.Value())
      invariant headers == Headers(lines, index)
    {
      FoldNext(lines, index, state.Value());
      var skip := false;
      if state.IsOutside() {
        var path := TablePathFromLine(lines[index]);
        if path.Some? {
          headers := headers + [(index, path.value)];
          StatementIsNeutral(lines[index]);
          skip := true;
        }
      }
      if !skip {
        var ok := AdvanceLexicalState(lines[index], state);
        if !ok {
          FoldStops(lines, index + 1);
          return None;
        }
      }
    }
    assert lines[..|lines|] == lines;
    if !state.IsOutside() {
      return None;
    }
    return Some(SpansOf(headers, |lines|));
  }

  /**
    A line is reported as the header of `path` exactly when it reads as that header and the one-pass lexer, run over
    the document text in front of it, is outside every string, comment, array and inline table.
   */
  lemma {:induction false} ReportedExactlyOutside(lines: seq<string>, i: nat, path: seq<string>)
    requires IsSplit(lines)
    ensures (i, path) in Headers(lines, |lines|) <==>
      i < |lines| && TablePathFromLine(lines[i]) == Some(path) && Leave(Scan(Concat(lines[..i]), NEUTRAL)) == Some(OUTSIDE)
  {
    var headers := Headers(lines, |lines|);
    if i < |lines| {
      FoldIsOnePass(lines[..i], OUTSIDE);
      if IsHeader(lines, i) {
        var k := HeadersComplete(lines, |lines|, i);
        assert headers[k] in headers;
      }
    }
    if (i, path) in headers {
      var k :| 0 <= k < |headers| && headers[k] == (i, path);
      HeadersSound(lines, |lines|, k);
    }
  }

  /** And the whole scan raises exactly when the one-pass lexer fails or does not end outside everything. */
  lemma {:induction false} SpansExactly(text: string)
    ensures Fold(SplitLines(text), OUTSIDE) == Some(OUTSIDE) <==> Leave(Scan(text, NEUTRAL)) == Some(OUTSIDE)
  {
    FoldIsOnePass(SplitLines(text), OUTSIDE);
  }

  // ---------- statements between headers ----------

  predicate NoHeaders(stmts: seq<Stmt>) {
    forall i :: 0 <= i < |stmts| ==> stmts[i].Assign?
  }

  /** A stretch without header lines holds assignments only. */
  lemma {:induction false} StretchAssigns(lines: seq<string>, acc: string, c: Carry)
    requires Statements(lines, acc, c).Some? && (acc == "" ==> c == OUTSIDE)
    requires forall i :: 0 <= i < |lines| && (i > 0 || acc == "") && Fold(lines[..i], c) == Some(OUTSIDE) ==>
      TablePathFromLine(lines[i]).None?
    ensures NoHeaders(Statements(lines, acc, c).value)
  {
    if lines != [] {
      var m := Advance(lines[0], c).value;
      var rest := lines[1..];
      forall i | 0 <= i < |rest| && Fold(rest[..i], m) == Some(OUTSIDE) && (i > 0 || m == OUTSIDE)
        ensures TablePathFromLine(rest[i]).None?
      {
        assert lines[..i + 1][1..] == rest[..i] && lines[i + 1] == rest[i];
      }
      if m != OUTSIDE {
        StretchAssigns(rest, acc + lines[0], m);
      } else {
        StretchAssigns(rest, "", OUTSIDE);
        assert lines[..0] == [] && (acc == "" ==> "" + lines[0] == lines[0]);
        FirstIsNoHeader(lines[0], acc, c);
      }
    }
  }

  lemma {:induction false} FirstIsNoHeader(line: string, acc: string, c: Carry)
    requires ParseChunk(acc, line).Some?
    requires acc == "" && c == OUTSIDE ==> TablePathFromLine(line).None?
    requires acc == "" ==> c == OUTSIDE
    ensures NoHeaders(Only(ParseChunk(acc, line).value))
  {
    assert acc == "" ==> acc + line == line;
  }
}
