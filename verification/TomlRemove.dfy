/** `remove_toml_table_tree`: which lines it drops, and what that means for the document. */
module TomlRemove {
  import opened Text
  import opened Collections
  import opened Wrappers
  import opened TomlLexer
  import opened TomlSyntax
  import opened TomlAgreement
  import opened TomlWriter
  import opened TomlRoundTrip
  import opened TomlSpans
  import opened TomlEdits

  /** `not line.strip() or line.strip().startswith("#")` */
  predicate IsTrivia(line: string) {
    LStrip(line) == "" || LStrip(line)[0] == '#'
  }

  /** Behind the last line of the table that is not blank and not a comment; never in front of its header. */
  function ContentEnd(lines: seq<string>, start: nat, end: nat): (r: nat)
    requires start < end <= |lines|
    ensures start < r <= end
    ensures forall i :: r <= i < end ==> IsTrivia(lines[i])
    ensures r == start + 1 || !IsTrivia(lines[r - 1])
    decreases end
  {
    if end > start + 1 && IsTrivia(lines[end - 1]) then ContentEnd(lines, start, end - 1) else end
  }

  predicate SpanWithin(lines: seq<string>, s: TableSpan) {
    s.start < s.end <= |lines|
  }

  /** Line `i` of the table lies between its header and its last content. */
  predicate InContent(lines: seq<string>, s: TableSpan, i: nat) {
    SpanWithin(lines, s) && s.start <= i < ContentEnd(lines, s.start, s.end)
  }

  /** Line `i` belongs to the content of a table under `p`. */
  predicate Dropped(lines: seq<string>, spans: seq<TableSpan>, p: seq<string>, i: nat) {
    exists k :: 0 <= k < |spans| && Under(p, spans[k].path) && InContent(lines, spans[k], i)
  }

  /** The lines from `i` to `j` whose index is not in `drop`, in order. */
  function Keep(lines: seq<string>, drop: set<nat>, i: nat, j: nat): seq<string>
    requires i <= j <= |lines|
    decreases j - i
  {
    if i == j then [] else (if i in drop then [] else [lines[i]]) + Keep(lines, drop, i + 1, j)
  }

  lemma {:induction false} KeepSplit(lines: seq<string>, drop: set<nat>, i: nat, m: nat, j: nat)
    requires i <= m <= j <= |lines|
    ensures Keep(lines, drop, i, j) == Keep(lines, drop, i, m) + Keep(lines, drop, m, j)
    decreases m - i
  {
    if i < m {
      KeepSplit(lines, drop, i + 1, m, j);
      Assoc(if i in drop then [] else [lines[i]], Keep(lines, drop, i + 1, m), Keep(lines, drop, m, j));
    }
  }

  lemma {:induction false} KeepAll(lines: seq<string>, drop: set<nat>, i: nat, j: nat)
    requires i <= j <= |lines| && forall k :: i <= k < j ==> k !in drop
    ensures Keep(lines, drop, i, j) == lines[i..j]
    decreases j - i
  {
    if i < j {
      KeepAll(lines, drop, i + 1, j);
      assert lines[i..j] == [lines[i]] + lines[i + 1..j];
    }
  }

  lemma {:induction false} KeepNone(lines: seq<string>, drop: set<nat>, i: nat, j: nat)
    requires i <= j <= |lines| && forall k :: i <= k < j ==> k in drop
    ensures Keep(lines, drop, i, j) == []
    decreases j - i
  {
    if i < j {
      KeepNone(lines, drop, i + 1, j);
    }
  }

  lemma {:induction false} SpansWithin(lines: seq<string>, k: nat)
    requires k < |Headers(lines, |lines|)|
    ensures var s := SpansOf(Headers(lines, |lines|), |lines|)[k];
      SpanWithin(lines, s) && IsHeader(lines, s.start) && TablePathFromLine(lines[s.start]) == Some(s.path)
  {
    var headers := Headers(lines, |lines|);
    HeadersSound(lines, |lines|, k);
    if k + 1 < |headers| {
      HeadersSorted(lines, |lines|, k, k + 1);
      HeadersSound(lines, |lines|, k + 1);
    }
  }

  function AllSpans(lines: seq<string>): (r: seq<TableSpan>)
    ensures forall k :: 0 <= k < |r| ==> SpanWithin(lines, r[k])
  {
    var r := SpansOf(Headers(lines, |lines|), |lines|);
    assert forall k :: 0 <= k < |r| ==> SpanWithin(lines, r[k]) by {
      forall k | 0 <= k < |r| ensures SpanWithin(lines, r[k]) {
        SpansWithin(lines, k);
      }
    }
    r
  }

  predicate HasTree(lines: seq<string>, p: seq<string>) {
    SomeUnder(AllSpans(lines), p)
  }

  predicate SomeUnder(spans: seq<TableSpan>, p: seq<string>) {
    exists k :: 0 <= k < |spans| && Under(p, spans[k].path)
  }

  function DropSet(lines: seq<string>, p: seq<string>): set<nat> {
    set i: nat | 0 <= i < |lines| && Dropped(lines, AllSpans(lines), p, i)
  }

  /** The document without the tables under `p`. */
  function Kept(lines: seq<string>, p: seq<string>): seq<string> {
    Keep(lines, DropSet(lines, p), 0, |lines|)
  }

  predicate AllBlank(lines: seq<string>) {
    forall i :: 0 <= i < |lines| ==> ParseStmt(lines[i]) == Some(Blank)
  }

  /** Every line kept behind the content of table `k`, if it is removed, can stand on its own. */
  predicate TrailersAt(lines: seq<string>, p: seq<string>, k: nat)
    requires k < |AllSpans(lines)|
  {
    var s := AllSpans(lines)[k];
    Under(p, s.path) ==> AllBlank(lines[ContentEnd(lines, s.start, s.end)..s.end])
  }

  predicate TrailersFrom(lines: seq<string>, p: seq<string>, k: nat) {
    forall l :: k <= l < |AllSpans(lines)| ==> TrailersAt(lines, p, l)
  }

  predicate TrailersReadable(lines: seq<string>, p: seq<string>) {
    TrailersFrom(lines, p, 0)
  }

  // ---------- trailing blank lines and comments ----------

  lemma {:induction false} SpaceScan(s: string)
    requires forall i :: 0 <= i < |s| - 1 ==> s[i] != '\n'
    requires IsTrivia(s)
    ensures Leave(Scan(s, NEUTRAL)) == Some(OUTSIDE)
    decreases |s|
  {
    if s != "" && IsSpace(s[0]) {
      One(s, NEUTRAL, NEUTRAL);
      SpaceScan(s[1..]);
    } else if s != "" {
      CommentToEnd(s, NEUTRAL);
    }
  }

  lemma {:induction false} TriviaAdvances(line: string)
    requires IsLine(line) && IsTrivia(line)
    ensures Advance(line, OUTSIDE) == Some(OUTSIDE)
  {
    SpaceScan(line);
  }

  /** No key starts with a space of any kind or with `#`. */
  lemma {:induction false} NotAKey(s: string)
    requires s != "" && (IsSpace(s[0]) || s[0] == '#')
    ensures ParseAssign(s).None?
  {
  }

  lemma {:induction false} TriviaStart(s: string)
    requires IsTrivia(s)
    ensures var t := SkipWs(Unix(s)); t == "" || t[0] == '#' || IsSpace(t[0])
    decreases |s|
  {
    if s != "" && IsSpace(s[0]) {
      if |s| >= 2 && s[0] == '\r' && s[1] == '\n' {
        assert Unix(s)[0] == '\n';
      } else {
        TriviaStart(s[1..]);
        assert Unix(s)[1..] == Unix(s[1..]);
      }
    }
  }

  lemma {:induction false} TriviaIsBlank(line: string)
    requires IsTrivia(line) && ParseStmt(line).Some?
    ensures ParseStmt(line) == Some(Blank)
  {
    TriviaStart(line);
    var s := SkipWs(Unix(line));
    if !LineEnds(s) {
      NotAKey(s);
    }
  }

  lemma {:induction false} AllBlankCons(lines: seq<string>)
    requires lines != []
    ensures AllBlank(lines) <==> ParseStmt(lines[0]) == Some(Blank) && AllBlank(lines[1..])
  {
    if ParseStmt(lines[0]) == Some(Blank) && AllBlank(lines[1..]) {
      assert forall i :: 0 < i < |lines| ==> lines[i] == lines[1..][i - 1];
    }
  }

  /** Trailing lines hold no statement, and are readable exactly when each of them is. */
  lemma {:induction false} TrailersRead(lines: seq<string>)
    requires forall i :: 0 <= i < |lines| ==> IsLine(lines[i]) && IsTrivia(lines[i])
    ensures Fold(lines, OUTSIDE) == Some(OUTSIDE)
    ensures StatementsOf(lines) == if AllBlank(lines) then Some([]) else None
  {
    if lines != [] {
      TriviaAdvances(lines[0]);
      TrailersRead(lines[1..]);
      AllBlankCons(lines);
      FirstTrailer(lines);
    }
  }

  lemma {:induction false} FirstTrailer(lines: seq<string>)
    requires lines != [] && IsTrivia(lines[0]) && Advance(lines[0], OUTSIDE) == Some(OUTSIDE)
    requires StatementsOf(lines[1..]).Some? ==> StatementsOf(lines[1..]).value == []
    ensures StatementsOf(lines) ==
            if ParseStmt(lines[0]) == Some(Blank) && StatementsOf(lines[1..]).Some? then Some([]) else None
  {
    assert "" + lines[0] == lines[0];
    assert ParseChunk("", lines[0]) == ParseStmt(lines[0]);
    if ParseStmt(lines[0]).Some? {
      TriviaIsBlank(lines[0]);
      assert Only(Blank) + [] == [];
    }
  }

  // ---------- the statements of the kept lines ----------

  /** The first line of span `k`, or the end of the document behind the last span. */
  function StartOf(lines: seq<string>, k: nat): nat
    requires k <= |AllSpans(lines)|
  {
    if k < |AllSpans(lines)| then AllSpans(lines)[k].start else |lines|
  }

  lemma {:induction false} OutsideStatements(lines: seq<string>, i: nat)
    requires StatementsOf(lines).Some? && i <= |lines| && Outside(lines, i)
    ensures StatementsOf(lines[..i]).Some? && StatementsOf(lines[i..]).Some?
    ensures StatementsOf(lines).value == StatementsOf(lines[..i]).value + StatementsOf(lines[i..]).value
    ensures Fold(lines[i..], OUTSIDE) == Some(OUTSIDE)
  {
    assert lines == lines[..i] + lines[i..];
    StatementsAppend(lines[..i], lines[i..], "", OUTSIDE);
    StatementsFold(lines[i..], "", OUTSIDE);
  }

  /** A line that stands alone is one statement of the document. */
  lemma {:induction false} LineStatement(lines: seq<string>, i: nat)
    requires i < |lines| && Outside(lines, i) && Advance(lines[i], OUTSIDE) == Some(OUTSIDE)
    ensures StatementsOf(lines) ==
      (var x, s, y := StatementsOf(lines[..i]), ParseStmt(lines[i]), StatementsOf(lines[i + 1..]);
       if x.None? || s.None? || y.None? then None else Some(x.value + Only(s.value) + y.value))
  {
    assert lines == lines[..i] + lines[i..];
    StatementsAppend(lines[..i], lines[i..], "", OUTSIDE);
    assert lines[i..][0] == lines[i] && lines[i..][1..] == lines[i + 1..];
    assert "" + lines[i] == lines[i];
    assert ParseChunk("", lines[i]) == ParseStmt(lines[i]);
    var x, s, y := StatementsOf(lines[..i]), ParseStmt(lines[i]), StatementsOf(lines[i + 1..]);
    if x.Some? && s.Some? && y.Some? {
      Assoc(x.value, Only(s.value), y.value);
    }
  }

  lemma {:induction false} OutsideBetween(lines: seq<string>, i: nat, j: nat)
    requires i <= j <= |lines| && Outside(lines, i)
    ensures Fold(lines[i..j], OUTSIDE) == Fold(lines[..j], OUTSIDE)
  {
    assert lines[..j] == lines[..i] + lines[i..j];
    FoldAppend(lines[..i], lines[i..j], OUTSIDE);
  }

  lemma {:induction false} StartOutside(lines: seq<string>, k: nat)
    requires k <= |AllSpans(lines)| && Fold(lines, OUTSIDE) == Some(OUTSIDE)
    ensures StartOf(lines, k) <= |lines| && Outside(lines, StartOf(lines, k))
    ensures k < |AllSpans(lines)| ==> AllSpans(lines)[k].end == StartOf(lines, k + 1)
  {
    assert lines[..|lines|] == lines;
    if k < |AllSpans(lines)| {
      SpansWithin(lines, k);
    }
  }

  /** Lines from one header up to where no other header stands are that header and assignments. */
  lemma {:induction false} TableBody(lines: seq<string>, start: nat, end: nat)
    requires StatementsOf(lines).Some? && start < end <= |lines| && IsHeader(lines, start) && Outside(lines, end)
    requires forall j :: start < j < end ==> !IsHeader(lines, j)
    ensures var r := StatementsOf(lines[start..end]);
      r.Some? && r.value != [] && r.value[0].Header? && Some(r.value[0].path) == TablePathFromLine(lines[start]) &&
      NoHeaders(r.value[1..]) && Fold(lines[start..end], OUTSIDE) == Some(OUTSIDE)
  {
    var part := lines[start..end];
    OutsideBetween(lines, start, end);
    MiddleStatements(lines, start, end);
    StatementIsNeutral(part[0]);
    assert "" + part[0] == part[0];
    BodyHasNoHeader(lines, start, end);
    StretchAssigns(part[1..], "", OUTSIDE);
    var r := StatementsOf(part).value;
    assert r[1..] == StatementsOf(part[1..]).value;
  }

  lemma {:induction false} MiddleStatements(lines: seq<string>, start: nat, end: nat)
    requires StatementsOf(lines).Some? && start <= end <= |lines| && Outside(lines, start) && Outside(lines, end)
    ensures StatementsOf(lines[start..end]).Some?
  {
    OutsideStatements(lines, end);
    assert lines[..end][..start] == lines[..start] && lines[..end][start..] == lines[start..end];
    OutsideStatements(lines[..end], start);
  }

  lemma {:induction false} BodyHasNoHeader(lines: seq<string>, start: nat, end: nat)
    requires start < end <= |lines| && IsHeader(lines, start)
    requires forall j :: start < j < end ==> !IsHeader(lines, j)
    ensures var body := lines[start..end][1..];
      forall i :: 0 <= i < |body| && Fold(body[..i], OUTSIDE) == Some(OUTSIDE) ==> TablePathFromLine(body[i]).None?
  {
    var body := lines[start..end][1..];
    StatementIsNeutral(lines[start]);
    FoldNext(lines, start, OUTSIDE);
    forall i | 0 <= i < |body| && Fold(body[..i], OUTSIDE) == Some(OUTSIDE)
      ensures TablePathFromLine(body[i]).None?
    {
      BodyAt(lines, start, end, i);
      FoldAppend(lines[..start + 1], body[..i], OUTSIDE);
      assert !IsHeader(lines, start + 1 + i);
    }
  }

  lemma {:induction false} BodyAt(lines: seq<string>, start: nat, end: nat, i: nat)
    requires start < end <= |lines| && i < end - start - 1
    ensures var body := lines[start..end][1..];
      i < |body| && lines[start + 1 + i] == body[i] && lines[..start + 1 + i] == lines[..start + 1] + body[..i]
  {
  }

  /** A table is its header and assignments. */
  lemma {:induction false} SpanStatements(lines: seq<string>, k: nat)
    requires StatementsOf(lines).Some? && k < |AllSpans(lines)|
    ensures var s := AllSpans(lines)[k]; var r := StatementsOf(lines[s.start..s.end]);
      r.Some? && r.value != [] && r.value[0].Header? && r.value[0].path == s.path && NoHeaders(r.value[1..]) &&
      Fold(lines[s.start..s.end], OUTSIDE) == Some(OUTSIDE)
  {
    var s := AllSpans(lines)[k];
    StatementsFold(lines, "", OUTSIDE);
    SpansWithin(lines, k);
    StartOutside(lines, k);
    StartOutside(lines, k + 1);
    forall j | s.start < j < s.end ensures !IsHeader(lines, j) {
      if IsHeader(lines, j) {
        var l := HeadersComplete(lines, |lines|, j);
        BetweenHeaders(lines, k, l);
      }
    }
    TableBody(lines, s.start, s.end);
  }

  /** No header line lies strictly inside a span. */
  lemma {:induction false} BetweenHeaders(lines: seq<string>, k: nat, l: nat)
    requires k < |AllSpans(lines)| && l < |Headers(lines, |lines|)|
    ensures !(AllSpans(lines)[k].start < Headers(lines, |lines|)[l].0 < AllSpans(lines)[k].end)
  {
    var headers := Headers(lines, |lines|);
    forall i, j | 0 <= i < j < |headers| ensures headers[i].0 < headers[j].0 {
      HeadersSorted(lines, |lines|, i, j);
    }
    HeadersApart(headers, |lines|, k, l);
  }

  lemma {:induction false} HeadersApart(headers: seq<(nat, seq<string>)>, n: nat, k: nat, l: nat)
    requires forall i, j :: 0 <= i < j < |headers| ==> headers[i].0 < headers[j].0
    requires k < |headers| && l < |headers|
    ensures var s := SpansOf(headers, n)[k]; !(s.start < headers[l].0 < s.end)
  {
  }

  /** Spans do not overlap. */
  lemma {:induction false} OneSpan(lines: seq<string>, k: nat, l: nat, i: nat)
    requires k < |AllSpans(lines)| && l < |AllSpans(lines)|
    requires AllSpans(lines)[k].start <= i < AllSpans(lines)[k].end && AllSpans(lines)[l].start <= i < AllSpans(lines)[l].end
    ensures k == l
  {
    if l < k {
      SpansApart(lines, l, k);
    } else if k < l {
      SpansApart(lines, k, l);
    }
  }

  lemma {:induction false} SpansApart(lines: seq<string>, k: nat, l: nat)
    requires k < l < |AllSpans(lines)|
    ensures AllSpans(lines)[k].end <= AllSpans(lines)[l].start
  {
    if k + 1 < l {
      HeadersSorted(lines, |lines|, k + 1, l);
    }
  }

  /** Within span `k` the lines of no other span are dropped. */
  lemma {:induction false} DropInSpan(lines: seq<string>, p: seq<string>, k: nat, i: nat)
    requires k < |AllSpans(lines)| && AllSpans(lines)[k].start <= i < AllSpans(lines)[k].end
    ensures i in DropSet(lines, p) <==> Under(p, AllSpans(lines)[k].path) && InContent(lines, AllSpans(lines)[k], i)
  {
    var spans := AllSpans(lines);
    if i in DropSet(lines, p) {
      var l :| 0 <= l < |spans| && Under(p, spans[l].path) && InContent(lines, spans[l], i);
      OneSpan(lines, k, l, i);
    }
  }

  lemma {:induction false} KeepSpan(lines: seq<string>, p: seq<string>, k: nat)
    requires k < |AllSpans(lines)|
    ensures var s := AllSpans(lines)[k];
      Keep(lines, DropSet(lines, p), s.start, s.end) ==
        if Under(p, s.path) then lines[ContentEnd(lines, s.start, s.end)..s.end] else lines[s.start..s.end]
  {
    var s := AllSpans(lines)[k];
    var drop := DropSet(lines, p);
    forall i | s.start <= i < s.end
      ensures i in drop <==> Under(p, s.path) && i < ContentEnd(lines, s.start, s.end)
    {
      DropInSpan(lines, p, k, i);
    }
    if Under(p, s.path) {
      var c := ContentEnd(lines, s.start, s.end);
      KeepSplit(lines, drop, s.start, c, s.end);
      KeepNone(lines, drop, s.start, c);
      KeepAll(lines, drop, c, s.end);
    } else {
      KeepAll(lines, drop, s.start, s.end);
    }
  }

  lemma {:induction false} SpanKept(lines: seq<string>, p: seq<string>, k: nat)
    requires IsSplit(lines) && StatementsOf(lines).Some? && k < |AllSpans(lines)|
    ensures var s := AllSpans(lines)[k]; var keep := Keep(lines, DropSet(lines, p), s.start, s.end);
      Fold(keep, OUTSIDE) == Some(OUTSIDE) && StatementsOf(lines[s.start..s.end]).Some? &&
      StatementsOf(keep) ==
        if TrailersAt(lines, p, k) then Some(Remaining(StatementsOf(lines[s.start..s.end]).value, p, false)) else None
  {
    var s := AllSpans(lines)[k];
    KeepSpan(lines, p, k);
    SpanStatements(lines, k);
    var stmts := StatementsOf(lines[s.start..s.end]).value;
    TableRemaining(stmts, p);
    if Under(p, s.path) {
      TailTrivia(lines, ContentEnd(lines, s.start, s.end), s.end);
      TrailersRead(lines[ContentEnd(lines, s.start, s.end)..s.end]);
    }
  }

  lemma {:induction false} TailTrivia(lines: seq<string>, c: nat, end: nat)
    requires IsSplit(lines) && c <= end <= |lines| && forall i :: c <= i < end ==> IsTrivia(lines[i])
    ensures forall i :: 0 <= i < |lines[c..end]| ==> IsLine(lines[c..end][i]) && IsTrivia(lines[c..end][i])
  {
    forall i | 0 <= i < |lines[c..end]| ensures IsLine(lines[c..end][i]) && IsTrivia(lines[c..end][i]) {
      assert lines[c..end][i] == lines[c + i];
    }
  }

  lemma {:induction false} TableRemaining(stmts: seq<Stmt>, p: seq<string>)
    requires stmts != [] && stmts[0].Header? && NoHeaders(stmts[1..])
    ensures Remaining(stmts, p, false) == if Under(p, stmts[0].path) then [] else stmts
  {
    RemainingAssigns(stmts[1..], p, Under(p, stmts[0].path));
    assert [stmts[0]] + stmts[1..] == stmts;
  }

  lemma {:induction false} TrailersStep(lines: seq<string>, p: seq<string>, k: nat)
    requires k < |AllSpans(lines)|
    ensures TrailersFrom(lines, p, k) <==> TrailersFrom(lines, p, k + 1) && TrailersAt(lines, p, k)
  {
  }

  /** From line `b` on, what is kept reads as what remains; with an unreadable trailing line it reads as nothing. */
  ghost predicate SuffixReads(lines: seq<string>, drop: set<nat>, p: seq<string>, b: nat, readable: bool)
    requires b <= |lines|
  {
    var s := StatementsOf(lines[b..]);
    s.Some? && (s.value == [] || s.value[0].Header?) &&
    StatementsOf(Keep(lines, drop, b, |lines|)) == if readable then Some(Remaining(s.value, p, false)) else None
  }

  /** The same of the lines of one table, from its header to the next one. */
  ghost predicate TableReads(lines: seq<string>, drop: set<nat>, p: seq<string>, b: nat, e: nat, readable: bool)
    requires b <= e <= |lines|
  {
    var s := StatementsOf(lines[b..e]);
    Fold(lines[b..e], OUTSIDE) == Some(OUTSIDE) && Fold(Keep(lines, drop, b, e), OUTSIDE) == Some(OUTSIDE) &&
    s.Some? && s.value != [] && s.value[0].Header? &&
    StatementsOf(Keep(lines, drop, b, e)) == if readable then Some(Remaining(s.value, p, false)) else None
  }

  ghost predicate SuffixOk(lines: seq<string>, p: seq<string>, k: nat) {
    k <= |AllSpans(lines)| && StartOf(lines, k) <= |lines| &&
    SuffixReads(lines, DropSet(lines, p), p, StartOf(lines, k), TrailersFrom(lines, p, k))
  }

  ghost predicate TableOk(lines: seq<string>, p: seq<string>, k: nat) {
    k < |AllSpans(lines)| && StartOf(lines, k) <= StartOf(lines, k + 1) <= |lines| &&
    TableReads(lines, DropSet(lines, p), p, StartOf(lines, k), StartOf(lines, k + 1), TrailersAt(lines, p, k))
  }

  lemma {:induction false} SuffixKept(lines: seq<string>, p: seq<string>)
    requires IsSplit(lines) && StatementsOf(lines).Some?
    ensures SuffixOk(lines, p, 0)
  {
    NothingKept(lines, p);
    forall k: nat | k < |AllSpans(lines)| && SuffixOk(lines, p, k + 1) ensures SuffixOk(lines, p, k) {
      OneMoreTable(lines, p, k);
    }
    Downwards((k: nat) => SuffixOk(lines, p, k), |AllSpans(lines)|);
  }

  lemma {:induction false} OneMoreTable(lines: seq<string>, p: seq<string>, k: nat)
    requires IsSplit(lines) && StatementsOf(lines).Some? && k < |AllSpans(lines)| && SuffixOk(lines, p, k + 1)
    ensures SuffixOk(lines, p, k)
  {
    TableKept(lines, p, k);
    SuffixStep(lines, p, k);
  }

  lemma {:induction false} NothingKept(lines: seq<string>, p: seq<string>)
    ensures SuffixOk(lines, p, |AllSpans(lines)|)
  {
    assert lines[|lines|..] == [];
  }

  lemma {:induction false} SuffixStep(lines: seq<string>, p: seq<string>, k: nat)
    requires TableOk(lines, p, k) && SuffixOk(lines, p, k + 1)
    ensures SuffixOk(lines, p, k)
  {
    TrailersStep(lines, p, k);
    JoinParts(lines, DropSet(lines, p), p, StartOf(lines, k), StartOf(lines, k + 1), TrailersAt(lines, p, k),
              TrailersFrom(lines, p, k + 1));
  }

  lemma {:induction false} TableKept(lines: seq<string>, p: seq<string>, k: nat)
    requires IsSplit(lines) && StatementsOf(lines).Some? && k < |AllSpans(lines)|
    ensures TableOk(lines, p, k)
  {
    StatementsFold(lines, "", OUTSIDE);
    StartOutside(lines, k);
    StartOutside(lines, k + 1);
    SpansWithin(lines, k);
    SpanKept(lines, p, k);
    SpanStatements(lines, k);
  }

  /** Two stretches of kept lines read as what remains of both. */
  lemma {:induction false} JoinParts(lines: seq<string>, drop: set<nat>, p: seq<string>, b: nat, e: nat, first: bool, second: bool)
    requires b <= e <= |lines| && TableReads(lines, drop, p, b, e, first) && SuffixReads(lines, drop, p, e, second)
    ensures SuffixReads(lines, drop, p, b, first && second)
  {
    KeepSplit(lines, drop, b, e, |lines|);
    StatementsAppend(Keep(lines, drop, b, e), Keep(lines, drop, e, |lines|), "", OUTSIDE);
    assert lines[b..] == lines[b..e] + lines[e..];
    StatementsAppend(lines[b..e], lines[e..], "", OUTSIDE);
    RemainingAppend(StatementsOf(lines[b..e]).value, StatementsOf(lines[e..]).value, p, false);
  }

  /** The lines before the first header are kept as they are. */
  lemma {:induction false} PrefixKept(lines: seq<string>, p: seq<string>)
    requires StatementsOf(lines).Some? && StartOf(lines, 0) <= |lines|
    ensures var b := StartOf(lines, 0);
      Keep(lines, DropSet(lines, p), 0, b) == lines[..b] && Outside(lines, b) &&
      StatementsOf(lines[..b]).Some? && NoHeaders(StatementsOf(lines[..b]).value)
  {
    var b := StartOf(lines, 0);
    StatementsFold(lines, "", OUTSIDE);
    StartOutside(lines, 0);
    OutsideStatements(lines, b);
    forall i | 0 <= i < b ensures i !in DropSet(lines, p) && !IsHeader(lines, i) {
      BeforeFirst(lines, p, i);
    }
    KeepAll(lines, DropSet(lines, p), 0, b);
    NoHeaderStatements(lines, b);
  }

  lemma {:induction false} BeforeFirst(lines: seq<string>, p: seq<string>, i: nat)
    requires i < StartOf(lines, 0) <= |lines|
    ensures i !in DropSet(lines, p) && !IsHeader(lines, i)
  {
    if i in DropSet(lines, p) {
      var l :| 0 <= l < |AllSpans(lines)| && Under(p, AllSpans(lines)[l].path) && InContent(lines, AllSpans(lines)[l], i);
      if l > 0 {
        HeadersSorted(lines, |lines|, 0, l);
      }
    }
    if IsHeader(lines, i) {
      var l := HeadersComplete(lines, |lines|, i);
      if l > 0 {
        HeadersSorted(lines, |lines|, 0, l);
      }
    }
  }

  lemma {:induction false} NoHeaderStatements(lines: seq<string>, b: nat)
    requires b <= |lines| && StatementsOf(lines[..b]).Some? && forall i :: 0 <= i < b ==> !IsHeader(lines, i)
    ensures NoHeaders(StatementsOf(lines[..b]).value)
  {
    var part := lines[..b];
    forall i | 0 <= i < |part| && Fold(part[..i], OUTSIDE) == Some(OUTSIDE) ensures TablePathFromLine(part[i]).None? {
      assert part[..i] == lines[..i] && !IsHeader(lines, i);
    }
    StretchAssigns(part, "", OUTSIDE);
  }

  /** The kept lines hold the remaining statements. */
  lemma {:induction false} KeptStatements(lines: seq<string>, p: seq<string>)
    requires IsSplit(lines) && StatementsOf(lines).Some?
    ensures StatementsOf(Kept(lines, p)) ==
      if TrailersReadable(lines, p) then Some(Remaining(StatementsOf(lines).value, p, false)) else None
  {
    var drop := DropSet(lines, p);
    StatementsFold(lines, "", OUTSIDE);
    StartOutside(lines, 0);
    var b := StartOf(lines, 0);
    PrefixKept(lines, p);
    SuffixKept(lines, p);
    KeepSplit(lines, drop, 0, b, |lines|);
    StatementsAppend(lines[..b], Keep(lines, drop, b, |lines|), "", OUTSIDE);
    OutsideStatements(lines, b);
    var u, v := StatementsOf(lines[..b]).value, StatementsOf(lines[b..]).value;
    RemainingAppend(u, v, p, false);
    RemainingAssigns(u, p, false);
  }

  lemma {:induction false} KeptSplit(lines: seq<string>, drop: set<nat>, i: nat)
    requires IsSplit(lines) && i <= |lines|
    ensures IsSplit(Keep(lines, drop, i, |lines|))
    ensures forall k :: 0 <= k < |Keep(lines, drop, i, |lines|)| ==> Keep(lines, drop, i, |lines|)[k] in lines[i..]
    decreases |lines| - i
  {
    if i < |lines| {
      KeptSplit(lines, drop, i + 1);
      var rest := Keep(lines, drop, i + 1, |lines|);
      assert lines[i..] == [lines[i]] + lines[i + 1..];
      if i == |lines| - 1 {
        assert rest == [];
      } else {
        assert Ended(lines[i]);
      }
    }
  }

  /**
    The tree of what is left: the tree of the document without the tables under `p`.  It can be read unless a line
    kept behind the content of a removed table cannot stand on its own.
   */
  lemma {:induction false} RemovalPrunes(text: string, p: seq<string>)
    requires p != [] && Parse(text).Some?
    ensures var lines := SplitLines(text);
      Parse(Concat(Kept(lines, p))) == if TrailersReadable(lines, p) then Some(Prune(Parse(text).value, p)) else None
  {
    var lines := SplitLines(text);
    KeptSplit(lines, DropSet(lines, p), 0);
    SplitUnique(Kept(lines, p));
    KeptStatements(lines, p);
    RemainingTree(StatementsOf(lines).value, p);
  }

  // ---------- the source's loops ----------

  datatype PatchError = PathRequired | NotToml | UncertainStructure | NotFound | AlreadyExists | Ambiguous(found: nat) |
                        UnexpectedValue

  method TrailingContentEnd(lines: seq<string>, start: nat, end: nat) returns (contentEnd: nat)
    requires start < end <= |lines|
    ensures contentEnd == ContentEnd(lines, start, end)
  {
    contentEnd := end;
    while contentEnd > start + 1
      invariant start < contentEnd <= end
      invariant ContentEnd(lines, start, contentEnd) == ContentEnd(lines, start, end)
    {
      var stripped := LStrip(lines[contentEnd - 1]);
      if stripped != "" && stripped[0] != '#' {
        break;
      }
      contentEnd := contentEnd - 1;
    }
  }

  /** `range(a, b)` as a set */
  function Range(a: nat, b: nat): (r: set<nat>)
    ensures forall i: nat :: i in r <==> a <= i < b
    decreases b - a
  {
    if a >= b then {} else {a} + Range(a + 1, b)
  }

  method DroppedIndexes(lines: seq<string>, spans: seq<TableSpan>, path: seq<string>) returns (found: bool, indexes: set<nat>)
    requires forall k :: 0 <= k < |spans| ==> SpanWithin(lines, spans[k])
    ensures found <==> SomeUnder(spans, path)
    ensures Collects(lines, spans, path, indexes)
  {
    found := false;
    indexes := {};
    for k := 0 to |spans|
      invariant found <==> SomeUnder(spans[..k], path)
      invariant Collects(lines, spans[..k], path, indexes)
    {
      ghost var before := indexes;
      SomeUnderMore(spans, path, k);
      if path <= spans[k].path {
        found := true;
        var contentEnd := TrailingContentEnd(lines, spans[k].start, spans[k].end);
        indexes := indexes + Range(spans[k].start, contentEnd);
      }
      CollectsMore(lines, spans, path, k, before, indexes);
    }
    assert spans[..|spans|] == spans;
  }

  lemma {:induction false} SomeUnderMore(spans: seq<TableSpan>, p: seq<string>, k: nat)
    requires k < |spans|
    ensures SomeUnder(spans[..k + 1], p) <==> (SomeUnder(spans[..k], p) || Under(p, spans[k].path))
  {
    var under := (s: TableSpan) => Under(p, s.path);
    AnyMore(spans, k, under);
    SomeUnderIs(spans[..k], p, under);
    SomeUnderIs(spans[..k + 1], p, under);
  }

  lemma {:induction false} SomeUnderIs(spans: seq<TableSpan>, p: seq<string>, under: TableSpan -> bool)
    requires forall s :: under(s) <==> Under(p, s.path)
    ensures SomeUnder(spans, p) <==> Any(spans, under)
  {
  }

  /** The index set built so far. */
  ghost predicate Collects(lines: seq<string>, spans: seq<TableSpan>, p: seq<string>, indexes: set<nat>) {
    forall i: nat :: i in indexes <==> Dropped(lines, spans, p, i)
  }

  lemma {:induction false} CollectsMore(lines: seq<string>, spans: seq<TableSpan>, p: seq<string>, k: nat, before: set<nat>,
                                        after: set<nat>)
    requires k < |spans| && SpanWithin(lines, spans[k]) && Collects(lines, spans[..k], p, before)
    requires after == if Under(p, spans[k].path)
                      then before + Range(spans[k].start, ContentEnd(lines, spans[k].start, spans[k].end)) else before
    ensures Collects(lines, spans[..k + 1], p, after)
  {
    forall i: nat ensures i in after <==> Dropped(lines, spans[..k + 1], p, i) {
      DroppedMore(lines, spans, p, k, i);
    }
  }

  lemma {:induction false} CollectsAll(lines: seq<string>, p: seq<string>, indexes: set<nat>)
    requires Collects(lines, AllSpans(lines), p, indexes)
    ensures indexes == DropSet(lines, p)
  {
    forall i: nat | i in indexes ensures i < |lines| {
      var k :| 0 <= k < |AllSpans(lines)| && Under(p, AllSpans(lines)[k].path) && InContent(lines, AllSpans(lines)[k], i);
    }
  }

  lemma {:induction false} DroppedMore(lines: seq<string>, spans: seq<TableSpan>, p: seq<string>, k: nat, i: nat)
    requires k < |spans| && SpanWithin(lines, spans[k])
    ensures Dropped(lines, spans[..k + 1], p, i) <==>
            (Dropped(lines, spans[..k], p, i) || (Under(p, spans[k].path) && InContent(lines, spans[k], i)))
  {
    var drops := (s: TableSpan) => Under(p, s.path) && InContent(lines, s, i);
    AnyMore(spans, k, drops);
    DroppedIs(lines, spans[..k], p, i, drops);
    DroppedIs(lines, spans[..k + 1], p, i, drops);
  }

  lemma {:induction false} DroppedIs(lines: seq<string>, spans: seq<TableSpan>, p: seq<string>, i: nat, drops: TableSpan -> bool)
    requires forall s :: drops(s) <==> Under(p, s.path) && InContent(lines, s, i)
    ensures Dropped(lines, spans, p, i) <==> Any(spans, drops)
  {
  }

  method JoinKept(lines: seq<string>, indexes: set<nat>) returns (text: string)
    ensures text == Concat(Keep(lines, indexes, 0, |lines|))
  {
    text := "";
    var index := |lines|;
    while index > 0
      invariant 0 <= index <= |lines|
      invariant text == Concat(Keep(lines, indexes, index, |lines|))
    {
      index := index - 1;
      if index !in indexes {
        text := lines[index] + text;
        assert ([lines[index]] + Keep(lines, indexes, index + 1, |lines|))[1..] == Keep(lines, indexes, index + 1, |lines|);
      } else {
        assert [] + Keep(lines, indexes, index + 1, |lines|) == Keep(lines, indexes, index + 1, |lines|);
      }
    }
  }

  /** What `remove_toml_table_tree` leaves of a document that can be read; None where it raises. */
  function Leftover(text: string, path: seq<string>): Option<string> {
    var lines := SplitLines(text);
    if HasTree(lines, path) && TrailersReadable(lines, path) then Some(Concat(Kept(lines, path))) else None
  }

  lemma {:induction false} LeftoverReads(text: string, path: seq<string>)
    requires Parse(text).Some? && path != [] && Leftover(text, path).Some?
    ensures Parse(Leftover(text, path).value) == Some(Prune(Parse(text).value, path))
  {
    RemovalPrunes(text, path);
  }

  /** No table has this path or one below it. */
  predicate NothingUnder(lines: seq<string>, path: seq<string>) {
    forall k :: 0 <= k < |AllSpans(lines)| ==> !(path <= AllSpans(lines)[k].path)
  }

  /**
    `remove_toml_table_tree`: on success the text is the document's own lines, in order, without those from a removed
    header to the last content of its table, and it reads as the document's tree without that subtree.
   */
  method RemoveTomlTableTree(text: string, tablePath: seq<string>) returns (r: Result<string, PatchError>)
    ensures r.Ok? <==> tablePath != [] && Parse(text).Some? && Leftover(text, tablePath).Some?
    ensures r.Ok? ==> r.value == Leftover(text, tablePath).value
    ensures r.Err? ==>
      r.error == if tablePath == [] then PathRequired
                 else if Parse(text).Some? && NothingUnder(SplitLines(text), tablePath) then NotFound
                 else NotToml
    ensures r.Ok? ==> Parse(r.value) == Some(Prune(Parse(text).value, tablePath))
  {
    if tablePath == [] {
      return Err(PathRequired);
    }
    if Parse(text).None? {
      return Err(NotToml);
    }
    var lines := SplitLines(text);
    StatementsFold(lines, "", OUTSIDE);
    var spans := TableSpans(lines);
    if spans.None? {
      return Err(UncertainStructure);
    }
    assert spans.value == AllSpans(lines);
    var found, indexes := DroppedIndexes(lines, spans.value, tablePath);
    CollectsAll(lines, tablePath, indexes);
    if !found {
      return Err(NotFound);
    }
    var candidate := JoinKept(lines, indexes);
    RemovalPrunes(text, tablePath);
    if Parse(candidate).None? {
      return Err(NotToml);
    }
    return Ok(candidate);
  }
}
