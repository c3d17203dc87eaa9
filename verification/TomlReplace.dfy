/** `replace_toml_scalar`: which line it changes, and what that means for the document. */
module TomlReplace {
  import opened Text
  import opened Wrappers
  import opened TomlLexer
  import opened TomlSyntax
  import opened TomlAgreement
  import opened TomlWriter
  import opened TomlObjects
  import opened TomlScalars
  import opened TomlRoundTrip
  import opened TomlSpans
  import opened TomlEdits
  import opened TomlRemove
  import TomlLocality
  import TomlLineBreaks

  // ---------- the parts of an assignment line ----------

  /** Where the blanks that start at `i` end. */
  function SpaceEnd(s: string, i: nat): (n: nat)
    requires i <= |s|
    ensures i <= n <= |s|
    decreases |s| - i
  {
    if i < |s| && IsSpace(s[i]) then SpaceEnd(s, i + 1) else i
  }

  /** Where the bare key that starts at `i` ends. */
  function BareEnd(s: string, i: nat): (n: nat)
    requires i <= |s|
    ensures i <= n <= |s|
    decreases |s| - i
  {
    if i < |s| && IsBareKey(s[i]) then BareEnd(s, i + 1) else i
  }

  /** The named groups of `_SCALAR_ASSIGNMENT`; the separator is `before`, an equals sign and `after`. */
  datatype Parts = Parts(indent: string, key: string, before: string, after: string, payload: string) {
    function Head(): string {
      indent + key + before + "=" + after
    }
  }

  predicate Spaces(s: string) {
    forall i :: 0 <= i < |s| ==> IsSpace(s[i])
  }

  predicate WellFormed(a: Parts) {
    && Spaces(a.indent) && Spaces(a.before) && Spaces(a.after) && IsBare(a.key)
    && (a.payload == "" || !IsSpace(a.payload[0]))
  }

  function MatchAssignment(body: string): Option<Parts> {
    var i := SpaceEnd(body, 0);
    var k := BareEnd(body, i);
    var b := SpaceEnd(body, k);
    if k == i || b == |body| || body[b] != '=' then None
    else
      var c := SpaceEnd(body, b + 1);
      Some(Parts(body[..i], body[i..k], body[k..b], body[b + 1..c], body[c..]))
  }

  lemma {:induction false} SpaceEndIs(s: string, i: nat, n: nat)
    requires i <= |s| && n == SpaceEnd(s, i)
    ensures Spaces(s[i..n]) && (n < |s| ==> !IsSpace(s[n]))
    decreases |s| - i
  {
    if i < |s| && IsSpace(s[i]) {
      SpaceEndIs(s, i + 1, n);
    }
  }

  lemma {:induction false} BareEndIs(s: string, i: nat, n: nat)
    requires i <= |s| && n == BareEnd(s, i)
    ensures forall j :: i <= j < n ==> IsBareKey(s[j])
    decreases |s| - i
  {
    if i < |s| && IsBareKey(s[i]) {
      BareEndIs(s, i + 1, n);
    }
  }

  /** The groups make up the whole line. */
  lemma {:induction false} MatchGroups(body: string, a: Parts)
    requires MatchAssignment(body) == Some(a)
    ensures WellFormed(a) && a.Head() + a.payload == body
  {
    var i := SpaceEnd(body, 0);
    var k := BareEnd(body, i);
    var b := SpaceEnd(body, k);
    var c := SpaceEnd(body, b + 1);
    SpaceEndIs(body, 0, i);
    BareEndIs(body, i, k);
    SpaceEndIs(body, k, b);
    SpaceEndIs(body, b + 1, c);
    MatchIs(body, a, i, k, b, c);
    GroupsJoin(body, i, k, b, c);
  }

  lemma {:induction false} MatchIs(body: string, a: Parts, i: nat, k: nat, b: nat, c: nat)
    requires MatchAssignment(body) == Some(a) && i == SpaceEnd(body, 0) && k == BareEnd(body, i) && b == SpaceEnd(body, k)
    requires b < |body| && c == SpaceEnd(body, b + 1)
    ensures i < k <= b < c <= |body| && body[b] == '='
    ensures a == Parts(body[..i], body[i..k], body[k..b], body[b + 1..c], body[c..])
  {
  }

  lemma {:induction false} GroupsJoin(body: string, i: nat, k: nat, b: nat, c: nat)
    requires i < k <= b < c <= |body| && body[b] == '='
    requires Spaces(body[0..i]) && Spaces(body[k..b]) && Spaces(body[b + 1..c]) && (c < |body| ==> !IsSpace(body[c]))
    requires forall j :: i <= j < k ==> IsBareKey(body[j])
    ensures var a := Parts(body[..i], body[i..k], body[k..b], body[b + 1..c], body[c..]);
      WellFormed(a) && a.Head() + a.payload == body
  {
    assert body[0..i] == body[..i];
    assert body[..i] + body[i..k] == body[..k];
    assert body[..k] + body[k..b] == body[..b];
    assert body[..b] + "=" == body[..b + 1];
    assert body[..b + 1] + body[b + 1..c] == body[..c];
  }

  /** The line break at the end of a line. */
  function LineBreak(line: string): string {
    if |line| >= 2 && line[|line| - 2..] == "\r\n" then "\r\n" else if |line| >= 1 && line[|line| - 1] == '\n' then "\n" else ""
  }

  function Body(line: string): string {
    line[..|line| - |LineBreak(line)|]
  }

  lemma {:induction false} BodyAndBreak(line: string)
    ensures Body(line) + LineBreak(line) == line
    ensures IsLine(line) ==> Without(Body(line), '\n')
  {
    BodyAndTail(line);
    if IsLine(line) {
      BodyUnbroken(line);
    }
  }

  lemma {:induction false} TailIsBreak(line: string)
    ensures line[|line| - |LineBreak(line)|..] == LineBreak(line)
  {
    if LineBreak(line) == "\n" {
      assert line[|line| - 1..] == [line[|line| - 1]];
    }
  }

  lemma {:induction false} BodyAndTail(line: string)
    ensures Body(line) + LineBreak(line) == line
  {
    TailIsBreak(line);
    Halves(line, |line| - |LineBreak(line)|);
  }

  lemma {:induction false} Halves(line: string, n: nat)
    requires n <= |line|
    ensures line[..n] + line[n..] == line
  {
  }

  lemma {:induction false} BodyUnbroken(line: string)
    requires IsLine(line)
    ensures Without(Body(line), '\n')
  {
    var n := |line| - |LineBreak(line)|;
    if n == |line| {
      assert line[|line| - 1] != '\n';
    }
    forall i | 0 <= i < n ensures line[i] != '\n' {
      assert i < |line| - 1 || n == |line|;
    }
    assert Body(line) == line[..n];
  }

  /** Where the first `#` outside one-line quotes is, or the end. */
  function CommentAt(payload: string, i: nat, quote: Option<Quote>, escaped: bool): (r: nat)
    requires i <= |payload|
    ensures i <= r <= |payload|
    ensures r < |payload| ==> payload[r] == '#'
    decreases |payload| - i
  {
    if i == |payload| then i
    else
      var c := payload[i];
      if quote == Some(Basic) then
        if escaped then CommentAt(payload, i + 1, quote, false)
        else if c == '\\' then CommentAt(payload, i + 1, quote, true)
        else CommentAt(payload, i + 1, if c == '"' then None else quote, false)
      else if quote == Some(Literal) then CommentAt(payload, i + 1, if c == '\'' then None else quote, false)
      else if c == '"' then CommentAt(payload, i + 1, Some(Basic), false)
      else if c == '\'' then CommentAt(payload, i + 1, Some(Literal), false)
      else if c == '#' then i
      else CommentAt(payload, i + 1, None, false)
  }

  function ValueText(payload: string): (r: string)
    ensures r <= payload && (r == "" || !IsSpace(r[|r| - 1]))
  {
    RStrip(payload[..CommentAt(payload, 0, None, false)])
  }

  function Suffix(payload: string): string {
    payload[|ValueText(payload)|..]
  }

  /** `_split_toml_value_suffix` */
  method SplitTomlValueSuffix(payload: string) returns (value: string, suffix: string)
    ensures value == ValueText(payload) && suffix == Suffix(payload) && value + suffix == payload
  {
    var quote: Option<Quote> := None;
    var escaped := false;
    var index := 0;
    while index < |payload|
      invariant 0 <= index <= |payload|
      invariant escaped ==> quote == Some(Basic)
      invariant CommentAt(payload, index, quote, escaped) == CommentAt(payload, 0, None, false)
    {
      var c := payload[index];
      if quote == Some(Basic) {
        if escaped {
          escaped := false;
        } else if c == '\\' {
          escaped := true;
        } else if c == '"' {
          quote := None;
        }
      } else if quote == Some(Literal) {
        if c == '\'' {
          quote := None;
        }
      } else if c == '"' {
        quote := Some(Basic);
      } else if c == '\'' {
        quote := Some(Literal);
      } else if c == '#' {
        value := RStrip(payload[..index]);
        suffix := payload[|value|..];
        return;
      }
      index := index + 1;
    }
    assert payload[..|payload|] == payload;
    value := RStrip(payload);
    suffix := payload[|value|..];
  }

  lemma {:induction false} RStripRest(s: string)
    ensures Spaces(s[|RStrip(s)|..])
  {
    if s != "" && IsSpace(s[|s| - 1]) {
      RStripRest(s[..|s| - 1]);
      var n := |RStrip(s)|;
      assert s[n..] == s[..|s| - 1][n..] + [s[|s| - 1]];
    }
  }

  lemma {:induction false} SpacesTrivia(a: string, b: string)
    requires Spaces(a) && (b == "" || b[0] == '#' || Spaces(b))
    ensures IsTrivia(a + b)
    decreases |a| + |b|
  {
    if a != "" {
      assert (a + b)[1..] == a[1..] + b;
      SpacesTrivia(a[1..], b);
    } else {
      assert a + b == b;
      if b != "" && b[0] != '#' {
        assert "" + b[1..] == b[1..];
        SpacesTrivia("", b[1..]);
      }
    }
  }

  /** Behind the value text there are only blanks and a comment. */
  lemma {:induction false} SuffixIsTrivia(payload: string, lineBreak: string)
    requires lineBreak == "" || lineBreak == "\n" || lineBreak == "\r\n"
    ensures IsTrivia(Suffix(payload) + lineBreak)
  {
    var n := CommentAt(payload, 0, None, false);
    var v := ValueText(payload);
    RStripRest(payload[..n]);
    var spaces := payload[..n][|v|..];
    var rest := payload[n..] + lineBreak;
    assert Suffix(payload) + lineBreak == spaces + rest;
    if n == |payload| {
      assert rest == lineBreak;
      assert Spaces(lineBreak);
    }
    SpacesTrivia(spaces, rest);
  }

  // ---------- which line matches ----------

  /** Line `i` makes the assignment inside a table of that path, outside every multi-line string and array. */
  predicate IsMatch(lines: seq<string>, path: seq<string>, assigns: string -> bool, i: nat) {
    exists k :: 0 <= k < |AllSpans(lines)| && MatchIn(lines, AllSpans(lines)[k], path, assigns, i)
  }

  predicate MatchIn(lines: seq<string>, s: TableSpan, path: seq<string>, assigns: string -> bool, i: nat) {
    s.path == path && s.start < i < s.end <= |lines| && Outside(lines, i) && assigns(lines[i])
  }

  predicate AssignsKey(line: string, key: string) {
    var m := MatchAssignment(Body(line));
    m.Some? && m.value.key == key
  }

  function Assigns(key: string): string -> bool {
    (line: string) => AssignsKey(line, key)
  }

  /** The numbers below `n` that satisfy `p`, in order. */
  function Where(p: nat -> bool, n: nat): seq<nat> {
    if n == 0 then [] else Where(p, n - 1) + (if p(n - 1) then [n - 1] else [])
  }

  lemma {:induction false} WhereIn(p: nat -> bool, n: nat, i: nat)
    ensures i in Where(p, n) <==> i < n && p(i)
    decreases n
  {
    if n > 0 {
      WhereIn(p, n - 1, i);
    }
  }

  lemma {:induction false} WhereNone(p: nat -> bool, i: nat, j: nat)
    requires i <= j && forall l :: i <= l < j ==> !p(l)
    ensures Where(p, j) == Where(p, i)
    decreases j
  {
    if i < j {
      WhereNone(p, i, j - 1);
    }
  }

  /** The matching lines among the first `n`, in order. */
  function MatchList(lines: seq<string>, path: seq<string>, assigns: string -> bool, n: nat): seq<nat> {
    Where((i: nat) => IsMatch(lines, path, assigns, i), n)
  }

  lemma {:induction false} MatchListStep(lines: seq<string>, path: seq<string>, assigns: string -> bool, n: nat, m: bool)
    requires m == IsMatch(lines, path, assigns, n)
    ensures MatchList(lines, path, assigns, n + 1) == MatchList(lines, path, assigns, n) + (if m then [n] else [])
  {
  }

  lemma {:induction false} MatchListIn(lines: seq<string>, path: seq<string>, assigns: string -> bool, n: nat, i: nat)
    ensures i in MatchList(lines, path, assigns, n) <==> i < n && IsMatch(lines, path, assigns, i)
  {
    WhereIn((l: nat) => IsMatch(lines, path, assigns, l), n, i);
  }

  /** Within span `k`, only that span decides. */
  lemma {:induction false} MatchInSpan(lines: seq<string>, path: seq<string>, assigns: string -> bool, k: nat, i: nat)
    requires k < |AllSpans(lines)| && AllSpans(lines)[k].start <= i < AllSpans(lines)[k].end
    ensures IsMatch(lines, path, assigns, i) <==> MatchIn(lines, AllSpans(lines)[k], path, assigns, i)
  {
    if IsMatch(lines, path, assigns, i) {
      var l :| 0 <= l < |AllSpans(lines)| && MatchIn(lines, AllSpans(lines)[l], path, assigns, i);
      OneSpan(lines, k, l, i);
    }
  }

  /** Lines that no span of that path holds add nothing. */
  lemma {:induction false} NoMatches(lines: seq<string>, path: seq<string>, assigns: string -> bool, i: nat, j: nat)
    requires i <= j && forall l :: i <= l < j ==> !IsMatch(lines, path, assigns, l)
    ensures MatchList(lines, path, assigns, j) == MatchList(lines, path, assigns, i)
  {
    WhereNone((l: nat) => IsMatch(lines, path, assigns, l), i, j);
  }

  lemma {:induction false} BeforeFirstSpan(lines: seq<string>, path: seq<string>, assigns: string -> bool, n: nat)
    requires n <= StartOf(lines, 0)
    ensures MatchList(lines, path, assigns, n) == []
  {
    forall l | 0 <= l < n ensures !IsMatch(lines, path, assigns, l) {
      if IsMatch(lines, path, assigns, l) {
        var k :| 0 <= k < |AllSpans(lines)| && MatchIn(lines, AllSpans(lines)[k], path, assigns, l);
        if k > 0 {
          HeadersSorted(lines, |lines|, 0, k);
        }
      }
    }
    NoMatches(lines, path, assigns, 0, n);
  }

  /** Line `i` stands outside everything and makes the assignment. */
  predicate Hit(lines: seq<string>, assigns: string -> bool, i: nat)
    requires i < |lines|
  {
    Outside(lines, i) && assigns(lines[i])
  }

  /** The lines from `i` up to `n` that do. */
  function Hits(lines: seq<string>, assigns: string -> bool, i: nat, n: nat): seq<nat>
    requires n <= |lines|
  {
    if n <= i then [] else Hits(lines, assigns, i, n - 1) + (if Hit(lines, assigns, n - 1) then [n - 1] else [])
  }

  lemma {:induction false} HitsStep(lines: seq<string>, assigns: string -> bool, i: nat, n: nat, hit: bool)
    requires i <= n < |lines| && hit == Hit(lines, assigns, n)
    ensures Hits(lines, assigns, i, n + 1) == Hits(lines, assigns, i, n) + (if hit then [n] else [])
  {
  }

  lemma {:induction false} AppendOne(a: seq<nat>, b: seq<nat>, m: bool, n: nat)
    ensures (a + b) + (if m then [n] else []) == a + (b + (if m then [n] else []))
  {
  }

  /** Inside a table of that path these are the matches. */
  lemma {:induction false} HitsAreMatches(lines: seq<string>, path: seq<string>, assigns: string -> bool, k: nat, span: TableSpan, n: nat)
    requires k < |AllSpans(lines)| && span == AllSpans(lines)[k] && span.path == path
    requires span.start < n <= span.end <= |lines|
    ensures MatchList(lines, path, assigns, n) == MatchList(lines, path, assigns, span.start) + Hits(lines, assigns, span.start + 1, n)
    decreases n
  {
    var m := IsMatch(lines, path, assigns, n - 1);
    MatchInSpan(lines, path, assigns, k, n - 1);
    MatchListStep(lines, path, assigns, n - 1, m);
    if n - 1 > span.start {
      HitsAreMatches(lines, path, assigns, k, span, n - 1);
      HitsStep(lines, assigns, span.start + 1, n - 1, m);
      AppendOne(MatchList(lines, path, assigns, span.start), Hits(lines, assigns, span.start + 1, n - 1), m, n - 1);
    }
  }

  method SpanMatches(lines: seq<string>, assigns: string -> bool, start: nat, end: nat) returns (matches: seq<nat>)
    requires IsSplit(lines) && start < end <= |lines| && Fold(lines, OUTSIDE) == Some(OUTSIDE)
    requires Outside(lines, start + 1)
    ensures matches == Hits(lines, assigns, start + 1, end)
  {
    var state := new TomlLexicalState();
    matches := [];
    for index := start + 1 to end
      invariant state.Valid() && Fold(lines[..index], OUTSIDE) == Some(state.Value())
      invariant matches == Hits(lines, assigns, start + 1, index)
    {
      HitsStep(lines, assigns, start + 1, index, state.IsOutside() && assigns(lines[index]));
      if state.IsOutside() && assigns(lines[index]) {
        matches := matches + [index];
      }
      FoldNext(lines, index, state.Value());
      var ok := AdvanceLexicalState(lines[index], state);
      if !ok {
        FoldStops(lines, index + 1);
        assert false;
      }
    }
  }

  method FindMatches(lines: seq<string>, spans: seq<TableSpan>, path: seq<string>, assigns: string -> bool) returns (matches: seq<nat>)
    requires IsSplit(lines) && Fold(lines, OUTSIDE) == Some(OUTSIDE) && spans == AllSpans(lines)
    ensures matches == MatchList(lines, path, assigns, |lines|)
  {
    matches := [];
    StartOutside(lines, 0);
    BeforeFirstSpan(lines, path, assigns, StartOf(lines, 0));
    for k := 0 to |spans|
      invariant Gathered(lines, path, assigns, k, matches)
    {
      var s := spans[k];
      SpanStep(lines, path, assigns, k, s, matches);
      if s.path == path {
        var found := SpanMatches(lines, assigns, s.start, s.end);
        matches := matches + found;
      }
    }
  }

  /** The matches in front of the `k`th span. */
  predicate Gathered(lines: seq<string>, path: seq<string>, assigns: string -> bool, k: nat, matches: seq<nat>) {
    k <= |AllSpans(lines)| && StartOf(lines, k) <= |lines| && matches == MatchList(lines, path, assigns, StartOf(lines, k))
  }

  /** What one span adds to the matches. */
  lemma {:induction false} SpanStep(lines: seq<string>, path: seq<string>, assigns: string -> bool, k: nat, s: TableSpan,
                                     before: seq<nat>)
    requires IsSplit(lines) && Fold(lines, OUTSIDE) == Some(OUTSIDE) && k < |AllSpans(lines)| && s == AllSpans(lines)[k]
    requires Gathered(lines, path, assigns, k, before)
    ensures s.start < s.end <= |lines| && Outside(lines, s.start + 1)
    ensures s.path == path ==> Gathered(lines, path, assigns, k + 1, before + Hits(lines, assigns, s.start + 1, s.end))
    ensures s.path != path ==> Gathered(lines, path, assigns, k + 1, before)
  {
    StartOutside(lines, k);
    SpansWithin(lines, k);
    BodyOutside(lines, s.start);
    if s.path == path {
      HitsAreMatches(lines, path, assigns, k, s, s.end);
    } else {
      OtherSpan(lines, path, assigns, k);
    }
  }

  lemma {:induction false} BodyOutside(lines: seq<string>, start: nat)
    requires start < |lines| && IsHeader(lines, start)
    ensures Outside(lines, start + 1)
  {
    StatementIsNeutral(lines[start]);
    FoldNext(lines, start, OUTSIDE);
  }

  lemma {:induction false} OtherSpan(lines: seq<string>, path: seq<string>, assigns: string -> bool, k: nat)
    requires k < |AllSpans(lines)| && AllSpans(lines)[k].path != path
    ensures var s := AllSpans(lines)[k]; MatchList(lines, path, assigns, s.end) == MatchList(lines, path, assigns, s.start)
  {
    var s := AllSpans(lines)[k];
    forall l | s.start <= l < s.end ensures !IsMatch(lines, path, assigns, l) {
      MatchInSpan(lines, path, assigns, k, l);
    }
    SpansWithin(lines, k);
    NoMatches(lines, path, assigns, s.start, s.end);
  }

  // ---------- the current value ----------

  /** `tomllib.loads(f"value = {value_text}\n")["value"]` */
  function LoadValue(valueText: string): Option<Value> {
    var s := ParseStmt("value = " + valueText + "\n");
    if s.Some? && s.value.Assign? && s.value.key == "value" then Some(s.value.value) else None
  }

  /** What the replacement reads back as. */
  function Stored(replacement: Data): Value
    requires IsScalar(replacement)
  {
    if replacement.Text? then Str(Folded(replacement.s)) else ValueOf(replacement)
  }

  predicate Storable(replacement: Data)
    requires IsScalar(replacement)
  {
    replacement.Text? ==> Clean(Folded(replacement.s))
  }

  function NewLine(line: string, replacement: Data): string
    requires MatchAssignment(Body(line)).Some? && IsScalar(replacement)
  {
    var a := MatchAssignment(Body(line)).value;
    a.Head() + FormatScalar(replacement) + (Suffix(a.payload) + LineBreak(line))
  }

  // ---------- the lexer on the old and the new line ----------

  lemma {:induction false} EncodeScan(s: string, rest: string, d: Lex)
    requires d.mode.Plain? && Without(s, '\r')
    ensures Scan(Encode(s) + "\"" + rest, d.(mode := OneLine(Basic, false))) == Scan(rest, d)
    decreases |s|
  {
    var l := d.(mode := OneLine(Basic, false));
    var t := Encode(s) + "\"" + rest;
    if s == "" {
      assert t == "\"" + rest && t[1..] == rest;
      One(t, l, d);
    } else {
      var u := Encode(s[1..]) + "\"" + rest;
      assert t == EncodeChar(s[0]) + u by {
        Assoc(EncodeChar(s[0]), Encode(s[1..]), "\"");
        Assoc(EncodeChar(s[0]), Encode(s[1..]) + "\"", rest);
      }
      EncodeScan(s[1..], rest, d);
      EncodedCharScan(s[0], t, u, l);
    }
  }

  lemma {:induction false} EncodedCharScan(c: char, t: string, u: string, l: Lex)
    requires t == EncodeChar(c) + u && l.mode == OneLine(Basic, false)
    ensures Scan(t, l) == Scan(u, l)
  {
    if |EncodeChar(c)| == 2 {
      assert t[1..] == [EncodeChar(c)[1]] + u && t[1..][1..] == u;
      One(t, l, l.(mode := OneLine(Basic, true)));
      One(t[1..], l.(mode := OneLine(Basic, true)), l);
    } else {
      assert t[1..] == u;
      One(t, l, l);
    }
  }

  lemma {:induction false} TextScanned(s: string, f: string, rest: string)
    requires f == FormatText(s) && (rest == "" || !IsQuote(rest[0]))
    ensures Scan(f + rest, NEUTRAL) == Scan(rest, NEUTRAL)
  {
    var t := f + rest;
    EscapedIsEncoded(s);
    ReplacedNoCr(Unix(s));
    TextNotMulti(s, rest);
    assert t[0] == '"' && t[1..] == Encode(Folded(s)) + "\"" + rest;
    One(t, NEUTRAL, NEUTRAL.(mode := OneLine(Basic, false)));
    EncodeScan(Folded(s), rest, NEUTRAL);
  }

  /** The written scalar leaves the lexer as it was, whether or not it can be read. */
  lemma {:induction false} ScalarScan(d: Data, f: string, rest: string)
    requires IsScalar(d) && f == FormatScalar(d) && (rest == "" || !IsQuote(rest[0]))
    ensures Scan(f + rest, NEUTRAL) == Scan(rest, NEUTRAL)
  {
    if d.Text? {
      TextScanned(d.s, f, rest);
    } else {
      PlainText(d, f);
      TokenScanned(f, rest);
    }
  }

  lemma {:induction false} PlainText(d: Data, f: string)
    requires IsScalar(d) && !d.Text? && f == FormatScalar(d)
    ensures forall i :: 0 <= i < |f| ==> IsTokenChar(f[i])
  {
    if d.Number? {
      IntTextReads(d.n);
    }
  }

  lemma {:induction false} TokenScanned(f: string, rest: string)
    requires forall i :: 0 <= i < |f| ==> IsTokenChar(f[i])
    ensures Scan(f + rest, NEUTRAL) == Scan(rest, NEUTRAL)
  {
    InertScan(f + rest, |f|, NEUTRAL);
    assert (f + rest)[|f|..] == rest;
  }

  lemma {:induction false} HeadScan(a: Parts, rest: string)
    requires WellFormed(a)
    ensures Scan(a.Head() + rest, NEUTRAL) == Scan(rest, NEUTRAL)
  {
    var h := a.Head();
    assert forall i :: 0 <= i < |h| ==> Inert(h[i]);
    assert forall i :: 0 <= i < |h| ==> (h + rest)[i] == h[i];
    InertScan(h + rest, |h|, NEUTRAL);
    assert (h + rest)[|h|..] == rest;
  }

  lemma {:induction false} TriviaNoQuote(t: string)
    requires IsTrivia(t)
    ensures t == "" || !IsQuote(t[0])
  {
  }

  /** A value text that loads leaves the lexer outside everything, or in a comment it ends with. */
  lemma {:induction false} LoadedScan(v: string)
    requires LoadValue(v).Some?
    ensures Rests(Scan(v, NEUTRAL), NEUTRAL)
  {
    StatementIsNeutral("value = " + v + "\n");
    BehindPrefix(v + "\n");
    Assoc("value = ", v, "\n");
    ScanAppend(v, "\n", NEUTRAL);
    AfterLoaded(Scan(v, NEUTRAL).value);
  }

  lemma {:induction false} BehindPrefix(rest: string)
    ensures Scan("value = " + rest, NEUTRAL) == Scan(rest, NEUTRAL)
  {
    var prefix: string := "value = ";
    var u := prefix + rest;
    assert forall i :: 0 <= i < 8 ==> u[i] == prefix[i];
    InertScan(u, 8, NEUTRAL);
    assert u[8..] == rest;
  }

  lemma {:induction false} AfterLoaded(e: Lex)
    requires Leave(Scan("\n", e)) == Some(OUTSIDE)
    ensures e == NEUTRAL || e == NEUTRAL.(mode := Comment)
  {
    var n: string := ['\n'];
    ScanStep(n, e, Step(n, e));
    assert n[1..] == "";
  }

  /** Trailing blanks and comment, read outside everything or inside a comment. */
  lemma {:induction false} TailScan(t: string, e: Lex)
    requires IsTrivia(t) && OneLineTail(t) && (e == NEUTRAL || e == NEUTRAL.(mode := Comment))
    ensures Leave(Scan(t, e)) == Some(OUTSIDE)
  {
    if e == NEUTRAL {
      SpaceScan(t);
    } else if t != "" {
      CommentToEnd(t, e);
    }
  }

  predicate OneLineTail(t: string) {
    forall i :: 0 <= i < |t| - 1 ==> t[i] != '\n'
  }

  /** The line is the head of the assignment, the value text, and only blanks and a comment behind it. */
  ghost predicate Cut(line: string, a: Parts, v: string, tail: string) {
    && WellFormed(a) && Without(a.Head(), '\n') && Without(v, '\n') && line == a.Head() + (v + tail)
    && IsTrivia(tail) && OneLineTail(tail) && (Ended(line) ==> Ended(tail))
    && (v != "" ==> !IsSpace(v[0]) && !IsSpace(v[|v| - 1]))
  }

  lemma {:induction false} LineCut(line: string, a: Parts, v: string, tail: string)
    requires IsLine(line) && MatchAssignment(Body(line)) == Some(a)
    requires v == ValueText(a.payload) && tail == Suffix(a.payload) + LineBreak(line)
    ensures Cut(line, a, v, tail)
  {
    BodyAndBreak(line);
    MatchGroups(Body(line), a);
    SuffixIsTrivia(a.payload, LineBreak(line));
    assert a.payload == v + Suffix(a.payload);
    PiecesCut(line, Body(line), a, v, Suffix(a.payload), LineBreak(line));
  }

  lemma {:induction false} PiecesCut(line: string, body: string, a: Parts, v: string, x: string, b: string)
    requires IsLine(line) && line == body + b && b == LineBreak(line) && Without(body, '\n') && IsTrivia(x + b)
    requires WellFormed(a) && body == a.Head() + a.payload && a.payload == v + x && (v == "" || !IsSpace(v[|v| - 1]))
    ensures Cut(line, a, v, x + b)
  {
    WithoutAppend(a.Head(), a.payload, '\n');
    WithoutAppend(v, x, '\n');
    JoinThree(a.Head(), v, x, b);
    TailOnOneLine(line, a.Head() + v, x + b);
    BreakEnds(line, x, b);
  }

  lemma {:induction false} JoinThree(h: string, v: string, x: string, b: string)
    ensures h + (v + x) + b == h + (v + (x + b))
    ensures (h + v) + (x + b) == h + (v + (x + b))
  {
  }

  lemma {:induction false} OldLineAlone(line: string, a: Parts, v: string, tail: string)
    requires Cut(line, a, v, tail) && LoadValue(v).Some?
    ensures Advance(line, OUTSIDE) == Some(OUTSIDE)
  {
    TriviaNoQuote(tail);
    HeadScan(a, v + tail);
    LoadedScan(v);
    ScanAppend(v, tail, NEUTRAL);
    TailScan(tail, Scan(v, NEUTRAL).value);
  }

  lemma {:induction false} TailOnOneLine(line: string, head: string, tail: string)
    requires IsLine(line) && line == head + tail
    ensures OneLineTail(tail)
  {
    forall i | 0 <= i < |tail| - 1 ensures tail[i] != '\n' {
      assert line[|head| + i] == tail[i];
    }
  }

  lemma {:induction false} NewLineAlone(line: string, a: Parts, v: string, tail: string, replacement: Data, f: string)
    requires Cut(line, a, v, tail) && IsScalar(replacement) && f == FormatScalar(replacement)
    ensures var l := a.Head() + f + tail; Advance(l, OUTSIDE) == Some(OUTSIDE) && IsLine(l) && (Ended(line) ==> Ended(l))
  {
    TriviaNoQuote(tail);
    Assoc(a.Head(), f, tail);
    HeadScan(a, f + tail);
    ScalarScan(replacement, f, tail);
    TailScan(tail, NEUTRAL);
    FormatScalarFlat(replacement);
    WithoutAppend(a.Head(), f, '\n');
    NewLineShape(a.Head() + f, tail);
  }

  lemma {:induction false} NewLineShape(head: string, tail: string)
    requires head != "" && Without(head, '\n') && OneLineTail(tail)
    ensures IsLine(head + tail)
    ensures Ended(tail) ==> Ended(head + tail)
  {
    var l := head + tail;
    forall i | 0 <= i < |l| - 1 ensures l[i] != '\n' {
      if i >= |head| {
        assert l[i] == tail[i - |head|];
      }
    }
  }

  lemma {:induction false} BreakEnds(line: string, x: string, b: string)
    requires b == LineBreak(line)
    ensures Ended(line) ==> Ended(x + b)
  {
  }

  // ---------- the grammar on the old and the new line ----------

  predicate AllWs(s: string) {
    forall i :: 0 <= i < |s| ==> IsWs(s[i])
  }

  /** Skipping blanks stops at the first space that TOML does not know. */
  lemma {:induction false} SkipSpaces(sp: string, x: string)
    requires Spaces(sp) && Without(sp, '\n')
    ensures AllWs(sp) ==> SkipWs(sp + x) == SkipWs(x)
    ensures !AllWs(sp) ==> var t := SkipWs(sp + x); t != "" && IsSpace(t[0]) && !IsWs(t[0]) && t[0] != '\n'
  {
    if sp == "" {
      assert sp + x == x;
    } else {
      assert (sp + x)[0] == sp[0] && (sp + x)[1..] == sp[1..] + x;
      SkipSpaces(sp[1..], x);
      if IsWs(sp[0]) && AllWs(sp[1..]) {
        assert forall i :: 0 < i < |sp| ==> sp[i] == sp[1..][i - 1];
      }
    }
  }

  predicate Blanked(a: Parts) {
    AllWs(a.indent) && AllWs(a.before) && AllWs(a.after)
  }

  /** What the grammar makes of the parts of an assignment line. */
  lemma {:induction false} PartsParse(a: Parts, rest: string)
    requires WellFormed(a) && Without(a.Head(), '\n') && (rest == "" || !IsWs(rest[0]))
    ensures ParseUnix(a.Head() + rest) ==
      (var v := ParseValue(rest);
       if Blanked(a) && v.Some? && LineEnds(v.value.1) then Some(Assign(a.key, v.value.0)) else None)
  {
    var x3 := a.after + rest;
    var x2 := "=" + x3;
    var x1 := a.before + x2;
    var s := a.key + x1;
    JoinHead(a, rest);
    HeadPieces(a);
    SkipSpaces(a.indent, s);
    assert s[0] == a.key[0];
    assert SkipWs(s) == s;
    if AllWs(a.indent) {
      KeyPart(a, s, x1, x2, x3, rest);
    } else {
      NotAKey(SkipWs(a.indent + s));
    }
  }

  lemma {:induction false} JoinHead(a: Parts, rest: string)
    ensures a.Head() + rest == a.indent + (a.key + (a.before + ("=" + (a.after + rest))))
  {
  }

  lemma {:induction false} KeyPart(a: Parts, s: string, x1: string, x2: string, x3: string, rest: string)
    requires WellFormed(a) && Without(a.before, '\n') && Without(a.after, '\n') && (rest == "" || !IsWs(rest[0]))
    requires x3 == a.after + rest && x2 == "=" + x3 && x1 == a.before + x2 && s == a.key + x1
    ensures ParseAssign(s) ==
      (var v := ParseValue(rest);
       if AllWs(a.before) && AllWs(a.after) && v.Some? && LineEnds(v.value.1) then Some(Assign(a.key, v.value.0)) else None)
    ensures SkipWs(s) == s && !LineEnds(s) && s[0] != '['
  {
    assert s[0] == a.key[0];
    assert x1 != "" && !IsBareKey(x1[0]) by {
      assert x1[0] == if a.before == "" then '=' else a.before[0];
    }
    BareLengthIs(a.key, x1);
    assert s[..|a.key|] == a.key && s[|a.key|..] == x1;
    assert ParseKey(s) == Some((a.key, x1));
    SkipSpaces(a.before, x2);
    assert x2[0] == '=' && x2[1..] == x3 && SkipWs(x2) == x2;
    AfterEquals(a, rest);
  }

  lemma {:induction false} HeadPieces(a: Parts)
    requires Without(a.Head(), '\n')
    ensures Without(a.indent, '\n') && Without(a.before, '\n') && Without(a.after, '\n')
  {
    WithoutAppend(a.indent + a.key + a.before + "=", a.after, '\n');
    WithoutAppend(a.indent + a.key + a.before, "=", '\n');
    WithoutAppend(a.indent + a.key, a.before, '\n');
    WithoutAppend(a.indent, a.key, '\n');
  }

  lemma {:induction false} AfterEquals(a: Parts, rest: string)
    requires Spaces(a.after) && Without(a.after, '\n') && (rest == "" || !IsWs(rest[0]))
    ensures AllWs(a.after) ==> SkipWs(a.after + rest) == rest
    ensures !AllWs(a.after) ==> ParseValue(SkipWs(a.after + rest)).None?
  {
    SkipSpaces(a.after, rest);
    assert SkipWs(rest) == rest;
    if !AllWs(a.after) {
      NoValueAtSpace(SkipWs(a.after + rest));
    }
  }

  lemma {:induction false} NoValueAtSpace(t: string)
    requires t != "" && IsSpace(t[0])
    ensures ParseValue(t).None?
  {
    assert TokenLength(t) == 0;
    assert t[..0] == "";
  }

  lemma {:induction false} FirstAndRest(a: string, b: string)
    requires a != ""
    ensures [a[0]] + (a[1..] + b) == a + b
  {
  }

  lemma {:induction false} UnixHead(a: string, b: string)
    requires Without(a, '\n') && (a == "" || a[|a| - 1] != '\r')
    ensures Unix(a + b) == a + Unix(b)
    decreases |a|
  {
    if a == "" {
      assert a + b == b;
    } else {
      assert (a + b)[0] == a[0] && (a + b)[1..] == a[1..] + b;
      if |a| > 1 {
        assert (a + b)[1] == a[1] != '\n';
      }
      UnixHead(a[1..], b);
      FirstAndRest(a, Unix(b));
    }
  }

  /** The old line, if it can be read at all, assigns the key; and its blanks are TOML's. */
  lemma {:induction false} OldLineParses(line: string, a: Parts, v: string, tail: string)
    requires Cut(line, a, v, tail) && v != "" && ParseStmt(line).Some?
    ensures Blanked(a) && ParseStmt(line).value.Assign? && ParseStmt(line).value.key == a.key
  {
    UnixCut(a.Head(), v, tail);
    assert (v + Unix(tail))[0] == v[0];
    PartsParse(a, v + Unix(tail));
  }

  /** The old line's value is the one that its value text loads as. */
  lemma {:induction false} OldLineValue(line: string, a: Parts, v: string, tail: string)
    requires Cut(line, a, v, tail) && v != "" && ParseStmt(line).Some? && LoadValue(v).Some?
    ensures ParseStmt(line) == Some(Assign(a.key, LoadValue(v).value))
  {
    UnixCut(a.Head(), v, tail);
    assert (v + Unix(tail))[0] == v[0];
    PartsParse(a, v + Unix(tail));
    LoadedValue(v);
    TriviaStops(tail);
    TomlLineBreaks.ReadsOn(v, Unix(tail));
  }

  lemma {:induction false} TriviaStops(tail: string)
    requires IsTrivia(tail)
    ensures TomlLocality.Stops(Unix(tail))
  {
    if tail != "" {
      assert Unix(tail)[0] == tail[0] || Unix(tail)[0] == '\n';
    }
  }

  lemma {:induction false} LoadedValue(v: string)
    requires v != "" && Without(v, '\n') && !IsSpace(v[0]) && !IsSpace(v[|v| - 1]) && LoadValue(v).Some?
    ensures var p := ParseValue(TomlLineBreaks.Broken(v)); p.Some? && LineEnds(p.value.1) && p.value.0 == LoadValue(v).value
  {
    var n: string := ['\n'];
    UnixCut("value = ", v, n);
    assert n[1..] == "" && Unix(n[1..]) == "" && Unix(n) == n;
    assert (v + n)[0] == v[0];
    LoadedParse(v + n);
  }

  /** What `value = ` in front of a text is read as. */
  lemma {:induction false} LoadedParse(rest: string)
    requires rest == "" || !IsSpace(rest[0])
    ensures ParseUnix("value = " + rest) ==
      (var v := ParseValue(rest); if v.Some? && LineEnds(v.value.1) then Some(Assign("value", v.value.0)) else None)
  {
    var a := Parts("", "value", " ", " ", "");
    assert a.Head() == "value = ";
    PartsParse(a, rest);
  }

  lemma {:induction false} UnixCut(h: string, v: string, tail: string)
    requires Without(h, '\n') && Without(v, '\n') && v != "" && v[|v| - 1] != '\r'
    ensures Unix(h + (v + tail)) == h + (v + Unix(tail))
    ensures Unix((h + v) + tail) == h + (v + Unix(tail))
  {
    WithoutAppend(h, v, '\n');
    Assoc(h, v, tail);
    UnixHead(h + v, tail);
    Assoc(h, v, Unix(tail));
  }

  /** The new line reads as the key with the stored value, if that value and what follows it can be read. */
  lemma {:induction false} NewLineParses(line: string, a: Parts, v: string, tail: string, replacement: Data, f: string)
    requires Cut(line, a, v, tail) && IsScalar(replacement) && f == FormatScalar(replacement) && Blanked(a)
    ensures ParseStmt(a.Head() + f + tail) ==
            if Storable(replacement) && LineEnds(Unix(tail)) then Some(Assign(a.key, Stored(replacement))) else None
  {
    FormatScalarFlat(replacement);
    ScalarShape(replacement);
    UnixCut(a.Head(), f, tail);
    TriviaEnds(tail);
    assert (f + Unix(tail))[0] == f[0];
    PartsParse(a, f + Unix(tail));
    StoredReads(replacement, Unix(tail));
  }

  lemma {:induction false} ScalarShape(d: Data)
    requires IsScalar(d)
    ensures var f := FormatScalar(d); f != "" && !IsSpace(f[0]) && !IsSpace(f[|f| - 1])
  {
    match d
    case Text(_) =>
    case Number(n) => NumberShape(n);
    case Fraction(t) => FractionShape(t);
    case Flag(_) =>
  }

  lemma {:induction false} NumberShape(n: int)
    ensures var f := FormatScalar(Number(n)); f != "" && !IsSpace(f[0]) && !IsSpace(f[|f| - 1])
  {
    NatTextReads(if n < 0 then -n else n);
  }

  lemma {:induction false} TokenEnds(t: string)
    requires t != "" && forall i :: 0 <= i < |t| ==> IsTokenChar(t[i])
    ensures !IsSpace(t[0]) && !IsSpace(t[|t| - 1])
  {
    assert IsTokenChar(t[0]) && IsTokenChar(t[|t| - 1]);
  }

  lemma {:induction false} FractionShape(t: FloatText)
    ensures var f := FormatScalar(Fraction(t)); f != "" && !IsSpace(f[0]) && !IsSpace(f[|f| - 1])
  {
    TokenEnds(t);
  }

  lemma {:induction false} TriviaEnds(t: string)
    requires IsTrivia(t)
    ensures Ends(Unix(t))
  {
    if t != "" {
      assert Unix(t)[0] == t[0] || Unix(t)[0] == '\n';
    }
  }

  lemma {:induction false} StoredReads(d: Data, rest: string)
    requires IsScalar(d) && Ends(rest)
    ensures ParseValue(FormatScalar(d) + rest) == if Storable(d) then Some((Stored(d), rest)) else None
  {
    if d.Text? {
      FormatTextReads(d.s, rest);
      TextNotMulti(d.s, rest);
    } else {
      ScalarReads(d, rest);
    }
  }

  // ---------- the statements and the tree ----------

  /** Behind a header and assignments the current table is that header's. */
  lemma {:induction false} CurrentTable(d: Doc, body: seq<Stmt>)
    requires NoHeaders(body) && Build(d, body).Some?
    ensures Build(d, body).value.at == d.at
    decreases |body|
  {
    if body != [] {
      CurrentTable(Apply(d, body[0]).value, body[1..]);
    }
  }

  /** In front of a line of a table, the current table is that table. */
  lemma {:induction false} TableAt(lines: seq<string>, k: nat, i: nat)
    requires StatementsOf(lines).Some? && k < |AllSpans(lines)|
    requires AllSpans(lines)[k].start < i < AllSpans(lines)[k].end <= |lines| && Outside(lines, i)
    ensures i <= |lines| && StatementsOf(lines[..i]).Some?
    ensures Build(START, StatementsOf(lines[..i]).value).Some? ==>
      Build(START, StatementsOf(lines[..i]).value).value.at == AllSpans(lines)[k].path
  {
    var s := AllSpans(lines)[k];
    SpansWithin(lines, k);
    OutsideStatements(lines, i);
    forall j | s.start < j < i ensures !IsHeader(lines, j) {
      if IsHeader(lines, j) {
        var l := HeadersComplete(lines, |lines|, j);
        BetweenHeaders(lines, k, l);
      }
    }
    TableBody(lines, s.start, i);
    assert lines[..i][..s.start] == lines[..s.start] && lines[..i][s.start..] == lines[s.start..i];
    OutsideStatements(lines[..i], s.start);
    var a, b := StatementsOf(lines[..s.start]).value, StatementsOf(lines[s.start..i]).value;
    BuildAppend(START, a, b);
    if Build(START, a + b).Some? {
      CurrentTable(Apply(Build(START, a).value, b[0]).value, b[1..]);
    }
  }

  predicate Unreadable(line: string, replacement: Data)
    requires MatchAssignment(Body(line)).Some? && IsScalar(replacement)
  {
    !Storable(replacement) || !LineEnds(Unix(Suffix(MatchAssignment(Body(line)).value.payload) + LineBreak(line)))
  }

  /** The tree is the old one with the value at one place of that path and key changed from `was` to `v`. */
  ghost predicate OneValueReplaced(before: Node, after: Node, path: seq<string>, key: string, was: Value, v: Value) {
    exists loc :: Keys(loc) == path + [key] && HasLeaf(before, loc) && LeafAt(before, loc) == was && after == SetLeaf(before, loc, v)
  }

  /** In front of a matching line the document reads, and the current table is the one asked for. */
  lemma {:induction false} MatchTable(lines: seq<string>, path: seq<string>, assigns: string -> bool, i: nat)
    requires IsMatch(lines, path, assigns, i) && StatementsOf(lines).Some?
    ensures i < |lines| && Outside(lines, i) && StatementsOf(lines[..i]).Some?
    ensures var b := Build(START, StatementsOf(lines[..i]).value); b.Some? ==> b.value.at == path
  {
    var k :| 0 <= k < |AllSpans(lines)| && MatchIn(lines, AllSpans(lines)[k], path, assigns, i);
    TableAt(lines, k, i);
  }

  /** The old line and the new one. */
  lemma {:induction false} BothLines(line: string, a: Parts, v: string, tail: string, replacement: Data, l: string)
    requires Cut(line, a, v, tail) && LoadValue(v).Some? && ParseStmt(line).Some?
    requires IsScalar(replacement) && l == a.Head() + FormatScalar(replacement) + tail
    ensures ParseStmt(line) == Some(Assign(a.key, LoadValue(v).value)) && Advance(l, OUTSIDE) == Some(OUTSIDE)
    ensures ParseStmt(l) ==
            if Storable(replacement) && LineEnds(Unix(tail)) then Some(Assign(a.key, Stored(replacement))) else None
    ensures IsLine(l) && (Ended(line) ==> Ended(l))
  {
    EmptyValueText(v);
    OldLineParses(line, a, v, tail);
    OldLineValue(line, a, v, tail);
    NewLineAlone(line, a, v, tail, replacement, FormatScalar(replacement));
    NewLineParses(line, a, v, tail, replacement, FormatScalar(replacement));
  }

  lemma {:induction false} ReplacedLines(lines: seq<string>, i: nat, path: seq<string>, replacement: Data,
                                         a: Parts, v: string, tail: string, l: string)
    requires IsSplit(lines) && i < |lines| && IsMatch(lines, path, Assigns(a.key), i) && ParseLines(lines).Some?
    requires IsScalar(replacement) && Cut(lines[i], a, v, tail) && LoadValue(v).Some?
    requires l == a.Head() + FormatScalar(replacement) + tail
    ensures var after := lines[i := l];
      IsSplit(after) &&
      if !Storable(replacement) || !LineEnds(Unix(tail)) then ParseLines(after).None?
      else ParseLines(after).Some? &&
           OneValueReplaced(ParseLines(lines).value, ParseLines(after).value, path, a.key, LoadValue(v).value, Stored(replacement))
  {
    MatchTable(lines, path, Assigns(a.key), i);
    OldLineAlone(lines[i], a, v, tail);
    LineStatement(lines, i);
    BothLines(lines[i], a, v, tail, replacement, l);
    StillSplit(lines, i, l);
    ReplacedStatement(lines, i, path, l, a.key, LoadValue(v).value, Stored(replacement));
  }

  lemma {:induction false} StillSplit(lines: seq<string>, i: nat, l: string)
    requires IsSplit(lines) && i < |lines| && IsLine(l) && (Ended(lines[i]) ==> Ended(l))
    ensures IsSplit(lines[i := l])
  {
  }

  /** Exchanging one assignment line for another one of that key, or for one that cannot be read. */
  lemma {:induction false} ReplacedStatement(lines: seq<string>, i: nat, path: seq<string>, l: string, key: string, v: Value,
                                             w: Value)
    requires i < |lines| && Outside(lines, i) && ParseLines(lines).Some?
    requires Advance(lines[i], OUTSIDE) == Some(OUTSIDE) == Advance(l, OUTSIDE)
    requires ParseStmt(lines[i]) == Some(Assign(key, v))
    requires ParseStmt(l) == Some(Assign(key, w)) || ParseStmt(l).None?
    requires StatementsOf(lines[..i]).Some?
    requires var b := Build(START, StatementsOf(lines[..i]).value); b.Some? ==> b.value.at == path
    ensures var after := ParseLines(lines[i := l]);
      if ParseStmt(l).None? then after.None?
      else after.Some? && OneValueReplaced(ParseLines(lines).value, after.value, path, key, v, w)
  {
    var after := lines[i := l];
    assert after[..i] == lines[..i] && after[i + 1..] == lines[i + 1..] && after[i] == l;
    LineStatement(lines, i);
    LineStatement(after, i);
    if ParseStmt(l).Some? {
      ReplacedTree(StatementsOf(lines[..i]).value, key, v, w, StatementsOf(lines[i + 1..]).value, path);
    }
  }

  /** An empty value text does not load. */
  lemma {:induction false} EmptyValueText(v: string)
    requires LoadValue(v).Some?
    ensures v != ""
  {
    if v == "" {
      var head: string := "value = ";
      var n: string := ['\n'];
      assert "value = " + v + "\n" == head + n;
      UnixHead(head, n);
      assert n[1..] == "" && Unix(n) == n;
      EmptyNoValue(head);
    }
  }

  lemma {:induction false} EmptyNoValue(head: string)
    requires head == "value = "
    ensures ParseUnix(head + "\n") != Some(Blank) && (ParseUnix(head + "\n").Some? ==> !ParseUnix(head + "\n").value.Assign?)
  {
    var s := head + "\n";
    var x: string := " = \n";
    assert s == "value" + x && s[0] == 'v';
    assert SkipWs(s) == s;
    BareLengthIs("value", x);
    assert s[..5] == "value" && s[5..] == x;
    assert x[1..] == "= \n";
    var e: string := "= \n";
    assert SkipWs(x) == e && SkipWs(e) == e;
    var f: string := e[1..];
    assert f == " \n" && f[1..] == "\n";
    var n: string := ['\n'];
    assert SkipWs(n) == n && SkipWs(f) == n;
    assert TokenLength(n) == 0 && n[..0] == "";
    assert ParseValue(n).None?;
  }

  lemma {:induction false} ReplacedTree(a: seq<Stmt>, key: string, v: Value, w: Value, b: seq<Stmt>, path: seq<string>)
    requires Build(START, a + [Assign(key, v)] + b).Some?
    requires Build(START, a).Some? ==> Build(START, a).value.at == path
    ensures Build(START, a + [Assign(key, w)] + b).Some?
    ensures OneValueReplaced(Build(START, a + [Assign(key, v)] + b).value.root,
                             Build(START, a + [Assign(key, w)] + b).value.root, path, key, v, w)
  {
    var loc := OneValueChanged(a, key, v, w, b);
  }

  /** The value that is in the way of a replacement: the payload of the matching line, read on its own. */
  function CurrentValue(line: string): Option<Value> {
    var a := MatchAssignment(Body(line));
    if a.None? then None else LoadValue(ValueText(a.value.payload))
  }

  /** What stands in front of a value: the key and an equals sign, with blanks around them. */
  ghost predicate LeadsTo(head: string, key: string) {
    exists a, b, c :: Spaces(a) && Spaces(b) && Spaces(c) && head == a + key + b + "=" + c
  }

  /** The text of a value, without blanks around it. */
  predicate IsValueText(text: string, v: Value) {
    LoadValue(text) == Some(v) && text != "" && !IsSpace(text[0]) && !IsSpace(text[|text| - 1])
  }

  ghost predicate ExchangedAt(was: string, now: string, key: string, v: Value, written: string, head: string, text: string, tail: string) {
    && was == head + text + tail && now == head + written + tail
    && LeadsTo(head, key) && IsValueText(text, v) && IsTrivia(tail)
  }

  /** Of an assignment line only the value's text is exchanged: what leads to it stays, and so does the comment behind it. */
  ghost predicate Exchanged(was: string, now: string, key: string, v: Value, written: string) {
    exists head, text, tail :: ExchangedAt(was, now, key, v, written, head, text, tail)
  }

  lemma {:induction false} NewLineExchanges(line: string, key: string, replacement: Data)
    requires AssignsKey(line, key) && CurrentValue(line).Some? && IsScalar(replacement)
    ensures Exchanged(line, NewLine(line, replacement), key, CurrentValue(line).value, FormatScalar(replacement))
  {
    var a := MatchAssignment(Body(line)).value;
    var v, tail := ValueText(a.payload), Suffix(a.payload) + LineBreak(line);
    HeadLeads(Body(line), a);
    PayloadText(a.payload);
    BodyAndBreak(line);
    SuffixIsTrivia(a.payload, LineBreak(line));
    PartsJoin(line, a.Head(), a.payload, v, LineBreak(line));
    PartsAssoc(a.Head(), FormatScalar(replacement), tail);
    assert ExchangedAt(line, NewLine(line, replacement), key, LoadValue(v).value, FormatScalar(replacement), a.Head(), v, tail);
  }

  lemma {:induction false} HeadLeads(body: string, a: Parts)
    requires MatchAssignment(body) == Some(a)
    ensures a.Head() + a.payload == body && LeadsTo(a.Head(), a.key) && (a.payload == "" || !IsSpace(a.payload[0]))
  {
    MatchGroups(body, a);
  }

  lemma {:induction false} PayloadText(payload: string)
    requires (payload == "" || !IsSpace(payload[0])) && LoadValue(ValueText(payload)).Some?
    ensures IsValueText(ValueText(payload), LoadValue(ValueText(payload)).value)
  {
    EmptyValueText(ValueText(payload));
    assert ValueText(payload)[0] == payload[0];
  }

  lemma {:induction false} PartsJoin(line: string, head: string, payload: string, v: string, lineBreak: string)
    requires v <= payload && line == head + payload + lineBreak
    ensures line == head + v + (payload[|v|..] + lineBreak)
  {
    assert payload == v + payload[|v|..];
  }

  lemma {:induction false} PartsAssoc(a: string, b: string, c: string)
    ensures a + b + c == a + (b + c)
  {
  }

  /** Whether the replacement can be made in these lines; `expected` tells the values that the expected one equals. */
  predicate CanReplace(lines: seq<string>, matches: seq<nat>, expected: Value -> bool, replacement: Data)
    requires IsScalar(replacement)
  {
    && |matches| == 1 && matches[0] < |lines|
    && var line := lines[matches[0]];
    && CurrentValue(line).Some? && expected(CurrentValue(line).value) && !Unreadable(line, replacement)
  }

  /** The line's value can be read, and it is not the expected one. */
  predicate FindsAnother(lines: seq<string>, matches: seq<nat>, expected: Value -> bool) {
    && |matches| == 1 && matches[0] < |lines|
    && CurrentValue(lines[matches[0]]).Some? && !expected(CurrentValue(lines[matches[0]]).value)
  }

  /**
    `replace_toml_scalar`: on success exactly one line differs, there only the text between the separator and the
    trailing blanks and comment, and the document reads as before with that single value changed.
   */
  method ReplaceTomlScalar(repr: Repr, text: string, tablePath: seq<string>, key: string, expected: Value -> bool,
                           replacement: Object) returns (r: Result<string, PatchError>)
    ensures var lines := SplitLines(text);
      r.Ok? <==> tablePath != [] && Parse(text).Some? &&
                 CanReplace(lines, MatchList(lines, tablePath, Assigns(key), |lines|), expected, ScalarOf(repr, replacement))
    ensures r.Ok? ==> var lines := SplitLines(text); var i := MatchList(lines, tablePath, Assigns(key), |lines|)[0];
      && SplitLines(r.value) == lines[i := NewLine(lines[i], ScalarOf(repr, replacement))]
      && Parse(r.value).Some?
      && OneValueReplaced(Parse(text).value, Parse(r.value).value, tablePath, key, CurrentValue(lines[i]).value,
                          Stored(ScalarOf(repr, replacement)))
    ensures r.Ok? ==> var lines := SplitLines(text); var i := MatchList(lines, tablePath, Assigns(key), |lines|)[0];
      Exchanged(lines[i], SplitLines(r.value)[i], key, CurrentValue(lines[i]).value, FormatScalar(ScalarOf(repr, replacement)))
    ensures r.Err? ==> var lines := SplitLines(text); var matches := MatchList(lines, tablePath, Assigns(key), |lines|);
      r.error == if tablePath == [] then PathRequired
                 else if Fold(lines, OUTSIDE) != Some(OUTSIDE) then UncertainStructure
                 else if |matches| != 1 then Ambiguous(|matches|)
                 else if Parse(text).Some? && FindsAnother(lines, matches, expected) then UnexpectedValue
                 else NotToml
  {
    if tablePath == [] {
      return Err(PathRequired);
    }
    var lines := SplitLines(text);
    if Parse(text).Some? {
      StatementsFold(lines, "", OUTSIDE);
    }
    var spans := TableSpans(lines);
    if spans.None? {
      return Err(UncertainStructure);
    }
    var matches := FindMatches(lines, spans.value, tablePath, Assigns(key));
    if |matches| != 1 {
      return Err(Ambiguous(|matches|));
    }
    if Parse(text).None? {
      return Err(NotToml);
    }
    MatchListIn(lines, tablePath, Assigns(key), |lines|, matches[0]);
    MatchAssigns(lines, tablePath, key, matches[0]);
    r := ReplaceAt(text, lines, matches[0], tablePath, key, expected, ScalarOf(repr, replacement));
  }

  lemma {:induction false} MatchAssigns(lines: seq<string>, path: seq<string>, key: string, i: nat)
    requires IsMatch(lines, path, Assigns(key), i)
    ensures i < |lines| && AssignsKey(lines[i], key)
  {
    var k :| 0 <= k < |AllSpans(lines)| && MatchIn(lines, AllSpans(lines)[k], path, Assigns(key), i);
  }

  /** What the document with the new line reads as. */
  lemma {:induction false} ReplacementReads(text: string, index: nat, path: seq<string>, key: string, scalar: Data)
    requires Parse(text).Some? && index < |SplitLines(text)| && IsMatch(SplitLines(text), path, Assigns(key), index) && IsScalar(scalar)
    requires CurrentValue(SplitLines(text)[index]).Some?
    ensures var lines := SplitLines(text); var after := lines[index := NewLine(lines[index], scalar)];
      SplitLines(Concat(after)) == after &&
      if Unreadable(lines[index], scalar) then Parse(Concat(after)).None?
      else Parse(Concat(after)).Some? &&
           OneValueReplaced(Parse(text).value, Parse(Concat(after)).value, path, key, CurrentValue(lines[index]).value, Stored(scalar))
  {
    var lines := SplitLines(text);
    var line := lines[index];
    var parts := MatchAssignment(Body(line)).value;
    var v, tail := ValueText(parts.payload), Suffix(parts.payload) + LineBreak(line);
    LineCut(line, parts, v, tail);
    ReplacedLines(lines, index, path, scalar, parts, v, tail, NewLine(line, scalar));
    SplitUnique(lines[index := NewLine(line, scalar)]);
  }

  /** The matching line with its value replaced. */
  method ReplaceAt(text: string, lines: seq<string>, index: nat, ghost tablePath: seq<string>, ghost key: string,
                   expected: Value -> bool, scalar: Data) returns (r: Result<string, PatchError>)
    requires lines == SplitLines(text) && Parse(text).Some? && index < |lines| && IsScalar(scalar)
    requires IsMatch(lines, tablePath, Assigns(key), index)
    ensures MatchAssignment(Body(lines[index])).Some?
    ensures r.Ok? <==> CurrentValue(lines[index]).Some? && expected(CurrentValue(lines[index]).value) && !Unreadable(lines[index], scalar)
    ensures r.Ok? ==> SplitLines(r.value) == lines[index := NewLine(lines[index], scalar)] && Parse(r.value).Some?
    ensures r.Ok? ==>
      OneValueReplaced(Parse(text).value, Parse(r.value).value, tablePath, key, CurrentValue(lines[index]).value, Stored(scalar))
    ensures r.Ok? ==> Exchanged(lines[index], NewLine(lines[index], scalar), key, CurrentValue(lines[index]).value, FormatScalar(scalar))
    ensures r.Err? ==> r.error == if CurrentValue(lines[index]).Some? && !expected(CurrentValue(lines[index]).value) then UnexpectedValue
                                  else NotToml
  {
    var parts := MatchAssignment(Body(lines[index])).value;
    var valueText, suffix := SplitTomlValueSuffix(parts.payload);
    var current := LoadValue(valueText);
    if current.None? {
      return Err(NotToml);
    }
    if !expected(current.value) {
      return Err(UnexpectedValue);
    }
    var line := parts.Head() + FormatScalar(scalar) + (suffix + LineBreak(lines[index]));
    var candidate := JoinLines(lines[index := line]);
    MatchAssigns(lines, tablePath, key, index);
    NewLineExchanges(lines[index], key, scalar);
    ReplacementReads(text, index, tablePath, key, scalar);
    if Parse(candidate).None? {
      return Err(NotToml);
    }
    return Ok(candidate);
  }

  /** `"".join(lines)` */
  function JoinLines(lines: seq<string>): string {
    Concat(lines)
  }
}
