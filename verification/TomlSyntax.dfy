/**
  A reference reader for the fragment of TOML v1.0.0 that the operator config uses: comments, bare and quoted keys,
  table and array-of-table headers, basic, literal and multi-line strings, booleans, decimal integers, other bare
  tokens (floats and dates, kept as text) and arrays of any of these.  It stands for `tomllib.loads`.

  A document is cut into logical lines, each the shortest run of physical lines that leaves the one-pass lexer
  neutral; every logical line is one statement; the statements build a tree with `tomllib`'s rules.
 */
module TomlSyntax {
  import opened Wrappers
  import opened TomlLexer

  datatype Value =
    | Str(s: string)
    | Int(n: int)
    | Bool(b: bool)
    | Other(token: string)
    | List(items: seq<Value>)

  // ---------- characters and trivia ----------

  predicate IsWs(c: char) {
    c == ' ' || c == '\t'
  }

  predicate IsControl(c: char) {
    c as int < 0x20 || c as int == 0x7f
  }

  predicate IsDigit(c: char) {
    '0' <= c <= '9'
  }

  predicate IsBareKey(c: char) {
    'a' <= c <= 'z' || 'A' <= c <= 'Z' || IsDigit(c) || c == '_' || c == '-'
  }

  predicate IsTokenChar(c: char) {
    IsBareKey(c) || c == '+' || c == '.' || c == ':'
  }

  function SkipWs(s: string): (r: string)
    ensures |r| <= |s|
  {
    if s != "" && IsWs(s[0]) then SkipWs(s[1..]) else s
  }

  /** From a `#` to the newline (left in place) or the end; None on a control character. */
  function SkipComment(s: string): (r: Option<string>)
    ensures r.Some? ==> |r.value| <= |s| && (r.value == "" || r.value[0] == '\n')
  {
    if s == "" || s[0] == '\n' then Some(s)
    else if IsControl(s[0]) && s[0] != '\t' then None
    else SkipComment(s[1..])
  }

  /** Whitespace, newlines and comments between the items of an array. */
  function SkipTrivia(s: string): (r: Option<string>)
    ensures r.Some? ==> |r.value| <= |s|
    decreases |s|
  {
    if s != "" && (IsWs(s[0]) || s[0] == '\n') then SkipTrivia(s[1..])
    else if s != "" && s[0] == '#' then
      var r := SkipComment(s[1..]);
      if r.None? then None else SkipTrivia(r.value)
    else Some(s)
  }

  /** Only blanks and at most one comment remain on the line. */
  predicate LineEnds(s: string) {
    var t := SkipWs(s);
    t == "" || t == "\n" ||
    (t[0] == '#' && var r := SkipComment(t[1..]); r.Some? && (r.value == "" || r.value == "\n"))
  }

  // ---------- strings ----------

  function HexDigit(c: char): Option<nat> {
    if IsDigit(c) then Some(c as int - '0' as int)
    else if 'a' <= c <= 'f' then Some(c as int - 'a' as int + 10)
    else if 'A' <= c <= 'F' then Some(c as int - 'A' as int + 10)
    else None
  }

  function Hex(s: string): Option<nat> {
    if s == "" then Some(0)
    else
      var hi := Hex(s[..|s| - 1]);
      var lo := HexDigit(s[|s| - 1]);
      if hi.None? || lo.None? then None else Some(16 * hi.value + lo.value)
  }

  function UnicodeEscape(s: string, digits: nat): (r: Option<(char, string)>)
    ensures r.Some? ==> |r.value.1| <= |s|
  {
    if |s| < digits then None
    else
      var n := Hex(s[..digits]);
      if n.None? || !(n.value < 0xD800 || 0xE000 <= n.value < 0x11_0000) then None
      else Some((n.value as char, s[digits..]))
  }

  /** The character written by an escape, read behind its backslash. */
  function Escape(s: string): (r: Option<(char, string)>)
    ensures r.Some? ==> |r.value.1| < |s|
  {
    if s == "" then None
    else match s[0]
      case 'b' => Some(('\U{8}', s[1..]))
      case 't' => Some(('\t', s[1..]))
      case 'n' => Some(('\n', s[1..]))
      case 'f' => Some(('\U{C}', s[1..]))
      case 'r' => Some(('\r', s[1..]))
      case '"' => Some(('"', s[1..]))
      case '\\' => Some(('\\', s[1..]))
      case 'u' => UnicodeEscape(s[1..], 4)
      case 'U' => UnicodeEscape(s[1..], 8)
      case _ => None
  }

  /** A one-line string, read behind its opening quote: its content and what follows the closing quote. */
  function OneLineString(s: string, q: Quote): (r: Option<(string, string)>)
    ensures r.Some? ==> |r.value.1| < |s|
    decreases |s|
  {
    if s == "" then None
    else if s[0] == Mark(q) then Some(("", s[1..]))
    else if q.Basic? && s[0] == '\\' then
      var e := Escape(s[1..]);
      if e.None? then None
      else
        var r := OneLineString(e.value.1, q);
        if r.None? then None else Some(([e.value.0] + r.value.0, r.value.1))
    else if IsControl(s[0]) && s[0] != '\t' then None
    else
      var r := OneLineString(s[1..], q);
      if r.None? then None else Some(([s[0]] + r.value.0, r.value.1))
  }

  function SkipBlankLines(s: string): (r: string)
    ensures |r| <= |s|
  {
    if s != "" && (IsWs(s[0]) || s[0] == '\n') then SkipBlankLines(s[1..]) else s
  }

  function Copies(c: char, n: nat): string {
    seq(n, i => c)
  }

  /** A multi-line string, read behind its opening delimiter. */
  function MultiString(s: string, q: Quote): (r: Option<(string, string)>)
    ensures r.Some? ==> |r.value.1| < |s|
    decreases |s|
  {
    if s == "" then None
    else if Run(s, Mark(q)) >= 3 then
      if Run(s, Mark(q)) <= 5 then Some((Copies(Mark(q), Run(s, Mark(q)) - 3), s[Run(s, Mark(q))..])) else None
    else if q.Basic? && s[0] == '\\' then
      var t := SkipWs(s[1..]);
      if t != "" && t[0] == '\n' then MultiString(SkipBlankLines(t[1..]), q)
      else
        var e := Escape(s[1..]);
        if e.None? then None
        else
          var r := MultiString(e.value.1, q);
          if r.None? then None else Some(([e.value.0] + r.value.0, r.value.1))
    else if IsControl(s[0]) && s[0] != '\t' && s[0] != '\n' then None
    else
      var r := MultiString(s[1..], q);
      if r.None? then None else Some(([s[0]] + r.value.0, r.value.1))
  }

  // ---------- bare tokens ----------

  function TokenLength(s: string): (n: nat)
    ensures n <= |s|
    ensures forall i :: 0 <= i < n ==> IsTokenChar(s[i])
    ensures n < |s| ==> !IsTokenChar(s[n])
  {
    if s != "" && IsTokenChar(s[0]) then 1 + TokenLength(s[1..]) else 0
  }

  /** The number written by decimal digits, most significant first. */
  function Digits(s: string): Option<nat> {
    if s == "" then Some(0)
    else
      var hi := Digits(s[..|s| - 1]);
      var c := s[|s| - 1];
      if hi.None? || !IsDigit(c) then None else Some(10 * hi.value + (c as int - '0' as int))
  }

  function Natural(s: string): Option<nat> {
    if s == "" || (s[0] == '0' && |s| > 1) then None else Digits(s)
  }

  /** What a digit of some base up to 16 counts. */
  function DigitValue(c: char): Option<nat> {
    if '0' <= c <= '9' then Some(c as nat - '0' as nat)
    else if 'a' <= c <= 'f' then Some(c as nat - 'a' as nat + 10)
    else if 'A' <= c <= 'F' then Some(c as nat - 'A' as nat + 10)
    else None
  }

  predicate IsDigitOf(c: char, base: nat) {
    DigitValue(c).Some? && DigitValue(c).value < base
  }

  /** Digits, with single underscores between them. */
  predicate Grouped(s: string, base: nat) {
    && s != "" && IsDigitOf(s[0], base) && IsDigitOf(s[|s| - 1], base)
    && forall i :: 0 < i < |s| ==> IsDigitOf(s[i], base) || (s[i] == '_' && s[i - 1] != '_')
  }

  function Ungrouped(s: string): string {
    if s == "" then "" else (if s[0] == '_' then "" else [s[0]]) + Ungrouped(s[1..])
  }

  function Horner(s: string, base: nat, acc: nat): nat {
    if s == "" then acc
    else Horner(s[1..], base, if DigitValue(s[0]).Some? then acc * base + DigitValue(s[0]).value else acc)
  }

  function Decimal(s: string): Option<nat> {
    if Grouped(s, 10) then Natural(Ungrouped(s)) else None
  }

  function BaseOf(c: char): nat {
    if c == 'x' then 16 else if c == 'o' then 8 else if c == 'b' then 2 else 0
  }

  /** A number behind `0x`, `0o` or `0b`. */
  function Based(s: string): Option<nat> {
    if |s| > 2 && s[0] == '0' && Grouped(s[2..], BaseOf(s[1])) then Some(Horner(s[2..], BaseOf(s[1]), 0)) else None
  }

  function Unsigned(t: string): string {
    if t != "" && (t[0] == '+' || t[0] == '-') then t[1..] else t
  }

  /** The first place of one of these characters, or the end. */
  function FirstOf(s: string, cs: set<char>): (n: nat)
    ensures n <= |s|
  {
    if s == "" || s[0] in cs then 0 else 1 + FirstOf(s[1..], cs)
  }

  /** A whole part with a fraction, an exponent or both; or one of the special values. */
  predicate IsFloat(t: string) {
    var s := Unsigned(t);
    var e := FirstOf(s, {'e', 'E'});
    var d := FirstOf(s[..e], {'.'});
    || s == "inf" || s == "nan"
    || (d < |s| && Decimal(s[..d]).Some? && (d < e ==> Grouped(s[d + 1..e], 10)) &&
        (e < |s| ==> Grouped(Unsigned(s[e + 1..]), 10)))
  }

  /** Characters in the places where the pattern has `0`, and the pattern's own elsewhere. */
  predicate LooksLike(s: string, pattern: string) {
    |s| == |pattern| && forall i :: 0 <= i < |s| ==> if pattern[i] == '0' then IsDigitOf(s[i], 10) else s[i] == pattern[i]
  }

  function NumberAt(s: string, i: nat): nat
    requires i + 2 <= |s|
  {
    Horner(s[i..i + 2], 10, 0)
  }

  predicate IsDate(s: string) {
    LooksLike(s, "0000-00-00") && 1 <= NumberAt(s, 5) <= 12 && 1 <= NumberAt(s, 8) <= 31
  }

  predicate IsTime(s: string) {
    && |s| >= 8 && LooksLike(s[..8], "00:00:00") && NumberAt(s, 0) < 24 && NumberAt(s, 3) < 60 && NumberAt(s, 6) < 60
    && (|s| > 8 ==> s[8] == '.' && |s| > 9 && forall i :: 9 <= i < |s| ==> IsDigitOf(s[i], 10))
  }

  predicate IsOffset(s: string) {
    || s == "" || s == "Z" || s == "z"
    || (LooksLike(Unsigned(s), "00:00") && |s| == 6 && NumberAt(s, 1) < 24 && NumberAt(s, 4) < 60)
  }

  /** A date, a time or both with a `T` between them; whether the month has that day is not looked at. */
  predicate IsMoment(t: string) {
    || IsDate(t) || IsTime(t)
    || (|t| > 11 && IsDate(t[..10]) && (t[10] == 'T' || t[10] == 't') &&
        var z := 11 + FirstOf(t[11..], {'Z', 'z', '+', '-'}); IsTime(t[11..z]) && IsOffset(t[z..]))
  }

  function Token(t: string): Option<Value> {
    if t == "" then None
    else if t == "true" then Some(Bool(true))
    else if t == "false" then Some(Bool(false))
    else if Natural(t).Some? then Some(Int(Natural(t).value))
    else if t[0] == '-' && Natural(t[1..]).Some? then Some(Int(0 - Natural(t[1..]).value))
    else if Decimal(Unsigned(t)).Some? then
      Some(Int(if t[0] == '-' then 0 - Decimal(Unsigned(t)).value else Decimal(Unsigned(t)).value))
    else if Based(t).Some? then Some(Int(Based(t).value))
    else if IsFloat(t) || IsMoment(t) then Some(Other(t))
    else None
  }

  // ---------- values ----------

  function ParseValue(s: string): (r: Option<(Value, string)>)
    ensures r.Some? ==> |r.value.1| < |s|
    decreases |s|, 0
  {
    if s == "" then None
    else if OpensMulti(s, Basic) then ParseMulti(s, Basic)
    else if OpensMulti(s, Literal) then ParseMulti(s, Literal)
    else if s[0] == '"' then ParseOneLine(s, Basic)
    else if s[0] == '\'' then ParseOneLine(s, Literal)
    else if s[0] == '[' then
      var r := ParseItems(s[1..]);
      if r.None? then None else Some((List(r.value.0), r.value.1))
    else
      var n := TokenLength(s);
      var v := Token(s[..n]);
      if v.None? then None else Some((v.value, s[n..]))
  }

  function ParseMulti(s: string, q: Quote): (r: Option<(Value, string)>)
    requires OpensMulti(s, q)
    ensures r.Some? ==> |r.value.1| < |s|
  {
    var body := if |s| > 3 && s[3] == '\n' then s[4..] else s[3..];
    var r := MultiString(body, q);
    if r.None? then None else Some((Str(r.value.0), r.value.1))
  }

  function ParseOneLine(s: string, q: Quote): (r: Option<(Value, string)>)
    requires s != ""
    ensures r.Some? ==> |r.value.1| < |s|
  {
    var r := OneLineString(s[1..], q);
    if r.None? then None else Some((Str(r.value.0), r.value.1))
  }

  /** The items of an array up to and including its closing bracket. */
  function ParseItems(s: string): (r: Option<(seq<Value>, string)>)
    ensures r.Some? ==> |r.value.1| < |s|
    decreases |s|, 1
  {
    var t := SkipTrivia(s);
    if t.None? || t.value == "" then None
    else if t.value[0] == ']' then Some(([], t.value[1..]))
    else
      var v := ParseValue(t.value);
      if v.None? then None
      else
        var u := SkipTrivia(v.value.1);
        if u.None? || u.value == "" then None
        else if u.value[0] == ']' then Some(([v.value.0], u.value[1..]))
        else if u.value[0] != ',' then None
        else
          var r := ParseItems(u.value[1..]);
          if r.None? then None else Some(([v.value.0] + r.value.0, r.value.1))
  }

  // ---------- keys and statements ----------

  function BareLength(s: string): (n: nat)
    ensures n <= |s|
    ensures forall i :: 0 <= i < n ==> IsBareKey(s[i])
    ensures n < |s| ==> !IsBareKey(s[n])
  {
    if s != "" && IsBareKey(s[0]) then 1 + BareLength(s[1..]) else 0
  }

  function ParseKey(s: string): (r: Option<(string, string)>)
    ensures r.Some? ==> |r.value.1| < |s|
  {
    if s == "" then None
    else if s[0] == '"' then OneLineString(s[1..], Basic)
    else if s[0] == '\'' then OneLineString(s[1..], Literal)
    else
      var n := BareLength(s);
      if n == 0 then None else Some((s[..n], s[n..]))
  }

  /** A dotted key and the blanks behind it. */
  function ParsePath(s: string): (r: Option<(seq<string>, string)>)
    ensures r.Some? ==> r.value.0 != []
    decreases |s|
  {
    var k := ParseKey(s);
    if k.None? then None
    else
      var t := SkipWs(k.value.1);
      if t != "" && t[0] == '.' then
        var r := ParsePath(SkipWs(t[1..]));
        if r.None? then None else Some(([k.value.0] + r.value.0, r.value.1))
      else Some(([k.value.0], t))
  }

  datatype Stmt =
    | Blank
    | Header(path: seq<string>, ofTables: bool)
    | Assign(key: string, value: Value)

  function ParseHeader(s: string): (r: Option<Stmt>)
    requires s != "" && s[0] == '['
    ensures r.Some? ==> r.value.Header? && r.value.path != []
  {
    var ofTables := |s| > 1 && s[1] == '[';
    var p := ParsePath(SkipWs(s[(if ofTables then 2 else 1)..]));
    if p.None? then None
    else
      var t := p.value.1;
      if ofTables then
        if |t| >= 2 && t[0] == t[1] == ']' && LineEnds(t[2..]) then Some(Header(p.value.0, true)) else None
      else if |t| >= 1 && t[0] == ']' && LineEnds(t[1..]) then Some(Header(p.value.0, false))
      else None
  }

  function ParseAssign(s: string): (r: Option<Stmt>)
    ensures r.Some? ==> r.value.Assign?
  {
    var k := ParseKey(s);
    if k.None? then None
    else
      var t := SkipWs(k.value.1);
      if t == "" || t[0] != '=' then None
      else
        var v := ParseValue(SkipWs(t[1..]));
        if v.None? || !LineEnds(v.value.1) then None else Some(Assign(k.value.0, v.value.0))
  }

  /** One logical line, its line breaks already LF. */
  function ParseUnix(c: string): (r: Option<Stmt>)
    ensures r.Some? && r.value.Header? ==> r.value.path != []
  {
    var s := SkipWs(c);
    if LineEnds(s) then Some(Blank)
    else if s[0] == '[' then ParseHeader(s)
    else ParseAssign(s)
  }

  /** `tomllib` reads CRLF as LF before anything else. */
  function Unix(s: string): (r: string)
    ensures |r| <= |s|
    ensures r == "" <==> s == ""
    decreases |s|
  {
    if s == "" then ""
    else if |s| >= 2 && s[0] == '\r' && s[1] == '\n' then ['\n'] + Unix(s[2..])
    else [s[0]] + Unix(s[1..])
  }

  function ParseStmt(chunk: string): (r: Option<Stmt>)
    ensures r.Some? && r.value.Header? ==> r.value.path != []
  {
    ParseUnix(Unix(chunk))
  }

  // ---------- the tree ----------

  /** A parsed table remembers whether a header named it (`explicit`) or only a longer header implied it. */
  datatype Node =
    | Leaf(v: Value)
    | Dict(m: map<string, Node>, explicit: bool)
    | Items(items: seq<Node>)

  const EMPTY := Dict(map[], true)

  function Last<T>(s: seq<T>): T
    requires s != []
  {
    s[|s| - 1]
  }

  function SetLast<T>(s: seq<T>, x: T): seq<T>
    requires s != []
  {
    s[|s| - 1 := x]
  }

  /** What a header does: open a new table, or a new item of an array of tables. */
  function Declare(t: Node, path: seq<string>, ofTables: bool): Option<Node>
    decreases |path|, t
  {
    match t
    case Leaf(_) => None
    case Items(items) =>
      if items == [] then None
      else
        var r := Declare(Last(items), path, ofTables);
        if r.None? then None else Some(Items(SetLast(items, r.value)))
    case Dict(m, e) =>
      if path == [] then None
      else if |path| == 1 then
        var r := DeclareHere(if path[0] in m then Some(m[path[0]]) else None, ofTables);
        if r.None? then None else Some(Dict(m[path[0] := r.value], e))
      else
        var r := Declare(Child(m, path[0]), path[1..], ofTables);
        if r.None? then None else Some(Dict(m[path[0] := r.value], e))
  }

  function Child(m: map<string, Node>, k: string): Node {
    if k in m then m[k] else Dict(map[], false)
  }

  function DeclareHere(was: Option<Node>, ofTables: bool): Option<Node> {
    if was.None? then Some(if ofTables then Items([EMPTY]) else EMPTY)
    else if ofTables then
      if was.value.Items? then Some(Items(was.value.items + [EMPTY])) else None
    else if was.value.Dict? && !was.value.explicit then Some(Dict(was.value.m, true))
    else None
  }

  /** What an assignment below the header `path` does; a key can be assigned once. */
  function AssignAt(t: Node, path: seq<string>, key: string, v: Value): Option<Node>
    decreases |path|, t
  {
    match t
    case Leaf(_) => None
    case Items(items) =>
      if items == [] then None
      else
        var r := AssignAt(Last(items), path, key, v);
        if r.None? then None else Some(Items(SetLast(items, r.value)))
    case Dict(m, e) =>
      if path == [] then
        if key in m then None else Some(Dict(m[key := Leaf(v)], e))
      else if path[0] !in m then None
      else
        var r := AssignAt(m[path[0]], path[1..], key, v);
        if r.None? then None else Some(Dict(m[path[0] := r.value], e))
  }

  datatype Doc = Doc(root: Node, at: seq<string>)

  const START := Doc(EMPTY, [])

  function Apply(d: Doc, s: Stmt): Option<Doc> {
    match s
    case Blank => Some(d)
    case Header(path, ofTables) =>
      var r := Declare(d.root, path, ofTables);
      if r.None? then None else Some(Doc(r.value, path))
    case Assign(key, v) =>
      var r := AssignAt(d.root, d.at, key, v);
      if r.None? then None else Some(Doc(r.value, d.at))
  }

  function Build(d: Doc, stmts: seq<Stmt>): Option<Doc>
    decreases |stmts|
  {
    if stmts == [] then Some(d)
    else
      var r := Apply(d, stmts[0]);
      if r.None? then None else Build(r.value, stmts[1..])
  }

  lemma {:induction false} BuildAppend(d: Doc, a: seq<Stmt>, b: seq<Stmt>)
    decreases |a|
    ensures Build(d, a + b) == (var m := Build(d, a); if m.None? then None else Build(m.value, b))
  {
    if a == [] {
      assert a + b == b;
    } else {
      assert (a + b)[1..] == a[1..] + b;
      var r := Apply(d, a[0]);
      if r.Some? {
        BuildAppend(r.value, a[1..], b);
      }
    }
  }

  // ---------- documents ----------

  /** `splitlines(keepends=True)`, for documents that break lines only with LF or CRLF. */
  function SplitLines(text: string): (r: seq<string>)
    ensures IsSplit(r) && Concat(r) == text
    decreases |text|
  {
    if text == "" then []
    else
      var n := LineLength(text);
      FirstLine(text, n);
      [text[..n]] + SplitLines(text[n..])
  }

  lemma {:induction false} FirstLine(text: string, n: nat)
    requires text != "" && n == LineLength(text)
    ensures IsLine(text[..n]) && text == text[..n] + text[n..] && (n < |text| ==> Ended(text[..n]))
  {
  }

  function LineLength(text: string): (n: nat)
    requires text != ""
    ensures 1 <= n <= |text|
    ensures forall i :: 0 <= i < n - 1 ==> text[i] != '\n'
    ensures n < |text| ==> text[n - 1] == '\n'
  {
    if text[0] == '\n' || |text| == 1 then 1 else 1 + LineLength(text[1..])
  }

  lemma {:induction false} SplitUnique(lines: seq<string>)
    requires IsSplit(lines)
    ensures SplitLines(Concat(lines)) == lines
  {
    if lines != [] {
      var rest := Concat(lines[1..]);
      var text := lines[0] + rest;
      SplitUnique(lines[1..]);
      LineLengthIs(lines[0], rest);
      assert text[..|lines[0]|] == lines[0] && text[|lines[0]|..] == rest;
    }
  }

  lemma {:induction false} LineLengthIs(line: string, rest: string)
    requires IsLine(line) && (Ended(line) || rest == "")
    ensures LineLength(line + rest) == |line|
  {
    var text := line + rest;
    assert text[0] == line[0];
    if |line| > 1 {
      assert text[1..] == line[1..] + rest;
      LineLengthIs(line[1..], rest);
    }
  }

  /** The statements of the lines, blanks left out; `acc` holds the physical lines of the open logical line. */
  function Statements(lines: seq<string>, acc: string, c: Carry): Option<seq<Stmt>> {
    if lines == [] then
      if acc == "" && c == OUTSIDE then Some([]) else None
    else
      var m := Advance(lines[0], c);
      var chunk := acc + lines[0];
      if m.None? then None
      else if m.value != OUTSIDE then Statements(lines[1..], chunk, m.value)
      else
        var s := ParseChunk(acc, lines[0]);
        var r := Statements(lines[1..], "", OUTSIDE);
        if s.None? || r.None? then None else Some(Only(s.value) + r.value)
  }

  /** A logical line: only an assignment can go over several physical lines. */
  function ParseChunk(acc: string, line: string): Option<Stmt> {
    var s := ParseStmt(acc + line);
    if s.Some? && acc != "" && !s.value.Assign? then None else s
  }

  function Only(s: Stmt): seq<Stmt> {
    if s.Blank? then [] else [s]
  }

  function StatementsOf(lines: seq<string>): Option<seq<Stmt>> {
    Statements(lines, "", OUTSIDE)
  }

  function ParseLines(lines: seq<string>): Option<Node> {
    var s := StatementsOf(lines);
    if s.None? then None
    else
      var d := Build(START, s.value);
      if d.None? then None else Some(d.value.root)
  }

  /** The reference reading of a whole document. */
  function Parse(text: string): Option<Node> {
    ParseLines(SplitLines(text))
  }

  /** Where the lexer is outside everything, a document can be cut in two. */
  lemma {:induction false} StatementsAppend(a: seq<string>, b: seq<string>, acc: string, c: Carry)
    requires Fold(a, c) == Some(OUTSIDE) && (a == [] ==> acc == "")
    ensures Statements(a + b, acc, c) ==
            (var x, y := Statements(a, acc, c), StatementsOf(b);
             if x.None? || y.None? then None else Some(x.value + y.value))
  {
    if a == [] {
      assert a + b == b;
      var y := StatementsOf(b);
      assert y.Some? ==> [] + y.value == y.value;
    } else {
      assert (a + b)[0] == a[0] && (a + b)[1..] == a[1..] + b;
      var m := Advance(a[0], c).value;
      if m != OUTSIDE {
        StatementsAppend(a[1..], b, acc + a[0], m);
      } else {
        StatementsAppend(a[1..], b, "", OUTSIDE);
        var s := ParseChunk(acc, a[0]);
        var x, y := StatementsOf(a[1..]), StatementsOf(b);
        if s.Some? && x.Some? && y.Some? {
          assert Only(s.value) + (x.value + y.value) == Only(s.value) + x.value + y.value;
        }
      }
    }
  }

  /** A readable document leaves the lexer outside everything. */
  lemma {:induction false} StatementsFold(lines: seq<string>, acc: string, c: Carry)
    requires Statements(lines, acc, c).Some?
    ensures Fold(lines, c) == Some(OUTSIDE)
  {
    if lines != [] {
      var m := Advance(lines[0], c).value;
      StatementsFold(lines[1..], if m == OUTSIDE then "" else acc + lines[0], m);
    }
  }
}
