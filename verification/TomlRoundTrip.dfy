/** The serializer and the reference reader undo each other. */
module TomlRoundTrip {
  import opened Wrappers
  import opened TomlLexer
  import opened TomlSyntax
  import opened TomlAgreement
  import opened TomlWriter
  import opened TomlScalars
  import opened TomlTree

  // ---------- the tree a config stands for ----------

  function NodeOf(d: Data): Node
    decreases d
  {
    if d.Table? then Dict(MapOf(d.entries), true)
    else if d.Tables? then Items(NodesOf(d.tables))
    else Leaf(ValueOf(d))
  }

  function NodesOf(tables: seq<Data>): (r: seq<Node>)
    ensures |r| == |tables|
    decreases tables
  {
    if tables == [] then [] else NodesOf(Front(tables)) + [NodeOf(Last(tables))]
  }

  function MapOf(entries: Entries): map<string, Node>
    decreases entries
  {
    if entries == [] then map[] else MapOf(Front(entries))[Last(entries).key := NodeOf(Last(entries).value)]
  }

  // ---------- the statements the written lines hold ----------

  function BodyStmts(path: seq<string>, entries: Entries): seq<Stmt>
    decreases entries, 3
  {
    ScalarStmts(entries) + NestedStmts(path, entries) + ArrayStmts(path, entries)
  }

  function ScalarStmts(entries: Entries): seq<Stmt> {
    if entries == [] then [] else ScalarStmts(Front(entries)) + ScalarStmt(Last(entries))
  }

  function ScalarStmt(e: Entry): seq<Stmt> {
    if KindOf(e.value).ScalarKind? then [Assign(e.key, ValueOf(e.value))] else []
  }

  function NestedStmts(path: seq<string>, entries: Entries): seq<Stmt>
    decreases entries, 2
  {
    if entries == [] then [] else NestedStmts(path, Front(entries)) + NestedStmt(path, Last(entries))
  }

  function NestedStmt(path: seq<string>, e: Entry): seq<Stmt>
    decreases e
  {
    if e.value.Table? then TableStmts(path + [e.key], e.value.entries) else []
  }

  function ArrayStmts(path: seq<string>, entries: Entries): seq<Stmt>
    decreases entries, 2
  {
    if entries == [] then [] else ArrayStmts(path, Front(entries)) + ArrayStmt(path, Last(entries))
  }

  function ArrayStmt(path: seq<string>, e: Entry): seq<Stmt>
    decreases e
  {
    if e.value.Tables? then ItemStmts(path + [e.key], e.value.tables) else []
  }

  function ItemStmts(path: seq<string>, items: seq<Data>): seq<Stmt>
    decreases items
  {
    if items == [] then [] else ItemStmts(path, Front(items)) + ItemStmt(path, Last(items))
  }

  function ItemStmt(path: seq<string>, item: Data): seq<Stmt>
    decreases item
  {
    if item.Table? then [Header(path, true)] + BodyStmts(path, item.entries) else []
  }

  function TableStmts(path: seq<string>, entries: Entries): seq<Stmt>
    decreases entries, 4
  {
    [Header(path, false)] + BodyStmts(path, entries)
  }

  // ---------- from lines to statements ----------

  function Terminated(lines: seq<string>): string {
    if lines == [] then "" else Terminated(Front(lines)) + (Last(lines) + "\n")
  }

  /** The reference reader finds these statements in these lines. */
  predicate Reads(lines: seq<string>, stmts: seq<Stmt>) {
    StatementsOf(SplitLines(Terminated(lines))) == Some(stmts)
  }

  lemma {:induction false} TerminatedAppend(a: seq<string>, b: seq<string>)
    ensures Terminated(a + b) == Terminated(a) + Terminated(b)
  {
    if b == [] {
      assert a + b == a;
    } else {
      assert Front(a + b) == a + Front(b) && Last(a + b) == Last(b);
      TerminatedAppend(a, Front(b));
      Assoc(Terminated(a), Terminated(Front(b)), Last(b) + "\n");
    }
  }

  lemma {:induction false} ConcatAppend(a: seq<string>, b: seq<string>)
    ensures Concat(a + b) == Concat(a) + Concat(b)
  {
    if a == [] {
      assert a + b == b;
    } else {
      assert (a + b)[1..] == a[1..] + b;
      ConcatAppend(a[1..], b);
      Assoc(a[0], Concat(a[1..]), Concat(b));
    }
  }

  /** Behind a newline a document splits into the lines before and the lines after. */
  lemma {:induction false} SplitAppend(a: string, b: string)
    requires a == "" || Ended(a)
    ensures SplitLines(a + b) == SplitLines(a) + SplitLines(b)
  {
    var x, y := SplitLines(a), SplitLines(b);
    ConcatAppend(x, y);
    if x != [] {
      LastEnded(x);
    }
    IsSplitAppend(x, y);
    SplitUnique(x + y);
  }

  lemma {:induction false} IsSplitAppend(x: seq<string>, y: seq<string>)
    requires IsSplit(x) && IsSplit(y) && (x == [] || Ended(Last(x)))
    ensures IsSplit(x + y)
  {
    forall i | 0 <= i < |x + y| - 1 ensures Ended((x + y)[i]) {
      if i >= |x| {
        assert (x + y)[i] == y[i - |x|];
      }
    }
  }

  lemma {:induction false} LastEnded(lines: seq<string>)
    requires IsSplit(lines) && lines != [] && Ended(Concat(lines))
    ensures Ended(Last(lines))
  {
    if |lines| == 1 {
      assert Concat(lines) == lines[0];
    } else {
      assert Concat(lines[1..]) != "";
      LastEnded(lines[1..]);
    }
  }

  lemma {:induction false} TerminatedEnds(lines: seq<string>)
    ensures lines == [] <==> Terminated(lines) == ""
    ensures lines != [] ==> Ended(Terminated(lines))
  {
    if lines != [] {
      var t := Terminated(lines);
      assert t == Terminated(Front(lines)) + (Last(lines) + "\n");
      assert t[|t| - 1] == (Last(lines) + "\n")[|Last(lines)|];
    }
  }

  lemma {:induction false} ReadsAppend(a: seq<string>, x: seq<Stmt>, b: seq<string>, y: seq<Stmt>)
    requires Reads(a, x) && Reads(b, y)
    ensures Reads(a + b, x + y)
  {
    TerminatedAppend(a, b);
    TerminatedEnds(a);
    SplitAppend(Terminated(a), Terminated(b));
    StatementsFold(SplitLines(Terminated(a)), "", OUTSIDE);
    StatementsAppend(SplitLines(Terminated(a)), SplitLines(Terminated(b)), "", OUTSIDE);
  }

  lemma {:induction false} ReadsNone()
    ensures Reads([], [])
  {
  }

  lemma {:induction false} LineOf(line: string)
    requires Without(line, '\n')
    ensures IsLine(line + "\n") && Ended(line + "\n")
  {
    var l := line + "\n";
    assert forall i :: 0 <= i < |l| - 1 ==> l[i] == line[i];
  }

  lemma {:induction false} OneLineReads(line: string, s: Stmt)
    requires Without(line, '\n') && ParseStmt(line + "\n") == Some(s)
    ensures Reads([line], Only(s))
  {
    var l := line + "\n";
    LineOf(line);
    assert Terminated([line]) == "" + l == l;
    assert Concat([l]) == l + "" == l;
    SplitUnique([l]);
    StatementIsNeutral(l);
    assert "" + l == l;
    LastChunk(l, "", OUTSIDE, s);
  }

  predicate Without(s: string, c: char) {
    forall i :: 0 <= i < |s| ==> s[i] != c
  }

  lemma {:induction false} WithoutAppend(a: string, b: string, c: char)
    ensures Without(a + b, c) <==> Without(a, c) && Without(b, c)
  {
    assert forall i :: 0 <= i < |a| ==> (a + b)[i] == a[i];
    assert forall i :: 0 <= i < |b| ==> (a + b)[|a| + i] == b[i];
    if Without(a + b, c) {
      forall i | 0 <= i < |b| ensures b[i] != c {
        assert (a + b)[|a| + i] == b[i];
      }
    }
  }

  /** No raw newline and no carriage return. */
  predicate Flat(s: string) {
    Without(s, '\n') && Without(s, '\r')
  }

  lemma {:induction false} FlatAppend(a: string, b: string)
    ensures Flat(a + b) <==> Flat(a) && Flat(b)
  {
    WithoutAppend(a, b, '\n');
    WithoutAppend(a, b, '\r');
  }

  lemma {:induction false} NoCr(s: string)
    requires Without(s, '\r')
    ensures Unix(s) == s
  {
    if s != "" {
      NoCr(s[1..]);
      assert [s[0]] + s[1..] == s;
    }
  }

  lemma {:induction false} ReplacedNoCr(u: string)
    ensures Without(Replace(u, '\r', "\n"), '\r')
  {
    if u != "" {
      ReplacedNoCr(u[1..]);
      WithoutAppend(if u[0] == '\r' then "\n" else [u[0]], Replace(u[1..], '\r', "\n"), '\r');
    }
  }

  lemma {:induction false} EncodeFlat(s: string)
    requires Without(s, '\r')
    ensures Flat(Encode(s))
  {
    if s != "" {
      EncodeFlat(s[1..]);
      FlatAppend(EncodeChar(s[0]), Encode(s[1..]));
    }
  }

  lemma {:induction false} FormatTextFlat(s: string)
    ensures Flat(FormatText(s))
  {
    EscapedIsEncoded(s);
    ReplacedNoCr(Unix(s));
    EncodeFlat(Folded(s));
    FlatAppend("\"", Encode(Folded(s)));
    FlatAppend("\"" + Encode(Folded(s)), "\"");
  }

  lemma {:induction false} FormatKeyFlat(k: string)
    ensures Flat(FormatKey(k))
  {
    FormatTextFlat(k);
  }

  lemma {:induction false} TableNameFlat(path: seq<string>)
    ensures Flat(FormatTableName(path))
  {
    if path != [] {
      FormatKeyFlat(path[0]);
      if |path| > 1 {
        assert FormatKeys(path)[1..] == FormatKeys(path[1..]);
        TableNameFlat(path[1..]);
        FlatAppend(FormatKey(path[0]) + ".", FormatTableName(path[1..]));
      }
    }
  }

  lemma {:induction false} NatTextFlat(n: nat)
    ensures Flat(NatText(n))
    decreases n
  {
    if n >= 10 {
      NatTextFlat(n / 10);
    }
  }

  lemma {:induction false} FormatScalarFlat(d: Data)
    requires IsScalar(d)
    ensures Flat(FormatScalar(d))
  {
    match d
    case Text(s) => FormatTextFlat(s);
    case Number(n) => NatTextFlat(if n < 0 then -n else n);
    case Fraction(t) => TokenFlat(t);
    case Flag(_) =>
  }

  lemma {:induction false} TokenFlat(t: string)
    requires forall i :: 0 <= i < |t| ==> IsTokenChar(t[i])
    ensures Flat(t)
  {
  }

  lemma {:induction false} NewlineEnds()
    ensures SkipWs("\n") == "\n" && LineEnds("\n")
  {
    var n: string := ['\n'];
    assert !IsWs(n[0]);
    assert SkipWs(n) == n;
  }

  lemma {:induction false} HeaderReads(path: seq<string>)
    requires path != [] && CleanPath(path)
    ensures Reads(["[" + FormatTableName(path) + "]"], [Header(path, false)])
  {
    TableNameFlat(path);
    assert "]" + "\n" == "]\n";
    NameStart(path, "]\n");
    PathReads(path, "]\n");
    BracketedReads("[", FormatTableName(path), "]", path, false);
  }

  lemma {:induction false} ItemHeaderReads(path: seq<string>)
    requires path != [] && CleanPath(path)
    ensures Reads(["[[" + FormatTableName(path) + "]]"], [Header(path, true)])
  {
    TableNameFlat(path);
    assert "]]" + "\n" == "]]\n";
    NameStart(path, "]]\n");
    PathReads(path, "]]\n");
    BracketedReads("[[", FormatTableName(path), "]]", path, true);
  }

  lemma {:induction false} BracketedFlat(opening: string, name: string, closing: string)
    requires Flat(opening) && Flat(name) && Flat(closing)
    ensures var line := opening + name + closing;
      Flat(line) && Unix(line + "\n") == line + "\n" && line + "\n" == opening + (name + (closing + "\n"))
  {
    FlatAppend(opening, name);
    FlatAppend(opening + name, closing);
    FlatLine(opening + name + closing);
  }

  lemma {:induction false} BracketedReads(opening: string, name: string, closing: string, path: seq<string>, ofTables: bool)
    requires Flat(name) && if ofTables then opening == "[[" && closing == "]]" else opening == "[" && closing == "]"
    requires var s := name + (closing + "\n");
      s != "" && SkipWs(s) == s && s[0] != '[' && ParsePath(s) == Some((path, closing + "\n"))
    ensures Reads([opening + name + closing], [Header(path, ofTables)])
  {
    var line := opening + name + closing;
    BracketedFlat(opening, name, closing);
    assert closing + "\n" == if ofTables then "]]\n" else "]\n";
    HeaderShape(line + "\n", name + (closing + "\n"), path, ofTables);
    OneLineReads(line, Header(path, ofTables));
  }

  lemma {:induction false} HeaderShape(s: string, t: string, path: seq<string>, ofTables: bool)
    requires t != "" && SkipWs(t) == t && t[0] != '['
    requires if ofTables then s == "[[" + t && ParsePath(t) == Some((path, "]]\n"))
             else s == "[" + t && ParsePath(t) == Some((path, "]\n"))
    ensures ParseUnix(s) == Some(Header(path, ofTables))
  {
    NewlineEnds();
    assert s[0] == '[' && SkipWs(s) == s;
    if ofTables {
      assert s[2..] == t && "]]\n"[2..] == "\n";
    } else {
      assert s[1..] == t && s[1] == t[0] && "]\n"[1..] == "\n";
    }
    assert ParseHeader(s) == Some(Header(path, ofTables));
  }

  lemma {:induction false} BlankReads()
    ensures Reads([""], [])
  {
    FlatLine("");
    assert "" + "\n" == "\n";
    NewlineEnds();
    OneLineReads("", Blank);
  }

  lemma {:induction false} ValueStart(d: Data, rest: string)
    requires IsScalar(d) || d.Texts?
    ensures var s := FormatValue(d) + rest; s != "" && SkipWs(s) == s
  {
    match d
    case Text(_) =>
    case Number(n) =>
      NatTextReads(if n < 0 then -n else n);
      TokenStart(FormatValue(d), rest);
    case Fraction(t) => TokenStart(t, rest);
    case Flag(b) => TokenStart(FormatValue(d), rest);
    case Texts(_) =>
  }

  lemma {:induction false} TokenStart(t: string, rest: string)
    requires t != "" && IsTokenChar(t[0])
    ensures SkipWs(t + rest) == t + rest
  {
  }

  lemma {:induction false} AssignParses(key: string, d: Data)
    requires Clean(key) && (IsScalar(d) || d.Texts?) && Legible(d)
    ensures ParseUnix(AssignLine(key, d) + "\n") == Some(Assign(key, ValueOf(d)))
  {
    var v := FormatValue(d) + "\n";
    var rest := " = " + v;
    var s := FormatKey(key) + rest;
    assert AssignLine(key, d) + "\n" == s by {
      Assoc(FormatKey(key) + " = ", FormatValue(d), "\n");
      Assoc(FormatKey(key), " = ", v);
    }
    KeyStart(key, rest);
    KeyReads(key, rest);
    ValueStart(d, "\n");
    ValueReads(d, "\n");
    NewlineEnds();
    AssignShape(s, key, rest, v, ValueOf(d));
  }

  lemma {:induction false} AssignShape(s: string, key: string, rest: string, v: string, value: Value)
    requires s != "" && SkipWs(s) == s && s[0] != '[' && s[0] != '#' && s[0] != '\n'
    requires ParseKey(s) == Some((key, rest)) && rest == " = " + v && SkipWs(v) == v
    requires ParseValue(v) == Some((value, "\n")) && LineEnds("\n")
    ensures ParseUnix(s) == Some(Assign(key, value))
  {
    EqualsSkipped(rest, v);
    assert ParseAssign(s) == Some(Assign(key, value));
  }

  lemma {:induction false} EqualsSkipped(rest: string, v: string)
    requires rest == " = " + v && SkipWs(v) == v
    ensures var t := SkipWs(rest); t != "" && t[0] == '=' && SkipWs(t[1..]) == v
  {
    var t := "= " + v;
    assert rest[1..] == t && SkipWs(t) == t && SkipWs(rest) == t;
    assert t[1..] == " " + v && t[1..][1..] == v;
  }

  lemma {:induction false} AssignReads(key: string, d: Data)
    requires Clean(key) && (IsScalar(d) || d.Texts?) && Legible(d)
    ensures Reads([AssignLine(key, d)], [Assign(key, ValueOf(d))])
  {
    if d.Texts? && d.items != [] {
      ListAssignReads(key, d.items);
    } else {
      AssignParses(key, d);
      AssignLineFlat(key, d);
      FlatLine(AssignLine(key, d));
      OneLineReads(AssignLine(key, d), Assign(key, ValueOf(d)));
    }
  }

  lemma {:induction false} AssignLineFlat(key: string, d: Data)
    requires IsScalar(d) || d == Texts([])
    ensures Flat(AssignLine(key, d))
  {
    FormatKeyFlat(key);
    if IsScalar(d) {
      FormatScalarFlat(d);
    }
    FlatAppend(FormatKey(key), " = ");
    FlatAppend(FormatKey(key) + " = ", FormatValue(d));
  }

  lemma {:induction false} FlatLine(line: string)
    requires Flat(line)
    ensures Unix(line + "\n") == line + "\n"
  {
    WithoutAppend(line, "\n", '\r');
    NoCr(line + "\n");
  }

  // ---------- a list over several lines ----------

  const INSIDE := Carry(None, 1, 0)

  function ItemLine'(item: string, last: bool): string {
    "    " + FormatText(item) + (if last then "\n" else ",\n")
  }

  function ListLines(items: seq<string>): seq<string> {
    if items == [] then ["]\n"] else [ItemLine'(items[0], |items| == 1)] + ListLines(items[1..])
  }

  lemma {:induction false} ListLinesText(items: seq<string>)
    requires items != []
    ensures Concat(ListLines(items)) == Join(Indented(items), ",\n") + "\n" + "]\n"
  {
    var all, more := Indented(items), Indented(items[1..]);
    assert all[1..] == more;
    var l := "    " + FormatText(items[0]);
    if |items| == 1 {
      assert ListLines(items[1..]) == ["]\n"];
      assert Concat(["]\n"]) == "]\n" + "" == "]\n";
      JoinOne(all);
    } else {
      ListLinesText(items[1..]);
      JoinMore(all, ",\n");
      var j := Join(more, ",\n");
      assert l + ",\n" + (j + "\n" + "]\n") == l + ",\n" + j + "\n" + "]\n";
    }
  }

  lemma {:induction false} ItemLineKeeps(item: string, last: bool)
    requires Clean(item)
    ensures IsLine(ItemLine'(item, last)) && Ended(ItemLine'(item, last))
    ensures Advance(ItemLine'(item, last), INSIDE) == Some(INSIDE)
  {
    var t := FormatText(item);
    var tail := if last then "\n" else ",\n";
    FormatTextFlat(item);
    FormatTextReads(item, tail);
    TextNotMulti(item, tail);
    CleanFolds(item);
    TextLineKeeps(t, item, tail);
  }

  lemma {:induction false} TextLineKeeps(t: string, item: string, tail: string)
    requires Flat(t) && (tail == "\n" || tail == ",\n") && t != "" && t[0] == '"'
    requires OneLineString((t + tail)[1..], Basic) == Some((item, tail)) && !OpensMulti(t + tail, Basic)
    ensures IsLine("    " + t + tail) && Ended("    " + t + tail)
    ensures Advance("    " + t + tail, INSIDE) == Some(INSIDE)
  {
    var d := Enter(INSIDE);
    var s := t + tail;
    assert "    " + t + tail == "    " + s && ("    " + s)[4..] == s;
    InertScan("    " + s, 4, d);
    OpenOneLine(s, Basic, d);
    InertScan(tail, |tail|, d);
    assert tail[|tail|..] == "" && Scan("", d) == Some(d);
  }

  lemma {:induction false} ListLinesSplit(items: seq<string>)
    requires forall i :: 0 <= i < |items| ==> Clean(items[i])
    ensures IsSplit(ListLines(items)) && ListLines(items) != [] && Ended(Last(ListLines(items)))
  {
    if items != [] {
      ItemLineKeeps(items[0], |items| == 1);
      ListLinesSplit(items[1..]);
    }
  }

  lemma {:induction false} CloseLineAdvances()
    ensures Advance("]\n", INSIDE) == Some(OUTSIDE)
  {
    var d := Enter(INSIDE);
    var close, n: string := [']', '\n'], ['\n'];
    One(close, d, NEUTRAL);
    assert close[1..] == n;
    One(n, NEUTRAL, NEUTRAL);
    assert Scan(n[1..], NEUTRAL) == Some(NEUTRAL);
  }

  lemma {:induction false} ListLinesRead(items: seq<string>, acc: string, s: Stmt)
    requires (forall i :: 0 <= i < |items| ==> Clean(items[i])) && ParseStmt(acc + Concat(ListLines(items))) == Some(s)
    requires s.Assign?
    ensures Statements(ListLines(items), acc, INSIDE) == Some(Only(s))
  {
    var lines := ListLines(items);
    if items == [] {
      assert Concat(lines) == "]\n" + "" == "]\n";
      CloseLineAdvances();
      LastChunk("]\n", acc, INSIDE, s);
    } else {
      ItemLineKeeps(items[0], |items| == 1);
      Assoc(acc, lines[0], Concat(lines[1..]));
      assert lines[1..] == ListLines(items[1..]);
      ListLinesRead(items[1..], acc + lines[0], s);
    }
  }

  lemma {:induction false} LastChunk(line: string, acc: string, c: Carry, s: Stmt)
    requires Advance(line, c) == Some(OUTSIDE) && ParseChunk(acc, line) == Some(s)
    ensures Statements([line], acc, c) == Some(Only(s))
  {
    assert Statements([line][1..], "", OUTSIDE) == Some([]);
    assert Only(s) + [] == Only(s);
  }

  lemma {:induction false} OpenListAdvances(key: string)
    requires Clean(key)
    ensures Advance(FormatKey(key) + " = [\n", OUTSIDE) == Some(INSIDE)
  {
    var tail: string := [' ', '=', ' ', '[', '\n'];
    KeyReads(key, tail);
    KeyScan(FormatKey(key) + tail, NEUTRAL);
    OpenBracketScan(tail);
  }

  lemma {:induction false} OpenBracketScan(tail: string)
    requires tail == [' ', '=', ' ', '[', '\n']
    ensures Scan(tail, NEUTRAL) == Some(Enter(INSIDE))
  {
    var bracket, n: string := ['[', '\n'], ['\n'];
    InertScan(tail, 3, NEUTRAL);
    assert tail[3..] == bracket && bracket[1..] == n;
    One(bracket, NEUTRAL, Enter(INSIDE));
    One(n, Enter(INSIDE), Enter(INSIDE));
    assert Scan(n[1..], Enter(INSIDE)) == Some(Enter(INSIDE));
  }

  lemma {:induction false} ListAssignReads(key: string, items: seq<string>)
    requires Clean(key) && items != [] && Legible(Texts(items))
    ensures Reads([AssignLine(key, Texts(items))], [Assign(key, ValueOf(Texts(items)))])
  {
    var stmt := Assign(key, ValueOf(Texts(items)));
    AssignParses(key, Texts(items));
    ListTextNoCr(key, items);
    NoCr(AssignLine(key, Texts(items)) + "\n");
    ListAssignText(key, items);
    FormatKeyFlat(key);
    ListLinesSplit(items);
    ListAssignSplit(FormatKey(key), ListLines(items));
    OpenListAdvances(key);
    ListChunkReads(FormatKey(key) + " = [\n", items, AssignLine(key, Texts(items)), stmt);
  }

  lemma {:induction false} ListChunkReads(head: string, items: seq<string>, line: string, s: Stmt)
    requires forall i :: 0 <= i < |items| ==> Clean(items[i])
    requires Advance(head, OUTSIDE) == Some(INSIDE) && IsSplit([head] + ListLines(items)) && s.Assign?
    requires Concat([head] + ListLines(items)) == line + "\n" && ParseStmt(line + "\n") == Some(s)
    ensures Reads([line], [s])
  {
    assert Terminated([line]) == "" + (line + "\n") == line + "\n";
    SplitUnique([head] + ListLines(items));
    assert ([head] + ListLines(items))[1..] == ListLines(items);
    ListLinesRead(items, head, s);
    FirstChunk(head, ListLines(items));
  }

  lemma {:induction false} FirstChunk(head: string, rest: seq<string>)
    requires Advance(head, OUTSIDE) == Some(INSIDE)
    ensures StatementsOf([head] + rest) == Statements(rest, head, INSIDE)
  {
    assert ([head] + rest)[1..] == rest && "" + head == head;
  }

  lemma {:induction false} ListAssignText(key: string, items: seq<string>)
    requires items != []
    ensures Concat([FormatKey(key) + " = [\n"] + ListLines(items)) == AssignLine(key, Texts(items)) + "\n"
  {
    var lines := [FormatKey(key) + " = [\n"] + ListLines(items);
    assert lines[1..] == ListLines(items);
    ListLinesText(items);
    ListTextShape(FormatKey(key), Join(Indented(items), ",\n"));
  }

  lemma {:induction false} ListAssignSplit(k: string, rest: seq<string>)
    requires Flat(k) && IsSplit(rest)
    ensures IsSplit([k + " = [\n"] + rest)
  {
    FlatAppend(k, " = [");
    assert k + " = [\n" == k + " = [" + "\n";
    OpeningLine(k + " = [", k + " = [\n", rest);
  }

  lemma {:induction false} OpeningLine(line: string, head: string, rest: seq<string>)
    requires Without(line, '\n') && head == line + "\n" && IsSplit(rest)
    ensures IsSplit([head] + rest)
  {
    LineOf(line);
    IsSplitAppend([head], rest);
  }

  lemma {:induction false} ListTextShape(k: string, j: string)
    ensures k + " = [\n" + (j + "\n" + "]\n") == k + " = " + ("[\n" + j + "\n]") + "\n"
  {
    assert "\n" + "]\n" == "\n]" + "\n";
    assert " = [\n" == " = " + "[\n";
  }

  lemma {:induction false} ListTextNoCr(key: string, items: seq<string>)
    requires items != []
    ensures Without(AssignLine(key, Texts(items)) + "\n", '\r')
  {
    var j := Join(Indented(items), ",\n");
    FormatKeyFlat(key);
    JoinNoCr(items);
    WithoutAppend("[\n", j, '\r');
    WithoutAppend("[\n" + j, "\n]", '\r');
    WithoutAppend(FormatKey(key), " = ", '\r');
    WithoutAppend(FormatKey(key) + " = ", FormatStringList(items), '\r');
    WithoutAppend(AssignLine(key, Texts(items)), "\n", '\r');
  }

  lemma {:induction false} JoinNoCr(items: seq<string>)
    ensures Without(Join(Indented(items), ",\n"), '\r')
  {
    if items != [] {
      var all, more := Indented(items), Indented(items[1..]);
      assert all[0] == "    " + FormatText(items[0]) && all[1..] == more;
      FormatTextFlat(items[0]);
      WithoutAppend("    ", FormatText(items[0]), '\r');
      if |items| == 1 {
        JoinOne(all);
      } else {
        JoinNoCr(items[1..]);
        JoinMore(all, ",\n");
        WithoutAppend(all[0], ",\n", '\r');
        WithoutAppend(all[0] + ",\n", Join(more, ",\n"), '\r');
      }
    }
  }

  // ---------- all lines ----------

  predicate CleanPath(path: seq<string>) {
    forall i :: 0 <= i < |path| ==> Clean(path[i])
  }

  lemma {:induction false} ScalarLinesRead(entries: Entries)
    requires forall i :: 0 <= i < |entries| ==> Clean(entries[i].key) && Legible(entries[i].value)
    ensures Reads(ScalarLines(entries), ScalarStmts(entries))
  {
    if entries == [] {
      ReadsNone();
    } else {
      ScalarLinesRead(Front(entries));
      var e := Last(entries);
      if KindOf(e.value).ScalarKind? {
        AssignReads(e.key, e.value);
      } else {
        ReadsNone();
      }
      ReadsAppend(ScalarLines(Front(entries)), ScalarStmts(Front(entries)), ScalarLine(e), ScalarStmt(e));
    }
  }

  lemma {:induction false} BodyLinesRead(path: seq<string>, entries: Entries)
    requires LegibleEntries(entries) && CleanPath(path)
    ensures Reads(BodyLines(path, entries), BodyStmts(path, entries))
    decreases entries, 3
  {
    ScalarLinesRead(entries);
    NestedLinesRead(path, entries);
    ArrayLinesRead(path, entries);
    ReadsAppend(ScalarLines(entries), ScalarStmts(entries), NestedLines(path, entries), NestedStmts(path, entries));
    ReadsAppend(ScalarLines(entries) + NestedLines(path, entries), ScalarStmts(entries) + NestedStmts(path, entries),
                ArrayLines(path, entries), ArrayStmts(path, entries));
  }

  lemma {:induction false} NestedLinesRead(path: seq<string>, entries: Entries)
    requires CleanPath(path) && forall i :: 0 <= i < |entries| ==> Clean(entries[i].key) && Legible(entries[i].value)
    ensures Reads(NestedLines(path, entries), NestedStmts(path, entries))
    decreases entries, 2
  {
    if entries == [] {
      ReadsNone();
    } else {
      NestedLinesRead(path, Front(entries));
      NestedLineReads(path, Last(entries));
      ReadsAppend(NestedLines(path, Front(entries)), NestedStmts(path, Front(entries)),
                  NestedLine(path, Last(entries)), NestedStmt(path, Last(entries)));
    }
  }

  lemma {:induction false} NestedLineReads(path: seq<string>, e: Entry)
    requires CleanPath(path) && Clean(e.key) && Legible(e.value)
    ensures Reads(NestedLine(path, e), NestedStmt(path, e))
    decreases e
  {
    if e.value.Table? {
      BlankReads();
      TableLinesRead(path + [e.key], e.value.entries);
      ReadsAppend([""], [], TableLines(path + [e.key], e.value.entries), TableStmts(path + [e.key], e.value.entries));
      assert [] + TableStmts(path + [e.key], e.value.entries) == TableStmts(path + [e.key], e.value.entries);
    } else {
      ReadsNone();
    }
  }

  lemma {:induction false} TableLinesRead(path: seq<string>, entries: Entries)
    requires path != [] && CleanPath(path) && LegibleEntries(entries)
    ensures Reads(TableLines(path, entries), TableStmts(path, entries))
    decreases entries, 4
  {
    HeaderReads(path);
    BodyLinesRead(path, entries);
    ReadsAppend(["[" + FormatTableName(path) + "]"], [Header(path, false)], BodyLines(path, entries), BodyStmts(path, entries));
  }

  lemma {:induction false} ArrayLinesRead(path: seq<string>, entries: Entries)
    requires CleanPath(path) && forall i :: 0 <= i < |entries| ==> Clean(entries[i].key) && Legible(entries[i].value)
    ensures Reads(ArrayLines(path, entries), ArrayStmts(path, entries))
    decreases entries, 2
  {
    if entries == [] {
      ReadsNone();
    } else {
      ArrayLinesRead(path, Front(entries));
      ArrayLineReads(path, Last(entries));
      ReadsAppend(ArrayLines(path, Front(entries)), ArrayStmts(path, Front(entries)),
                  ArrayLine(path, Last(entries)), ArrayStmt(path, Last(entries)));
    }
  }

  lemma {:induction false} ArrayLineReads(path: seq<string>, e: Entry)
    requires CleanPath(path) && Clean(e.key) && Legible(e.value)
    ensures Reads(ArrayLine(path, e), ArrayStmt(path, e))
    decreases e
  {
    if e.value.Tables? {
      ItemLinesRead(path + [e.key], e.value.tables);
    } else {
      ReadsNone();
    }
  }

  lemma {:induction false} ItemLinesRead(path: seq<string>, items: seq<Data>)
    requires path != [] && CleanPath(path) && forall i :: 0 <= i < |items| ==> LegibleItem(items[i])
    ensures Reads(ItemLines(path, items), ItemStmts(path, items))
    decreases items
  {
    if items == [] {
      ReadsNone();
    } else {
      ItemLinesRead(path, Front(items));
      ItemLineReads(path, Last(items));
      ReadsAppend(ItemLines(path, Front(items)), ItemStmts(path, Front(items)),
                  ItemLine(path, Last(items)), ItemStmt(path, Last(items)));
    }
  }

  lemma {:induction false} ItemLineReads(path: seq<string>, item: Data)
    requires path != [] && CleanPath(path) && LegibleItem(item)
    ensures Reads(ItemLine(path, item), ItemStmt(path, item))
    decreases item
  {
    var header := "[[" + FormatTableName(path) + "]]";
    BlankReads();
    ItemHeaderReads(path);
    BodyLinesRead(path, item.entries);
    ReadsAppend([""], [], [header], [Header(path, true)]);
    assert [] + [Header(path, true)] == [Header(path, true)] && [""] + [header] == ["", header];
    ReadsAppend(["", header], [Header(path, true)], BodyLines(path, item.entries), BodyStmts(path, item.entries));
  }
}
