/** The physical lines of a written table, with either style of line break. */
module TomlFragment {
  import opened Wrappers
  import opened Text
  import opened TomlLexer
  import opened TomlSyntax
  import opened TomlAgreement
  import opened TomlWriter
  import opened TomlScalars
  import opened TomlRoundTrip
  import opened TomlConfig
  import opened TomlRemove
  import opened TomlLineBreaks

  // ---------- the lines that are written ----------

  /** A written line holds no carriage return, and it is the empty line or neither blank nor a comment. */
  predicate Made(line: string) {
    Without(line, '\r') && (line == "\n" || !IsTrivia(line))
  }

  ghost predicate AllMade(lines: seq<string>) {
    forall l :: l in SplitLines(Terminated(lines)) ==> Made(l)
  }

  lemma {:induction false} MadeAppend(a: seq<string>, b: seq<string>)
    requires AllMade(a) && AllMade(b)
    ensures AllMade(a + b)
  {
    TerminatedAppend(a, b);
    TerminatedEnds(a);
    SplitAppend(Terminated(a), Terminated(b));
  }

  lemma {:induction false} MadeNone()
    ensures AllMade([])
  {
  }

  lemma {:induction false} MadeLine(line: string)
    requires Flat(line) && (line == "" || (!IsSpace(line[0]) && line[0] != '#'))
    ensures AllMade([line])
  {
    var l := line + "\n";
    LineOf(line);
    assert Terminated([line]) == "" + l == l;
    assert Concat([l]) == l + "" == l;
    SplitUnique([l]);
    WithoutAppend(line, "\n", '\r');
    assert line == "" ==> l == "\n";
    assert LStrip(l) == if line == "" then "" else l;
  }

  lemma {:induction false} MadeBracketed(opening: string, path: seq<string>, closing: string)
    requires (opening == "[" && closing == "]") || (opening == "[[" && closing == "]]")
    ensures AllMade([opening + FormatTableName(path) + closing])
  {
    TableNameFlat(path);
    FlatAppend(opening, FormatTableName(path));
    FlatAppend(opening + FormatTableName(path), closing);
    MadeLine(opening + FormatTableName(path) + closing);
  }

  /** A key starts with a quote or with a character of a bare key. */
  lemma {:induction false} KeyFirst(key: string, rest: string)
    ensures var s := FormatKey(key) + rest; s != "" && !IsSpace(s[0]) && s[0] != '#'
  {
    KeyStart(key, rest);
    if IsBare(key) {
      assert IsBareKey(key[0]);
    }
  }

  lemma {:induction false} MadeAssign(key: string, d: Data)
    requires Clean(key) && (IsScalar(d) || d.Texts?) && Legible(d)
    ensures AllMade([AssignLine(key, d)])
  {
    if d.Texts? && d.items != [] {
      MadeList(key, d.items);
    } else {
      AssignLineFlat(key, d);
      KeyFirst(key, " = " + FormatValue(d));
      MadeJoined(FormatKey(key), " = ", FormatValue(d));
    }
  }

  lemma {:induction false} MadeJoined(k: string, sep: string, v: string)
    requires Flat(k + sep + v) && var s := k + (sep + v); s != "" && !IsSpace(s[0]) && s[0] != '#'
    ensures AllMade([k + sep + v])
  {
    assert k + sep + v == k + (sep + v);
    MadeLine(k + sep + v);
  }

  lemma {:induction false} MadeList(key: string, items: seq<string>)
    requires items != [] && forall i :: 0 <= i < |items| ==> Clean(items[i])
    ensures AllMade([AssignLine(key, Texts(items))])
  {
    var head := FormatKey(key) + " = [\n";
    var line := AssignLine(key, Texts(items));
    FormatKeyFlat(key);
    ListLinesSplit(items);
    ListAssignSplit(FormatKey(key), ListLines(items));
    ListAssignText(key, items);
    SplitUnique([head] + ListLines(items));
    assert Terminated([line]) == "" + (line + "\n") == line + "\n";
    MadeHead(key, head);
    MadeItems(items);
  }

  lemma {:induction false} MadeHead(key: string, head: string)
    requires head == FormatKey(key) + " = [\n"
    ensures Made(head)
  {
    KeyFirst(key, " = [\n");
    FormatKeyFlat(key);
    WithoutAppend(FormatKey(key), " = [\n", '\r');
  }

  lemma {:induction false} MadeItems(items: seq<string>)
    ensures forall l :: l in ListLines(items) ==> Made(l)
  {
    if items == [] {
      assert LStrip("]\n") == "]\n";
    } else {
      MadeItems(items[1..]);
      MadeItem(items[0], |items| == 1);
    }
  }

  lemma {:induction false} MadeItem(item: string, last: bool)
    ensures Made(ItemLine'(item, last))
  {
    var tail := if last then "\n" else ",\n";
    FormatTextFlat(item);
    WithoutAppend("    ", FormatText(item), '\r');
    WithoutAppend("    " + FormatText(item), tail, '\r');
    QuotedItem(FormatText(item), tail);
  }

  lemma {:induction false} QuotedItem(t: string, tail: string)
    requires t != "" && t[0] == '"'
    ensures !IsTrivia("    " + t + tail)
  {
    var s := t + tail;
    assert "    " + t + tail == "    " + s;
    var a, b, c := "   " + s, "  " + s, " " + s;
    assert ("    " + s)[1..] == a && a[1..] == b && b[1..] == c && c[1..] == s;
    assert LStrip(s) == s && LStrip(c) == s && LStrip(b) == s && LStrip(a) == s;
  }

  lemma {:induction false} ScalarsMade(entries: Entries)
    requires forall i :: 0 <= i < |entries| ==> Clean(entries[i].key) && Legible(entries[i].value)
    ensures AllMade(ScalarLines(entries))
  {
    if entries == [] {
      MadeNone();
    } else {
      ScalarsMade(Front(entries));
      ScalarMade(Last(entries));
      MadeAppend(ScalarLines(Front(entries)), ScalarLine(Last(entries)));
    }
  }

  lemma {:induction false} ScalarMade(e: Entry)
    requires Clean(e.key) && Legible(e.value)
    ensures AllMade(ScalarLine(e))
  {
    if KindOf(e.value).ScalarKind? {
      MadeAssign(e.key, e.value);
    } else {
      MadeNone();
    }
  }

  lemma {:induction false} TableMade(path: seq<string>, entries: Entries)
    requires LegibleEntries(entries)
    ensures AllMade(TableLines(path, entries))
    decreases entries, 4
  {
    MadeBracketed("[", path, "]");
    BodyMade(path, entries);
    MadeAppend(["[" + FormatTableName(path) + "]"], BodyLines(path, entries));
  }

  lemma {:induction false} BodyMade(path: seq<string>, entries: Entries)
    requires LegibleEntries(entries)
    ensures AllMade(BodyLines(path, entries))
    decreases entries, 3
  {
    ScalarsMade(entries);
    NestedMade(path, entries);
    ArraysMade(path, entries);
    MadeAppend(ScalarLines(entries), NestedLines(path, entries));
    MadeAppend(ScalarLines(entries) + NestedLines(path, entries), ArrayLines(path, entries));
  }

  lemma {:induction false} NestedMade(path: seq<string>, entries: Entries)
    requires forall i :: 0 <= i < |entries| ==> Legible(entries[i].value)
    ensures AllMade(NestedLines(path, entries))
    decreases entries, 2
  {
    if entries == [] {
      MadeNone();
    } else {
      NestedMade(path, Front(entries));
      NestedOneMade(path, Last(entries));
      MadeAppend(NestedLines(path, Front(entries)), NestedLine(path, Last(entries)));
    }
  }

  lemma {:induction false} NestedOneMade(path: seq<string>, e: Entry)
    requires Legible(e.value)
    ensures AllMade(NestedLine(path, e))
    decreases e
  {
    if e.value.Table? {
      MadeLine("");
      TableMade(path + [e.key], e.value.entries);
      MadeAppend([""], TableLines(path + [e.key], e.value.entries));
    } else {
      MadeNone();
    }
  }

  lemma {:induction false} ArraysMade(path: seq<string>, entries: Entries)
    requires forall i :: 0 <= i < |entries| ==> Legible(entries[i].value)
    ensures AllMade(ArrayLines(path, entries))
    decreases entries, 2
  {
    if entries == [] {
      MadeNone();
    } else {
      ArraysMade(path, Front(entries));
      ArrayMade(path, Last(entries));
      MadeAppend(ArrayLines(path, Front(entries)), ArrayLine(path, Last(entries)));
    }
  }

  lemma {:induction false} ArrayMade(path: seq<string>, e: Entry)
    requires Legible(e.value)
    ensures AllMade(ArrayLine(path, e))
    decreases e
  {
    if e.value.Tables? {
      ItemsMade(path + [e.key], e.value.tables);
    } else {
      MadeNone();
    }
  }

  lemma {:induction false} ItemsMade(path: seq<string>, items: seq<Data>)
    requires forall i :: 0 <= i < |items| ==> LegibleItem(items[i])
    ensures AllMade(ItemLines(path, items))
    decreases items
  {
    if items == [] {
      MadeNone();
    } else {
      ItemsMade(path, Front(items));
      ItemMade(path, Last(items));
      MadeAppend(ItemLines(path, Front(items)), ItemLine(path, Last(items)));
    }
  }

  lemma {:induction false} ItemMade(path: seq<string>, item: Data)
    requires LegibleItem(item)
    ensures AllMade(ItemLine(path, item))
    decreases item
  {
    var header := "[[" + FormatTableName(path) + "]]";
    MadeLine("");
    MadeBracketed("[[", path, "]]");
    BodyMade(path, item.entries);
    MadeAppend([""], [header]);
    assert [""] + [header] == ["", header];
    MadeAppend(["", header], BodyLines(path, item.entries));
  }

  // ---------- the style of the line breaks ----------

  /** Every line with `nl` in place of its newline. */
  function Restyled(lines: seq<string>, nl: string): (r: seq<string>)
    ensures |r| == |lines|
  {
    if lines == [] then [] else [Replace(lines[0], '\n', nl)] + Restyled(lines[1..], nl)
  }

  lemma {:induction false} RestyledAt(lines: seq<string>, nl: string, i: nat)
    requires i < |lines|
    ensures Restyled(lines, nl)[i] == Replace(lines[i], '\n', nl)
  {
    if i > 0 {
      RestyledAt(lines[1..], nl, i - 1);
    }
  }

  lemma {:induction false} UnixRestyled(s: string, nl: string)
    requires IsBreak(nl) && Without(s, '\r')
    ensures Unix(Replace(s, '\n', nl)) == s
  {
    if s != "" {
      UnixRestyled(s[1..], nl);
      var more := Replace(s[1..], '\n', nl);
      assert s == [s[0]] + s[1..];
      if s[0] == '\n' {
        UnixBehind(nl, more);
      } else {
        assert ([s[0]] + more)[1..] == more;
      }
    }
  }

  lemma {:induction false} UnixBehind(nl: string, s: string)
    requires IsBreak(nl)
    ensures Unix(nl + s) == ['\n'] + Unix(s)
  {
    assert (nl + s)[|nl|..] == s;
  }

  /** A line ends where it ended, with the other line break. */
  lemma {:induction false} RestyledLine(l: string, nl: string)
    requires IsLine(l) && IsBreak(nl)
    ensures Replace(l, '\n', nl) == if Ended(l) then l[..|l| - 1] + nl else l
  {
    if |l| == 1 {
      assert l[1..] == "" && l[..0] == "";
      assert [l[0]] + "" == l && nl + "" == nl;
    } else {
      RestyledLine(l[1..], nl);
      assert l[..|l| - 1] == [l[0]] + l[1..][..|l[1..]| - 1];
      assert [l[0]] + l[1..] == l;
    }
  }

  lemma {:induction false} RestyledIsLine(l: string, nl: string)
    requires IsLine(l) && IsBreak(nl)
    ensures var r := Replace(l, '\n', nl); IsLine(r) && (Ended(l) <==> Ended(r))
  {
    RestyledLine(l, nl);
    if Ended(l) {
      var r := l[..|l| - 1] + nl;
      assert forall i :: 0 <= i < |l| - 1 ==> r[i] == l[i];
      assert forall i :: |l| - 1 <= i < |r| ==> r[i] == nl[i - (|l| - 1)];
    }
  }

  lemma {:induction false} RestyledSplit(text: string, nl: string)
    requires IsBreak(nl)
    ensures SplitLines(Replace(text, '\n', nl)) == Restyled(SplitLines(text), nl)
  {
    var lines := SplitLines(text);
    var r := Restyled(lines, nl);
    RestyledConcat(lines, nl);
    forall i | 0 <= i < |r| ensures IsLine(r[i]) && (i < |r| - 1 ==> Ended(r[i])) {
      RestyledAt(lines, nl, i);
      RestyledIsLine(lines[i], nl);
    }
    SplitUnique(r);
  }

  lemma {:induction false} RestyledConcat(lines: seq<string>, nl: string)
    ensures Concat(Restyled(lines, nl)) == Replace(Concat(lines), '\n', nl)
  {
    if lines != [] {
      RestyledConcat(lines[1..], nl);
      ReplaceAppend(lines[0], Concat(lines[1..]), '\n', nl);
      assert Restyled(lines, nl)[1..] == Restyled(lines[1..], nl);
    }
  }

  lemma {:induction false} RestyledAdvances(l: string, nl: string, c: Carry)
    requires IsBreak(nl) && Without(l, '\r')
    ensures Advance(Replace(l, '\n', nl), c) == Advance(l, c)
  {
    UnixRestyled(l, nl);
    UnixScan(Replace(l, '\n', nl), Enter(c));
  }

  lemma {:induction false} RestyledChunk(acc: string, l: string, nl: string)
    requires IsBreak(nl) && Without(acc, '\r') && Without(l, '\r')
    ensures ParseChunk(Replace(acc, '\n', nl), Replace(l, '\n', nl)) == ParseChunk(acc, l)
    ensures Replace(acc + l, '\n', nl) == Replace(acc, '\n', nl) + Replace(l, '\n', nl) && Without(acc + l, '\r')
  {
    ReplaceAppend(acc, l, '\n', nl);
    WithoutAppend(acc, l, '\r');
    UnixRestyled(acc + l, nl);
    NoCr(acc + l);
  }

  /** Text without carriage returns reads the same with CRLF for its newlines. */
  lemma {:induction false} RestyledStatements(lines: seq<string>, nl: string, acc: string, c: Carry)
    requires IsBreak(nl) && Without(acc, '\r') && forall l :: l in lines ==> Without(l, '\r')
    ensures Statements(Restyled(lines, nl), Replace(acc, '\n', nl), c) == Statements(lines, acc, c)
  {
    if lines != [] {
      var r := Restyled(lines, nl);
      assert r[0] == Replace(lines[0], '\n', nl) && r[1..] == Restyled(lines[1..], nl);
      RestyledAdvances(lines[0], nl, c);
      RestyledChunk(acc, lines[0], nl);
      var m := Advance(lines[0], c);
      if m.Some? {
        RestyledStatements(lines[1..], nl, if m.value == OUTSIDE then "" else acc + lines[0], m.value);
      }
    }
  }

  // ---------- the written table ----------

  /** What `dumps_toml_table` returns, its newlines in the style of the document. */
  function Fragment(path: seq<string>, entries: Entries, nl: string): string {
    Replace(RStrip(Join(TableLines(path, entries), "\n")) + "\n", '\n', nl)
  }

  /** Every line of the fragment is an empty line or holds text; together they read as the table's statements. */
  lemma {:induction false} FragmentReads(path: seq<string>, entries: Entries, nl: string)
    requires path != [] && CleanPath(path) && LegibleEntries(entries) && IsBreak(nl)
    ensures StatementsOf(SplitLines(Fragment(path, entries, nl))) == Some(TableStmts(path, entries))
    ensures forall l :: l in SplitLines(Fragment(path, entries, nl)) ==> l == nl || !IsTrivia(l)
  {
    var lines := SplitLines(Terminated(TableLines(path, entries)));
    FragmentText(path, entries, nl);
    TableLinesRead(path, entries);
    TableMade(path, entries);
    RestyledStatements(lines, nl, "", OUTSIDE);
    assert Replace("", '\n', nl) == "";
    RestyledMade(lines, nl);
  }

  /** The first line of the fragment is the header. */
  lemma {:induction false} FragmentStart(path: seq<string>, entries: Entries, nl: string)
    requires path != [] && CleanPath(path) && LegibleEntries(entries) && IsBreak(nl)
    ensures var lines := SplitLines(Fragment(path, entries, nl));
      lines != [] && ParseStmt(lines[0]) == Some(Header(path, false))
  {
    FragmentText(path, entries, nl);
    HeaderReads(path);
    HeaderFlat(path);
    FirstOf("[" + FormatTableName(path) + "]", BodyLines(path, entries), Header(path, false), nl);
  }

  lemma {:induction false} FragmentText(path: seq<string>, entries: Entries, nl: string)
    requires IsBreak(nl)
    ensures SplitLines(Fragment(path, entries, nl)) == Restyled(SplitLines(Terminated(TableLines(path, entries))), nl)
  {
    TableSolid(path, entries);
    WrittenText(TableLines(path, entries));
    RestyledSplit(Terminated(TableLines(path, entries)), nl);
  }

  lemma {:induction false} HeaderFlat(path: seq<string>)
    ensures Flat("[" + FormatTableName(path) + "]")
  {
    TableNameFlat(path);
    FlatAppend("[", FormatTableName(path));
    FlatAppend("[" + FormatTableName(path), "]");
  }

  lemma {:induction false} FirstOf(line: string, more: seq<string>, s: Stmt, nl: string)
    requires Flat(line) && Reads([line], [s]) && IsBreak(nl)
    ensures var lines := Restyled(SplitLines(Terminated([line] + more)), nl); lines != [] && ParseStmt(lines[0]) == Some(s)
  {
    TerminatedAppend([line], more);
    TerminatedEnds([line]);
    SplitAppend(Terminated([line]), Terminated(more));
    OneLine(line, s, nl);
  }

  lemma {:induction false} OneLine(line: string, s: Stmt, nl: string)
    requires Flat(line) && Reads([line], [s]) && IsBreak(nl)
    ensures SplitLines(Terminated([line])) == [line + "\n"] && ParseStmt(Replace(line + "\n", '\n', nl)) == Some(s)
  {
    var l := line + "\n";
    LineOf(line);
    assert Terminated([line]) == "" + l == l;
    assert Concat([l]) == l + "" == l;
    SplitUnique([l]);
    OneStatement(l, s);
    FlatLine(line);
    WithoutAppend(line, "\n", '\r');
    UnixRestyled(l, nl);
  }

  lemma {:induction false} OneStatement(l: string, s: Stmt)
    requires StatementsOf([l]) == Some([s])
    ensures ParseStmt(l) == Some(s)
  {
    assert "" + l == l && [l][1..] == [];
    var m := Advance(l, OUTSIDE).value;
    assert m != OUTSIDE ==> Statements([l][1..], "" + l, m).None?;
    assert Statements([l][1..], "", OUTSIDE) == Some([]);
    var p := ParseChunk("", l);
    assert Only(p.value) + [] == Only(p.value);
    assert Only(p.value)[0] == [s][0];
  }

  lemma {:induction false} RestyledMade(lines: seq<string>, nl: string)
    requires IsBreak(nl) && IsSplit(lines) && forall l :: l in lines ==> Made(l)
    ensures forall l :: l in Restyled(lines, nl) ==> l == nl || !IsTrivia(l)
  {
    var r := Restyled(lines, nl);
    forall i | 0 <= i < |r| ensures r[i] == nl || !IsTrivia(r[i]) {
      RestyledAt(lines, nl, i);
      StillMade(lines[i], nl);
    }
  }

  lemma {:induction false} StillMade(l: string, nl: string)
    requires IsBreak(nl) && IsLine(l) && Made(l)
    ensures var r := Replace(l, '\n', nl); r == nl || !IsTrivia(r)
  {
    RestyledLine(l, nl);
    if l == "\n" {
      assert l[..0] + nl == nl;
    } else if Ended(l) {
      assert l == l[..|l| - 1] + "\n";
      StrippedFirst(l[..|l| - 1], nl);
    }
  }

  /** Which line break stands at its end does not make a line blank or a comment. */
  lemma {:induction false} StrippedFirst(body: string, nl: string)
    requires IsBreak(nl)
    ensures IsTrivia(body + "\n") <==> IsTrivia(body + nl)
    decreases |body|
  {
    if body == "" {
      assert body + "\n" == "\n" && body + nl == nl;
      assert nl[1..] == "" || (nl[1..] == "\n" && nl[1..][1..] == "");
    } else if IsSpace(body[0]) {
      assert (body + "\n")[1..] == body[1..] + "\n" && (body + nl)[1..] == body[1..] + nl;
      StrippedFirst(body[1..], nl);
    }
  }
}
