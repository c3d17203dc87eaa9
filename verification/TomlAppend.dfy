/** `append_toml_table`: what the longer document means, and that removing the table again leaves the old one. */
module TomlAppend {
  import opened Wrappers
  import opened Text
  import opened TomlLexer
  import opened TomlSyntax
  import opened TomlAgreement
  import opened TomlWriter
  import opened TomlRoundTrip
  import opened TomlTree
  import opened TomlConfig
  import opened TomlSpans
  import opened TomlEdits
  import opened TomlRemove
  import opened TomlLineBreaks
  import opened TomlFragment
  import opened TomlScalars
  import opened TomlControl
  import opened TomlFolded
  import opened TomlObjects
  import opened TomlFaithful
  import opened TomlPublicConfig

  /** `text.find("\n")` */
  function FirstLf(text: string): (r: Option<nat>)
    ensures r.Some? ==> r.value < |text| && text[r.value] == '\n' && forall i :: 0 <= i < r.value ==> text[i] != '\n'
    ensures r.None? ==> forall i :: 0 <= i < |text| ==> text[i] != '\n'
  {
    if text == "" then None
    else if text[0] == '\n' then Some(0)
    else
      var r := FirstLf(text[1..]);
      if r.None? then None else Some(r.value + 1)
  }

  /** The document's first line break decides for all that is added. */
  function NewlineStyle(text: string): (r: string)
    ensures IsBreak(r)
  {
    var first := FirstLf(text);
    if first.Some? && first.value > 0 && text[first.value - 1] == '\r' then "\r\n" else "\n"
  }

  predicate EndsIn(text: string, s: string) {
    |s| <= |text| && text[|text| - |s|..] == s
  }

  /** At least one blank line between the document and the new table. */
  function Gap(text: string, nl: string): string {
    if text == "" || EndsIn(text, nl + nl) then "" else if EndsIn(text, nl) then nl else nl + nl
  }

  function Appended(text: string, path: seq<string>, entries: Entries): string {
    var nl := NewlineStyle(text);
    text + Gap(text, nl) + Fragment(path, entries, nl)
  }

  // ---------- blank lines ----------

  function Breaks(nl: string, n: nat): string {
    if n == 0 then "" else nl + Breaks(nl, n - 1)
  }

  lemma {:induction false} BreaksAdd(nl: string, m: nat, n: nat)
    ensures Breaks(nl, m) + Breaks(nl, n) == Breaks(nl, m + n)
  {
    if m > 0 {
      BreaksAdd(nl, m - 1, n);
      Assoc(nl, Breaks(nl, m - 1), Breaks(nl, n));
    }
  }

  /** Behind complete lines the rest of a document reads on its own. */
  lemma {:induction false} ReadsBehind(a: string, x: seq<Stmt>, b: string, y: seq<Stmt>)
    requires a == "" || Ended(a)
    requires StatementsOf(SplitLines(a)) == Some(x) && StatementsOf(SplitLines(b)) == Some(y)
    ensures SplitLines(a + b) == SplitLines(a) + SplitLines(b) && StatementsOf(SplitLines(a + b)) == Some(x + y)
  {
    SplitAppend(a, b);
    StatementsFold(SplitLines(a), "", OUTSIDE);
    StatementsAppend(SplitLines(a), SplitLines(b), "", OUTSIDE);
  }

  lemma {:induction false} BreakReads(nl: string)
    requires IsBreak(nl)
    ensures SplitLines(nl) == [nl] && StatementsOf([nl]) == Some([]) && ParseStmt(nl) == Some(Blank)
  {
    assert Concat([nl]) == nl + "" == nl;
    SplitUnique([nl]);
    UnixBreak(nl);
    NewlineEnds();
    StatementIsNeutral(nl);
    assert "" + nl == nl;
    LastChunk(nl, "", OUTSIDE, Blank);
  }

  lemma {:induction false} BreaksEnd(nl: string, n: nat)
    requires IsBreak(nl)
    ensures if n == 0 then Breaks(nl, n) == "" else Ended(Breaks(nl, n))
  {
    if n > 0 {
      BreaksEnd(nl, n - 1);
    }
  }

  lemma {:induction false} BreaksRead(nl: string, n: nat)
    requires IsBreak(nl)
    ensures StatementsOf(SplitLines(Breaks(nl, n))) == Some([])
  {
    if n > 0 {
      BreaksRead(nl, n - 1);
      OneMoreBreak(nl, Breaks(nl, n - 1));
    }
  }

  lemma {:induction false} OneMoreBreak(nl: string, more: string)
    requires IsBreak(nl) && StatementsOf(SplitLines(more)) == Some([])
    ensures StatementsOf(SplitLines(nl + more)) == Some([])
  {
    BreakReads(nl);
    ReadsBehind(nl, [], more, []);
    NothingMore([]);
  }

  lemma {:induction false} NothingMore(s: seq<Stmt>)
    ensures s + [] == s
  {
  }

  // ---------- the document in front of the new table ----------

  /** `front` ends in complete lines and holds the same statements as `text`. */
  ghost predicate SameDocument(front: string, text: string) {
    (front == "" || Ended(front)) && StatementsOf(SplitLines(front)) == StatementsOf(SplitLines(text))
  }

  lemma {:induction false} BreaksBehind(text: string, nl: string, n: nat)
    requires IsBreak(nl) && (text == "" || Ended(text)) && StatementsOf(SplitLines(text)).Some?
    ensures SameDocument(text + Breaks(nl, n), text)
  {
    BreaksRead(nl, n);
    ReadsBehind(text, StatementsOf(SplitLines(text)).value, Breaks(nl, n), []);
    NothingMore(StatementsOf(SplitLines(text)).value);
    BreaksEnd(nl, n);
    EndsBehind(text, Breaks(nl, n));
  }

  lemma {:induction false} EndsBehind(a: string, b: string)
    requires (a == "" || Ended(a)) && (b == "" || Ended(b))
    ensures a + b == "" || Ended(a + b)
  {
    if b == "" {
      assert a + b == a;
    }
  }

  lemma {:induction false} OpenEnd(text: string, nl: string)
    requires IsBreak(nl) && text != "" && !Ended(text) && StatementsOf(SplitLines(text)).Some?
    ensures SameDocument(text + Breaks(nl, 2), text)
  {
    ClosedReads(text, nl);
    BreaksBehind(text + nl, nl, 1);
    Assoc(text, nl, Breaks(nl, 1));
  }

  /** With its gap the document ends in complete lines and still reads the same; the gap is line breaks only. */
  lemma {:induction false} GapReads(text: string, nl: string) returns (n: nat)
    requires IsBreak(nl) && StatementsOf(SplitLines(text)).Some?
    ensures Gap(text, nl) == Breaks(nl, n) && SameDocument(text + Gap(text, nl), text)
  {
    n := if text == "" || EndsIn(text, nl + nl) then 0 else if EndsIn(text, nl) then 1 else 2;
    GapIsBreaks(text, nl, n);
    if text == "" || Ended(text) {
      BreaksBehind(text, nl, n);
    } else {
      OpenEnd(text, nl);
    }
  }

  lemma {:induction false} GapIsBreaks(text: string, nl: string, n: nat)
    requires IsBreak(nl)
    requires n == if text == "" || EndsIn(text, nl + nl) then 0 else if EndsIn(text, nl) then 1 else 2
    ensures Gap(text, nl) == Breaks(nl, n)
    ensures text != "" && !Ended(text) ==> n == 2
  {
    assert nl + "" == nl;
    assert Breaks(nl, 1) == nl + Breaks(nl, 0) && Breaks(nl, 2) == nl + Breaks(nl, 1);
    if EndsIn(text, nl) {
      assert text[|text| - 1] == nl[|nl| - 1];
    }
    if EndsIn(text, nl + nl) {
      assert text[|text| - 1] == (nl + nl)[|nl + nl| - 1];
    }
  }

  lemma {:induction false} ReplacedFree(s: string, nl: string)
    requires IsBreak(nl)
    ensures Bad(Replace(s, '\n', nl)) == Bad(s)
  {
    if s != "" {
      ReplacedFree(s[1..], nl);
      var c := if s[0] == '\n' then nl else [s[0]];
      BadAppend(c, Replace(s[1..], '\n', nl));
      assert [s[0]] + s[1..] == s;
      BadAppend([s[0]], s[1..]);
      BreakIsFree(nl);
    }
  }

  lemma {:induction false} BreakIsFree(nl: string)
    requires IsBreak(nl)
    ensures Bad(nl) == 0
  {
    NotBad(nl);
  }

  /** A fragment without forbidden characters is legible. */
  lemma {:induction false} FragmentIsLegible(path: seq<string>, entries: Entries, nl: string)
    requires ShapedEntries(entries) && IsBreak(nl) && Bad(Fragment(path, entries, nl)) == 0
    ensures CleanPath(FoldedPath(path)) && LegibleEntries(FoldedEntries(entries))
  {
    TableSolid(path, entries);
    WrittenText(TableLines(path, entries));
    ReplacedFree(Terminated(TableLines(path, entries)), nl);
    TableIsLegible(path, entries);
  }

  /** The table's strings are clean once folded, and so is its name. */
  predicate Readable(path: seq<string>, entries: Entries) {
    CleanPath(FoldedPath(path)) && LegibleEntries(FoldedEntries(entries))
  }

  /** The statements of a written table. */
  function WrittenStmts(path: seq<string>, entries: Entries): seq<Stmt> {
    TableStmts(FoldedPath(path), FoldedEntries(entries))
  }

  /**
    The longer document holds the statements of the old one, then those of the new table; it is unreadable if the table
    holds a string that TOML has no place for.
   */
  lemma {:induction false} AppendedReads(text: string, path: seq<string>, entries: Entries)
    requires StatementsOf(SplitLines(text)).Some? && path != [] && ShapedEntries(entries)
    ensures StatementsOf(SplitLines(Appended(text, path, entries))) ==
            if Readable(path, entries) then Some(StatementsOf(SplitLines(text)).value + WrittenStmts(path, entries)) else None
  {
    var nl := NewlineStyle(text);
    if Readable(path, entries) {
      var n := GapReads(text, nl);
      SameTable(path, entries);
      FragmentReads(FoldedPath(path), FoldedEntries(entries), nl);
      ReadsBehind(text + Gap(text, nl), StatementsOf(SplitLines(text)).value, Fragment(path, entries, nl),
                  WrittenStmts(path, entries));
    } else if StatementsOf(SplitLines(Appended(text, path, entries))).Some? {
      ControlIsNotRead(Appended(text, path, entries));
      BadAppend(text + Gap(text, nl), Fragment(path, entries, nl));
      FragmentIsLegible(path, entries, nl);
    }
  }

  /** Where the path is free, the longer document reads as the old tree with the new table in its place. */
  lemma {:induction false} AppendPlaces(repr: Repr, text: string, path: seq<string>, values: seq<Item>)
    requires Parse(text).Some? && path != [] && CleanPath(path) && DictEntries(values) && PlainEntries(values)
    requires Readable(path, LoweredEntries(repr, values))
    requires var t := Parse(text).value; Vacant(t, path).Some? && Absent(Vacant(t, path).value, FoldedEntries(LoweredEntries(repr, values)))
    ensures var t, written := Parse(text).value, FoldedEntries(LoweredEntries(repr, values));
      Parse(Appended(text, path, LoweredEntries(repr, values))) ==
      Some(Put(t, path, Dict(Vacant(t, path).value + MapOf(written), true)))
  {
    var entries := LoweredEntries(repr, values);
    EntriesExactly(repr, values);
    AppendedIs(repr, text, path, values);
    BuildsBehind(StatementsOf(SplitLines(text)).value, path, FoldedEntries(entries));
  }

  lemma {:induction false} AppendedIs(repr: Repr, text: string, path: seq<string>, values: seq<Item>)
    requires StatementsOf(SplitLines(text)).Some? && path != [] && CleanPath(path) && Readable(path, LoweredEntries(repr, values))
    ensures StatementsOf(SplitLines(Appended(text, path, LoweredEntries(repr, values)))) ==
            Some(StatementsOf(SplitLines(text)).value + TableStmts(path, FoldedEntries(LoweredEntries(repr, values))))
  {
    LoweredAreShaped(repr, values);
    CleanPathFolds(path);
    AppendedReads(text, path, LoweredEntries(repr, values));
  }

  /** The statements of a table behind those of a document with the place free. */
  lemma {:induction false} BuildsBehind(s: seq<Stmt>, path: seq<string>, entries: Entries)
    requires Build(START, s).Some? && WritableEntries(entries)
    requires var t := Build(START, s).value.root; Vacant(t, path).Some? && Absent(Vacant(t, path).value, entries)
    ensures var t, d := Build(START, s).value.root, Build(START, s + TableStmts(path, entries));
      d.Some? && d.value.root == Put(t, path, Dict(Vacant(t, path).value + MapOf(entries), true))
  {
    var d := Build(START, s).value;
    BuildAppend(START, s, TableStmts(path, entries));
    TableBuilds(d.root, path, entries, d.at);
  }

  lemma {:induction false} CleanPathFolds(path: seq<string>)
    requires CleanPath(path)
    ensures FoldedPath(path) == path
  {
    if path != [] {
      CleanPathFolds(Front(path));
      assert path[|path| - 1] == Last(path);
      CleanFolds(Last(path));
    }
  }

  /** And where no longer header had named it either, the new table stands for the appended values exactly if they are kept. */
  lemma {:induction false} AppendStands(repr: Repr, text: string, path: seq<string>, values: seq<Item>)
    requires Parse(text).Some? && path != [] && CleanPath(path) && DictEntries(values) && PlainEntries(values)
    requires Readable(path, LoweredEntries(repr, values)) && Vacant(Parse(text).value, path) == Some(map[])
    ensures var n := Dict(MapOf(FoldedEntries(LoweredEntries(repr, values))), true);
      && Parse(Appended(text, path, LoweredEntries(repr, values))) == Some(Put(Parse(text).value, path, n))
      && (Stands(n, Mapping(values)) <==> KeptEntries(values))
  {
    AppendPlaces(repr, text, path, values);
    EntriesExactly(repr, values);
    NoneBefore(MapOf(FoldedEntries(LoweredEntries(repr, values))));
  }

  lemma {:induction false} NoneBefore(m: map<string, Node>)
    ensures map[] + m == m
  {
  }

  // ---------- the line breaks of the new text ----------

  predicate CrLfAt(s: string, i: int) {
    0 < i < |s| && s[i] == '\n' && s[i - 1] == '\r'
  }

  /** The first line feed has a carriage return in front of it. */
  ghost predicate StartsCrLf(text: string) {
    exists i :: CrLfAt(text, i) && forall j :: 0 <= j < i ==> text[j] != '\n'
  }

  /** From here on every line feed has a carriage return in front of it, or none has. */
  ghost predicate Styled(s: string, from: nat, crlf: bool) {
    forall i :: from <= i < |s| && s[i] == '\n' ==> (CrLfAt(s, i) <==> crlf)
  }

  /** The text that was added goes up to a table header, and is as short as it can be with a blank line in front of that. */
  ghost predicate OneBlankLine(was: string, now: string, nl: string) {
    exists h :: |was| <= h < |now| && now[h] == '[' && Spaced(was, now, nl, h)
  }

  ghost predicate Spaced(was: string, now: string, nl: string, h: nat)
    requires |was| <= h <= |now|
  {
    && (was == "" ==> h == 0) && (was != "" ==> EndsIn(now[..h], nl + nl))
    && (forall i :: |was| <= i < h ==> now[i] in nl)
    && (forall k :: |was| <= k < h ==> !EndsIn(now[..k], nl + nl))
  }

  lemma {:induction false} StyleIs(text: string)
    ensures NewlineStyle(text) == if StartsCrLf(text) then "\r\n" else "\n"
  {
    var first := FirstLf(text);
    if StartsCrLf(text) {
      var i :| CrLfAt(text, i) && forall j :: 0 <= j < i ==> text[j] != '\n';
      assert first.Some? && first.value == i;
    }
    if first.Some? && first.value > 0 && text[first.value - 1] == '\r' {
      assert CrLfAt(text, first.value);
    }
  }

  /** A document that has one style of line breaks keeps it. */
  lemma {:induction false} StyleStays(was: string, now: string, crlf: bool)
    requires was <= now && Styled(was, 0, crlf) && exists i :: 0 <= i < |was| && was[i] == '\n'
    requires Styled(now, |was|, StartsCrLf(was))
    ensures Styled(now, 0, crlf)
  {
    var first := FirstLf(was).value;
    StyleIs(was);
    assert CrLfAt(was, first) <==> crlf;
    forall i | 0 <= i < |now| && now[i] == '\n' ensures CrLfAt(now, i) <==> crlf {
      if i < |was| {
        assert was[i] == now[i] && (i > 0 ==> was[i - 1] == now[i - 1]);
        assert CrLfAt(was, i) <==> CrLfAt(now, i);
      }
    }
  }

  lemma {:induction false} StyledAppend(a: string, b: string, crlf: bool)
    requires Styled(b, 0, crlf) && (a == "" || a[|a| - 1] != '\r')
    ensures Styled(a + b, |a|, crlf)
    ensures Styled(a, 0, crlf) ==> Styled(a + b, 0, crlf)
  {
    var s := a + b;
    forall i | 0 <= i < |s| && s[i] == '\n' && (i >= |a| || Styled(a, 0, crlf)) ensures CrLfAt(s, i) <==> crlf {
      if i < |a| {
        assert s[i] == a[i] && (i > 0 ==> s[i - 1] == a[i - 1]);
        assert CrLfAt(a, i) <==> CrLfAt(s, i);
      } else {
        assert s[i] == b[i - |a|] && (i > |a| ==> s[i - 1] == b[i - 1 - |a|]);
        assert CrLfAt(b, i - |a|) <==> crlf;
        if i == |a| {
          assert !CrLfAt(b, 0) && !CrLfAt(s, i);
        }
      }
    }
  }

  lemma {:induction false} StyledReplace(s: string, nl: string)
    requires IsBreak(nl) && Without(s, '\r')
    ensures Styled(Replace(s, '\n', nl), 0, nl == "\r\n")
    ensures Replace(s, '\n', nl) == "" || Replace(s, '\n', nl)[|Replace(s, '\n', nl)| - 1] != '\r'
  {
    if s != "" {
      var c := if s[0] == '\n' then nl else [s[0]];
      assert Without(s[1..], '\r');
      StyledReplace(s[1..], nl);
      StyledAppend(c, Replace(s[1..], '\n', nl), nl == "\r\n");
    }
  }

  lemma {:induction false} GapStyled(text: string, nl: string)
    requires IsBreak(nl)
    ensures var g := Gap(text, nl); Styled(g, 0, nl == "\r\n") && (g == "" || g[|g| - 1] != '\r')
  {
    assert Styled(nl, 0, nl == "\r\n");
    StyledAppend(nl, nl, nl == "\r\n");
  }

  /** A written table holds no carriage return but those of the document's style, and starts with its header. */
  lemma {:induction false} FragmentStyled(path: seq<string>, entries: Entries, nl: string)
    requires Readable(path, entries) && IsBreak(nl)
    ensures var f := Fragment(path, entries, nl); Styled(f, 0, nl == "\r\n") && f != "" && f[0] == '['
  {
    var lines := TableLines(path, entries);
    TableSolid(path, entries);
    WrittenText(lines);
    SameTable(path, entries);
    TableMade(FoldedPath(path), FoldedEntries(entries));
    MadeIsFree(lines);
    StyledReplace(Terminated(lines), nl);
    HeaderFirst("[" + FormatTableName(path) + "]", BodyLines(path, entries));
  }

  lemma {:induction false} MadeIsFree(lines: seq<string>)
    requires AllMade(lines)
    ensures Without(Terminated(lines), '\r')
  {
    FreeConcat(SplitLines(Terminated(lines)));
  }

  lemma {:induction false} FreeConcat(lines: seq<string>)
    requires forall l :: l in lines ==> Made(l)
    ensures Without(Concat(lines), '\r')
  {
    if lines != [] {
      assert Made(lines[0]);
      FreeConcat(lines[1..]);
      WithoutAppend(lines[0], Concat(lines[1..]), '\r');
    }
  }

  lemma {:induction false} HeaderFirst(line: string, more: seq<string>)
    requires line != "" && line[0] != '\n'
    ensures Terminated([line] + more) != "" && Terminated([line] + more)[0] == line[0]
  {
    TerminatedAppend([line], more);
    assert Terminated([line]) == "" + (line + "\n");
  }

  lemma {:induction false} GapIsLeast(text: string, nl: string, rest: string)
    requires IsBreak(nl) && rest != "" && rest[0] == '['
    ensures OneBlankLine(text, text + Gap(text, nl) + rest, nl)
  {
    var g := Gap(text, nl);
    var now, h := text + g + rest, |text + g|;
    assert now[..h] == text + g && now[h] == rest[0];
    LeastEnd(text, nl);
    forall k | |text| <= k < h ensures !EndsIn(now[..k], nl + nl) {
      assert now[..k] == (text + g)[..k];
    }
    assert Spaced(text, now, nl, h);
  }

  lemma {:induction false} LeastEnd(text: string, nl: string)
    requires IsBreak(nl)
    ensures var all := text + Gap(text, nl);
      && (text != "" ==> EndsIn(all, nl + nl)) && (forall i :: |text| <= i < |all| ==> all[i] in nl)
      && forall k :: |text| <= k < |all| ==> !EndsIn(all[..k], nl + nl)
  {
    var g := Gap(text, nl);
    var all := text + g;
    if g == "" {
      assert all == text;
    } else {
      forall k | |text| <= k < |all| ensures !EndsIn(all[..k], nl + nl) {
        ShorterEnd(text, nl, g, k);
      }
      LastBreaks(text, nl, g);
    }
  }

  lemma {:induction false} LastBreaks(text: string, nl: string, g: string)
    requires IsBreak(nl) && if EndsIn(text, nl) then g == nl else g == nl + nl
    ensures EndsIn(text + g, nl + nl)
  {
    if EndsIn(text, nl) {
      assert text == text[..|text| - |nl|] + nl;
      assert text + g == text[..|text| - |nl|] + (nl + nl);
    }
  }

  lemma {:induction false} EndsBefore(text: string, nl: string)
    ensures EndsIn(text + nl, nl + nl) ==> EndsIn(text, nl)
  {
    var s := text + nl;
    if EndsIn(s, nl + nl) {
      assert s[..|text|] == text && (nl + nl)[..|nl|] == nl;
      assert text[|text| - |nl|..] == s[|text| - |nl|..][..|nl|];
    }
  }

  lemma {:induction false} ShorterEnd(text: string, nl: string, g: string, k: nat)
    requires IsBreak(nl) && !EndsIn(text, nl + nl) && (g == nl || (g == nl + nl && !EndsIn(text, nl)))
    requires |text| <= k < |text + g|
    ensures !EndsIn((text + g)[..k], nl + nl)
  {
    var s := (text + g)[..k];
    if k == |text| {
      assert s == text;
    } else if k == |text| + |nl| {
      assert s == text + nl;
      EndsBefore(text, nl);
    } else {
      HalfBreak(nl, g, k - 1 - |text|);
      assert s[|s| - 1] == g[k - 1 - |text|];
      EndsInLf(s, nl);
    }
  }

  lemma {:induction false} EndsInLf(s: string, nl: string)
    requires IsBreak(nl)
    ensures EndsIn(s, nl + nl) ==> s != "" && s[|s| - 1] == '\n'
  {
    var x := nl + nl;
    if EndsIn(s, x) {
      assert s[|s| - |x|..][|x| - 1] == s[|s| - 1];
    }
  }

  /** Between the line breaks of a gap only a carriage return can stand. */
  lemma {:induction false} HalfBreak(nl: string, g: string, i: nat)
    requires IsBreak(nl) && (g == nl || g == nl + nl) && i < |g| - 1 && i != |nl| - 1
    ensures g[i] == '\r'
  {
  }

  /** What is added to a document that reads: its line breaks are like the document's first one, and one line is left blank. */
  lemma {:induction false} AppendedInStyle(text: string, path: seq<string>, entries: Entries)
    requires StatementsOf(SplitLines(text)).Some? && Readable(path, entries)
    ensures var now := Appended(text, path, entries);
      && text <= now && Styled(now, |text|, StartsCrLf(text))
      && OneBlankLine(text, now, if StartsCrLf(text) then "\r\n" else "\n")
  {
    var nl := NewlineStyle(text);
    var g, f := Gap(text, nl), Fragment(path, entries, nl);
    StyleIs(text);
    LoneCrIsNotRead(text);
    GapStyled(text, nl);
    FragmentStyled(path, entries, nl);
    StyledAppend(g, f, nl == "\r\n");
    StyledAppend(text, g + f, nl == "\r\n");
    Assoc(text, g, f);
    GapIsLeast(text, nl, f);
  }

  // ---------- the source's function ----------

  /** Whether the new table can be read and built behind the document: no value, table or array stands in its way. */
  predicate Fits(text: string, path: seq<string>, entries: Entries)
    requires StatementsOf(SplitLines(text)).Some?
  {
    Readable(path, entries) && Build(START, StatementsOf(SplitLines(text)).value + WrittenStmts(path, entries)).Some?
  }

  /** `path in _table_paths(text)` */
  predicate HasTable(lines: seq<string>, path: seq<string>) {
    exists k :: 0 <= k < |AllSpans(lines)| && AllSpans(lines)[k].path == path
  }

  method FindTable(spans: seq<TableSpan>, path: seq<string>) returns (found: bool)
    ensures found <==> exists k :: 0 <= k < |spans| && spans[k].path == path
  {
    found := false;
    for k := 0 to |spans|
      invariant found <==> exists l :: 0 <= l < k && spans[l].path == path
    {
      if spans[k].path == path {
        found := true;
      }
    }
  }

  method AppendTomlTable(repr: Repr, text: string, tablePath: seq<string>, values: seq<Item>) returns (r: Result<string, PatchError>)
    ensures r.Ok? <==> tablePath != [] && Parse(text).Some? && !HasTable(SplitLines(text), tablePath) &&
                       Fits(text, tablePath, LoweredEntries(repr, values))
    ensures r.Ok? ==> r.value == Appended(text, tablePath, LoweredEntries(repr, values)) && text <= r.value
    ensures r.Ok? ==> StatementsOf(SplitLines(r.value)) ==
                      Some(StatementsOf(SplitLines(text)).value + WrittenStmts(tablePath, LoweredEntries(repr, values)))
    ensures r.Ok? ==> Styled(r.value, |text|, StartsCrLf(text))
    ensures r.Ok? ==> OneBlankLine(text, r.value, if StartsCrLf(text) then "\r\n" else "\n")
    ensures r.Err? ==> r.error == if tablePath == [] then PathRequired
                                  else if Parse(text).Some? && HasTable(SplitLines(text), tablePath) then AlreadyExists
                                  else NotToml
  {
    if tablePath == [] {
      return Err(PathRequired);
    }
    if Parse(text).None? {
      return Err(NotToml);
    }
    var lines := SplitLines(text);
    StatementsFold(lines, "", OUTSIDE);
    var spans := TableSpans(lines);
    assert spans.Some? && spans.value == AllSpans(lines);
    var found := FindTable(spans.value, tablePath);
    if found {
      return Err(AlreadyExists);
    }
    var newline := NewlineStyle(text);
    var suffix := Gap(text, newline);
    var fragment := DumpsTomlTable(repr, tablePath, values);
    var candidate := text + suffix + Replace(fragment.value, '\n', newline);
    LoweredAreShaped(repr, values);
    AppendedFits(text, tablePath, LoweredEntries(repr, values));
    if Parse(candidate).None? {
      return Err(NotToml);
    }
    return Ok(candidate);
  }

  /** What the longer document is, if it reads: exactly when the table fits. */
  lemma {:induction false} AppendedFits(text: string, path: seq<string>, entries: Entries)
    requires StatementsOf(SplitLines(text)).Some? && path != [] && ShapedEntries(entries)
    ensures var now := Appended(text, path, entries);
      && (Parse(now).Some? <==> Fits(text, path, entries)) && text <= now
      && (Parse(now).Some? ==>
            && StatementsOf(SplitLines(now)) == Some(StatementsOf(SplitLines(text)).value + WrittenStmts(path, entries))
            && Styled(now, |text|, StartsCrLf(text)) && OneBlankLine(text, now, if StartsCrLf(text) then "\r\n" else "\n"))
  {
    AppendedReads(text, path, entries);
    if Readable(path, entries) {
      AppendedInStyle(text, path, entries);
    }
  }

  // ---------- removing the table again ----------

  ghost predicate NoneUnder(stmts: seq<Stmt>, path: seq<string>) {
    forall i :: 0 <= i < |stmts| && stmts[i].Header? ==> !(path <= stmts[i].path)
  }

  ghost predicate AllUnder(stmts: seq<Stmt>, path: seq<string>) {
    forall i :: 0 <= i < |stmts| && stmts[i].Header? ==> path <= stmts[i].path
  }

  /** A header line's path is the path of one of the document's statements. */
  lemma {:induction false} HeaderStatement(lines: seq<string>, i: nat) returns (k: nat)
    requires StatementsOf(lines).Some? && i < |lines| && IsHeader(lines, i)
    ensures k < |StatementsOf(lines).value| && StatementsOf(lines).value[k].Header?
    ensures Some(StatementsOf(lines).value[k].path) == TablePathFromLine(lines[i])
  {
    StatementIsNeutral(lines[i]);
    LineStatement(lines, i);
    k := |StatementsOf(lines[..i]).value|;
  }

  /** Whether a line is a header depends on the lines of its own part only. */
  lemma {:induction false} HeaderInPart(a: seq<string>, b: seq<string>, i: nat)
    requires i < |a + b| && Fold(a, OUTSIDE) == Some(OUTSIDE)
    ensures if i < |a| then IsHeader(a + b, i) <==> IsHeader(a, i) else IsHeader(a + b, i) <==> IsHeader(b, i - |a|)
  {
    if i < |a| {
      assert (a + b)[..i] == a[..i];
    } else {
      assert (a + b)[..i] == a + b[..i - |a|];
      FoldAppend(a, b[..i - |a|], OUTSIDE);
    }
  }

  /** Two parts of a document: nothing in the first is under the path, everything in the second is. */
  ghost predicate Parted(a: seq<string>, b: seq<string>, path: seq<string>) {
    Fold(a, OUTSIDE) == Some(OUTSIDE) && StatementsOf(a).Some? && StatementsOf(b).Some? &&
    NoneUnder(StatementsOf(a).value, path) && AllUnder(StatementsOf(b).value, path) && b != [] && IsHeader(b, 0)
  }

  lemma {:induction false} SpanInPart(a: seq<string>, b: seq<string>, path: seq<string>, k: nat)
    requires Parted(a, b, path) && k < |AllSpans(a + b)|
    ensures var s := AllSpans(a + b)[k]; SpanWithin(a + b, s) && (path <= s.path <==> s.start >= |a|)
  {
    var s := AllSpans(a + b)[k];
    SpansWithin(a + b, k);
    HeaderPart(a, b, path, s.start, s.path);
  }

  lemma {:induction false} HeaderPart(a: seq<string>, b: seq<string>, path: seq<string>, i: nat, p: seq<string>)
    requires Parted(a, b, path) && i < |a + b| && IsHeader(a + b, i) && TablePathFromLine((a + b)[i]) == Some(p)
    ensures path <= p <==> i >= |a|
  {
    HeaderInPart(a, b, i);
    if i < |a| {
      var j := HeaderStatement(a, i);
    } else {
      var j := HeaderStatement(b, i - |a|);
    }
  }

  /** From the start of a span on, every line lies in some span. */
  lemma {:induction false} Covered(lines: seq<string>, spans: seq<TableSpan>, k: nat, i: nat) returns (m: nat)
    requires spans == SpansOf(Headers(lines, |lines|), |lines|) && k < |spans| && spans[k].start <= i < |lines|
    ensures k <= m < |spans| && spans[m].start <= i < spans[m].end
    decreases |spans| - k
  {
    if i < spans[k].end {
      m := k;
    } else {
      m := Covered(lines, spans, k + 1, i);
    }
  }

  lemma {:induction false} FirstHeader(a: seq<string>, b: seq<string>, path: seq<string>) returns (k: nat)
    requires Parted(a, b, path) && b != []
    ensures k < |AllSpans(a + b)| && AllSpans(a + b)[k].start == |a| && IsHeader(a + b, |a|)
  {
    assert (a + b)[|a|] == b[0];
    HeaderInPart(a, b, |a|);
    k := HeadersComplete(a + b, |a + b|, |a|);
  }

  lemma {:induction false} PartSpan(a: seq<string>, b: seq<string>, path: seq<string>, i: nat) returns (m: nat)
    requires Parted(a, b, path) && |a| <= i < |a + b|
    ensures m < |AllSpans(a + b)|
    ensures var s := AllSpans(a + b)[m]; SpanWithin(a + b, s) && s.start <= i < s.end && path <= s.path
  {
    var lines := a + b;
    var k := FirstHeader(a, b, path);
    m := Covered(lines, AllSpans(lines), k, i);
    if m > k {
      HeadersSorted(lines, |lines|, k, m);
    }
    SpanInPart(a, b, path, m);
  }

  lemma {:induction false} FrontIsKept(a: seq<string>, b: seq<string>, path: seq<string>, i: nat)
    requires Parted(a, b, path) && i < |a|
    ensures i !in DropSet(a + b, path)
  {
    var spans := AllSpans(a + b);
    if Dropped(a + b, spans, path, i) {
      var k :| 0 <= k < |spans| && Under(path, spans[k].path) && InContent(a + b, spans[k], i);
      SpanInPart(a, b, path, k);
    }
  }

  lemma {:induction false} BackIsTrivia(a: seq<string>, b: seq<string>, path: seq<string>, i: nat)
    requires Parted(a, b, path) && |a| <= i < |a + b| && i !in DropSet(a + b, path)
    ensures IsTrivia((a + b)[i])
  {
    var spans := AllSpans(a + b);
    var m := PartSpan(a, b, path, i);
    assert Under(path, spans[m].path);
    assert !InContent(a + b, spans[m], i);
  }

  lemma {:induction false} KeepsBreaks(lines: seq<string>, drop: set<nat>, i: nat, nl: string) returns (n: nat)
    requires i <= |lines| && forall j :: i <= j < |lines| && j !in drop ==> lines[j] == nl
    ensures Concat(Keep(lines, drop, i, |lines|)) == Breaks(nl, n)
    decreases |lines| - i
  {
    if i == |lines| {
      n := 0;
    } else {
      n := KeepsBreaks(lines, drop, i + 1, nl);
      var rest := Keep(lines, drop, i + 1, |lines|);
      if i in drop {
        assert [] + rest == rest;
      } else {
        assert ([lines[i]] + rest)[1..] == rest;
        n := n + 1;
      }
    }
  }

  /** Removing the second part leaves the first one and the empty lines of the second. */
  lemma {:induction false} PartRemoved(a: seq<string>, b: seq<string>, path: seq<string>, nl: string) returns (n: nat)
    requires Parted(a, b, path) && IsBreak(nl) && forall l :: l in b ==> l == nl || !IsTrivia(l)
    ensures Concat(Kept(a + b, path)) == Concat(a) + Breaks(nl, n)
    ensures HasTree(a + b, path) && TrailersReadable(a + b, path)
  {
    var lines, drop := a + b, DropSet(a + b, path);
    forall i | 0 <= i < |a| ensures i !in drop {
      FrontIsKept(a, b, path, i);
    }
    forall j | |a| <= j < |lines| && j !in drop ensures lines[j] == nl {
      BackIsTrivia(a, b, path, j);
      assert lines[j] == b[j - |a|];
    }
    KeepSplit(lines, drop, 0, |a|, |lines|);
    KeepAll(lines, drop, 0, |a|);
    assert lines[0..|a|] == a;
    n := KeepsBreaks(lines, drop, |a|, nl);
    ConcatAppend(a, Keep(lines, drop, |a|, |lines|));
    var m := PartSpan(a, b, path, |a|);
    assert Under(path, AllSpans(lines)[m].path);
    forall k | 0 <= k < |AllSpans(lines)| ensures TrailersAt(lines, path, k) {
      TrailersAreBreaks(a, b, path, nl, k);
    }
  }

  lemma {:induction false} TrailersAreBreaks(a: seq<string>, b: seq<string>, path: seq<string>, nl: string, k: nat)
    requires Parted(a, b, path) && IsBreak(nl) && k < |AllSpans(a + b)| && forall l :: l in b ==> l == nl || !IsTrivia(l)
    ensures TrailersAt(a + b, path, k)
  {
    var lines := a + b;
    var s := AllSpans(lines)[k];
    SpanInPart(a, b, path, k);
    BreakReads(nl);
    if Under(path, s.path) {
      var e := ContentEnd(lines, s.start, s.end);
      forall i | 0 <= i < |lines[e..s.end]| ensures ParseStmt(lines[e..s.end][i]) == Some(Blank) {
        assert lines[e..s.end][i] == lines[e + i] == b[e + i - |a|];
        assert IsTrivia(lines[e + i]);
      }
    }
  }

  /**
    Removing what was appended yields the original text and line breaks, when no earlier header extends the path; and
    that document reads as the original one.
   */
  lemma {:induction false} RemovalUndoesAppend(text: string, path: seq<string>, entries: Entries) returns (n: nat)
    requires Parse(text).Some? && path != [] && CleanPath(path) && Readable(path, entries)
    requires NoneUnder(StatementsOf(SplitLines(text)).value, path)
    ensures Leftover(Appended(text, path, entries), path) == Some(text + Breaks(NewlineStyle(text), n))
    ensures Parse(text + Breaks(NewlineStyle(text), n)) == Parse(text)
  {
    var nl := NewlineStyle(text);
    var g := GapReads(text, nl);
    var front := text + Gap(text, nl);
    var m := FragmentRemoved(front, path, entries, nl);
    n := GapAndMore(Leftover(Appended(text, path, entries), path), text, Gap(text, nl), nl, g, m);
    BreaksBehind(front, nl, m);
  }

  lemma {:induction false} GapAndMore(left: Option<string>, text: string, gap: string, nl: string, g: nat, m: nat)
    returns (n: nat)
    requires gap == Breaks(nl, g) && left == Some(text + gap + Breaks(nl, m))
    ensures left == Some(text + Breaks(nl, n)) && text + gap + Breaks(nl, m) == text + Breaks(nl, n)
  {
    n := g + m;
    BreaksAdd(nl, g, m);
    Regroup(left, text, gap, Breaks(nl, m), Breaks(nl, g + m));
  }

  lemma {:induction false} Regroup(left: Option<string>, text: string, gap: string, more: string, all: string)
    requires left == Some(text + gap + more) && all == gap + more
    ensures left == Some(text + all)
  {
    Assoc(text, gap, more);
  }

  lemma {:induction false} FragmentRemoved(front: string, path: seq<string>, entries: Entries, nl: string) returns (n: nat)
    requires (front == "" || Ended(front)) && StatementsOf(SplitLines(front)).Some? && IsBreak(nl)
    requires path != [] && CleanPath(path) && Readable(path, entries)
    requires NoneUnder(StatementsOf(SplitLines(front)).value, path)
    ensures Leftover(front + Fragment(path, entries, nl), path) == Some(front + Breaks(nl, n))
  {
    var a, b := SplitLines(front), SplitLines(Fragment(path, entries, nl));
    var written := FoldedEntries(entries);
    CleanPathFolds(path);
    SameTable(path, entries);
    SplitAppend(front, Fragment(path, entries, nl));
    FragmentReads(path, written, nl);
    FragmentStart(path, written, nl);
    FragmentParted(a, b, path, written);
    n := PartRemoved(a, b, path, nl);
  }

  lemma {:induction false} FragmentParted(a: seq<string>, b: seq<string>, path: seq<string>, entries: Entries)
    requires StatementsOf(a).Some? && NoneUnder(StatementsOf(a).value, path)
    requires StatementsOf(b) == Some(TableStmts(path, entries))
    requires b != [] && ParseStmt(b[0]).Some? && ParseStmt(b[0]).value.Header?
    ensures Parted(a, b, path)
  {
    StatementsFold(a, "", OUTSIDE);
    forall i | 0 <= i < |TableStmts(path, entries)| && TableStmts(path, entries)[i].Header?
      ensures path <= TableStmts(path, entries)[i].path
    {
      TableHeaders(path, entries, i);
    }
    assert b[..0] == [];
  }
}
