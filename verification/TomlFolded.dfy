/**
  What is really written: strings with their CRLF and CR folded to LF.  If the written lines hold no control character that
  TOML forbids, every one of these strings and keys is clean.
 */
module TomlFolded {
  import opened Wrappers
  import opened TomlLexer
  import opened TomlSyntax
  import opened TomlWriter
  import opened TomlScalars
  import opened TomlRoundTrip
  import opened TomlControl

  // ---------- folded data ----------

  function FoldedTexts(items: seq<string>): (r: seq<string>)
    ensures |r| == |items|
  {
    if items == [] then [] else [Folded(items[0])] + FoldedTexts(items[1..])
  }

  function FoldedPath(path: seq<string>): (r: seq<string>)
    ensures |r| == |path|
  {
    if path == [] then [] else FoldedPath(Front(path)) + [Folded(Last(path))]
  }

  function FoldedData(d: Data): Data
    decreases d
  {
    match d
    case Text(s) => Text(Folded(s))
    case Texts(items) => Texts(FoldedTexts(items))
    case Table(entries) => Table(FoldedEntries(entries))
    case Tables(items) => Tables(FoldedTables(items))
    case _ => d
  }

  function FoldedEntries(entries: Entries): (r: Entries)
    ensures |r| == |entries|
    decreases entries
  {
    if entries == [] then [] else FoldedEntries(Front(entries)) + [FoldedEntry(Last(entries))]
  }

  function FoldedEntry(e: Entry): Entry
    decreases e
  {
    Entry(Folded(e.key), FoldedData(e.value))
  }

  function FoldedTables(items: seq<Data>): (r: seq<Data>)
    ensures |r| == |items|
    decreases items
  {
    if items == [] then [] else FoldedTables(Front(items)) + [FoldedData(Last(items))]
  }

  lemma {:induction false} FoldedLast(entries: Entries)
    requires entries != []
    ensures Front(FoldedEntries(entries)) == FoldedEntries(Front(entries))
    ensures Last(FoldedEntries(entries)) == FoldedEntry(Last(entries))
  {
  }

  lemma {:induction false} FoldedTablesLast(items: seq<Data>)
    requires items != []
    ensures Front(FoldedTables(items)) == FoldedTables(Front(items)) && Last(FoldedTables(items)) == FoldedData(Last(items))
  {
  }

  lemma {:induction false} FoldedPathMore(path: seq<string>, key: string)
    ensures FoldedPath(path + [key]) == FoldedPath(path) + [Folded(key)]
  {
    assert Front(path + [key]) == path;
  }

  // ---------- the same lines ----------

  lemma {:induction false} ReplaceNothing(s: string)
    requires Without(s, '\r')
    ensures Replace(s, '\r', "\n") == s
  {
    if s != "" {
      ReplaceNothing(s[1..]);
      assert [s[0]] + s[1..] == s;
    }
  }

  lemma {:induction false} FoldedTwice(s: string)
    ensures Without(Folded(s), '\r') && Folded(Folded(s)) == Folded(s)
  {
    ReplacedNoCr(Unix(s));
    NoCr(Folded(s));
    ReplaceNothing(Folded(s));
  }

  lemma {:induction false} SameText(s: string)
    ensures FormatText(Folded(s)) == FormatText(s)
  {
    FoldedTwice(s);
    EscapedIsEncoded(s);
    EscapedIsEncoded(Folded(s));
  }

  lemma {:induction false} BareIsSame(s: string)
    requires IsBare(s)
    ensures Folded(s) == s
  {
    CleanFolds(s);
  }

  lemma {:induction false} FoldedCrlf(s: string)
    requires |s| >= 2 && s[0] == '\r' && s[1] == '\n'
    ensures !IsBare(Folded(s))
  {
    assert Unix(s) == ['\n'] + Unix(s[2..]);
    ReplaceAppend(['\n'], Unix(s[2..]), '\r', "\n");
    ReplaceOne('\n', '\r', "\n");
    assert Folded(s)[0] == '\n';
  }

  lemma {:induction false} BareFolds(s: string)
    requires IsBare(Folded(s))
    ensures IsBare(s)
    decreases |s|
  {
    if s != "" {
      if |s| >= 2 && s[0] == '\r' && s[1] == '\n' {
        FoldedCrlf(s);
      } else {
        FoldedCons(s);
        assert IsBareKey(Folded(s)[0]);
        RestIsBare(s);
      }
    }
  }

  lemma {:induction false} RestIsBare(s: string)
    requires s != "" && IsBareKey(s[0]) && Folded(s) == [s[0]] + Folded(s[1..]) && IsBare(Folded(s))
    ensures IsBare(s)
    decreases |s|, 0
  {
    if |s| > 1 {
      assert forall i :: 0 <= i < |Folded(s[1..])| ==> Folded(s[1..])[i] == Folded(s)[i + 1];
      FoldedNonEmpty(s[1..]);
      BareFolds(s[1..]);
      assert forall i :: 0 < i < |s| ==> s[i] == s[1..][i - 1];
    }
  }

  lemma {:induction false} FoldedNonEmpty(s: string)
    requires s != ""
    ensures Folded(s) != ""
  {
  }

  lemma {:induction false} SameKey(k: string)
    ensures FormatKey(Folded(k)) == FormatKey(k)
  {
    SameText(k);
    if IsBare(k) {
      BareIsSame(k);
    } else if IsBare(Folded(k)) {
      BareFolds(k);
    }
  }

  lemma {:induction false} SameKeys(path: seq<string>)
    ensures FormatKeys(FoldedPath(path)) == FormatKeys(path)
  {
    if path != [] {
      SameKeys(Front(path));
      SameKey(Last(path));
      KeysLast(path);
      KeysLast(FoldedPath(path));
    }
  }

  lemma {:induction false} KeysLast(path: seq<string>)
    requires path != []
    ensures FormatKeys(path) == FormatKeys(Front(path)) + [FormatKey(Last(path))]
  {
    if |path| > 1 {
      KeysLast(path[1..]);
      assert Front(path)[1..] == Front(path[1..]) && Last(path[1..]) == Last(path);
    } else {
      assert path[1..] == [];
    }
  }

  lemma {:induction false} SameName(path: seq<string>)
    ensures FormatTableName(FoldedPath(path)) == FormatTableName(path)
  {
    SameKeys(path);
  }

  lemma {:induction false} SameIndented(items: seq<string>)
    ensures Indented(FoldedTexts(items)) == Indented(items)
  {
    if items != [] {
      SameText(items[0]);
      SameIndented(items[1..]);
      assert FoldedTexts(items)[1..] == FoldedTexts(items[1..]);
    }
  }

  lemma {:induction false} SameAssign(e: Entry)
    requires KindOf(e.value).ScalarKind?
    ensures AssignLine(Folded(e.key), FoldedData(e.value)) == AssignLine(e.key, e.value)
  {
    SameKey(e.key);
    match e.value
    case Text(s) => SameText(s);
    case Texts(items) => SameIndented(items);
    case _ =>
  }

  lemma {:induction false} SameScalars(entries: Entries)
    ensures ScalarLines(FoldedEntries(entries)) == ScalarLines(entries)
  {
    if entries != [] {
      FoldedLast(entries);
      SameScalars(Front(entries));
      if KindOf(Last(entries).value).ScalarKind? {
        SameAssign(Last(entries));
        assert ScalarLine(FoldedEntry(Last(entries))) == ScalarLine(Last(entries));
      }
    }
  }

  lemma {:induction false} SameBody(path: seq<string>, entries: Entries)
    ensures BodyLines(FoldedPath(path), FoldedEntries(entries)) == BodyLines(path, entries)
    decreases entries, 3
  {
    SameScalars(entries);
    SameNested(path, entries);
    SameArrays(path, entries);
  }

  lemma {:induction false} SameTable(path: seq<string>, entries: Entries)
    ensures TableLines(FoldedPath(path), FoldedEntries(entries)) == TableLines(path, entries)
    decreases entries, 4
  {
    SameName(path);
    SameBody(path, entries);
  }

  lemma {:induction false} SameNested(path: seq<string>, entries: Entries)
    ensures NestedLines(FoldedPath(path), FoldedEntries(entries)) == NestedLines(path, entries)
    decreases entries, 2
  {
    if entries != [] {
      FoldedLast(entries);
      SameNested(path, Front(entries));
      SameNestedOne(path, Last(entries));
    }
  }

  lemma {:induction false} SameNestedOne(path: seq<string>, e: Entry)
    ensures NestedLine(FoldedPath(path), FoldedEntry(e)) == NestedLine(path, e)
    decreases e
  {
    if e.value.Table? {
      FoldedPathMore(path, e.key);
      SameTable(path + [e.key], e.value.entries);
    }
  }

  lemma {:induction false} SameArrays(path: seq<string>, entries: Entries)
    ensures ArrayLines(FoldedPath(path), FoldedEntries(entries)) == ArrayLines(path, entries)
    decreases entries, 2
  {
    if entries != [] {
      var e := Last(entries);
      FoldedLast(entries);
      SameArrays(path, Front(entries));
      if e.value.Tables? {
        FoldedPathMore(path, e.key);
        SameItems(path + [e.key], e.value.tables);
      }
    }
  }

  lemma {:induction false} SameItems(path: seq<string>, items: seq<Data>)
    ensures ItemLines(FoldedPath(path), FoldedTables(items)) == ItemLines(path, items)
    decreases items
  {
    if items != [] {
      FoldedTablesLast(items);
      SameItems(path, Front(items));
      SameItem(path, Last(items));
    }
  }

  lemma {:induction false} SameItem(path: seq<string>, item: Data)
    ensures ItemLine(FoldedPath(path), FoldedData(item)) == ItemLine(path, item)
    decreases item
  {
    SameName(path);
    if item.Table? {
      SameBody(path, item.entries);
    }
  }

  // ---------- lines without forbidden characters ----------

  function BadIn(lines: seq<string>): nat {
    Bad(Terminated(lines))
  }

  lemma {:induction false} BadInAppend(a: seq<string>, b: seq<string>)
    ensures BadIn(a + b) == BadIn(a) + BadIn(b)
  {
    TerminatedAppend(a, b);
    BadAppend(Terminated(a), Terminated(b));
  }

  lemma {:induction false} BadInOne(line: string)
    ensures BadIn([line]) == Bad(line)
  {
    assert Terminated([line]) == "" + (line + "\n") == line + "\n";
    BadAppend(line, "\n");
    BreakFree(Forbidden);
    BadIsCount("\n");
  }

  lemma {:induction false} EncodedIsClean(s: string)
    requires Without(s, '\r') && Bad(Encode(s)) == 0
    ensures Clean(s)
  {
    if s != "" {
      BadAppend(EncodeChar(s[0]), Encode(s[1..]));
      EncodedIsClean(s[1..]);
      CleanCons(s);
      assert |EncodeChar(s[0])| == 1 ==> EncodeChar(s[0])[0] == s[0];
    }
  }

  lemma {:induction false} TextIsClean(s: string)
    requires Bad(FormatText(s)) == 0
    ensures Clean(Folded(s))
  {
    FoldedTwice(s);
    EscapedIsEncoded(s);
    var e := Encode(Folded(s));
    BadAppend("\"" + e, "\"");
    BadAppend("\"", e);
    EncodedIsClean(Folded(s));
  }

  lemma {:induction false} KeyIsClean(k: string)
    requires Bad(FormatKey(k)) == 0
    ensures Clean(Folded(k))
  {
    if IsBare(k) {
      BareIsSame(k);
    } else {
      TextIsClean(k);
    }
  }

  lemma {:induction false} NameIsClean(path: seq<string>)
    requires Bad(FormatTableName(path)) == 0
    ensures forall i :: 0 <= i < |path| ==> Clean(Folded(path[i]))
  {
    if |path| == 1 {
      KeyIsClean(path[0]);
    } else if path != [] {
      var keys := FormatKeys(path);
      assert keys[1..] == FormatKeys(path[1..]);
      BadAppend(keys[0] + ".", Join(keys[1..], "."));
      BadAppend(keys[0], ".");
      KeyIsClean(path[0]);
      NameIsClean(path[1..]);
      assert forall i :: 0 < i < |path| ==> path[i] == path[1..][i - 1];
    }
  }

  lemma {:induction false} FoldedPathAt(path: seq<string>)
    ensures forall i :: 0 <= i < |path| ==> FoldedPath(path)[i] == Folded(path[i])
  {
    if path != [] {
      FoldedPathAt(Front(path));
    }
  }

  lemma {:induction false} PathIsClean(path: seq<string>)
    requires Bad(FormatTableName(path)) == 0
    ensures CleanPath(FoldedPath(path))
  {
    NameIsClean(path);
    FoldedPathAt(path);
  }

  lemma {:induction false} BracketedIsClean(opening: string, path: seq<string>, closing: string)
    requires BadIn([opening + FormatTableName(path) + closing]) == 0
    ensures CleanPath(FoldedPath(path))
  {
    BadInOne(opening + FormatTableName(path) + closing);
    BadAppend(opening + FormatTableName(path), closing);
    BadAppend(opening, FormatTableName(path));
    PathIsClean(path);
  }

  lemma {:induction false} ListIsClean(items: seq<string>)
    requires Bad(Join(Indented(items), ",\n")) == 0
    ensures forall i :: 0 <= i < |items| ==> Clean(FoldedTexts(items)[i])
  {
    if items != [] {
      var all := Indented(items);
      assert all[1..] == Indented(items[1..]);
      BadAppend("    ", FormatText(items[0]));
      if |items| > 1 {
        BadAppend(all[0] + ",\n", Join(all[1..], ",\n"));
        BadAppend(all[0], ",\n");
        ListIsClean(items[1..]);
      }
      TextIsClean(items[0]);
    }
  }

  lemma {:induction false} ValueIsLegible(d: Data)
    requires KindOf(d).ScalarKind? && Bad(FormatValue(d)) == 0
    ensures Legible(FoldedData(d))
  {
    match d
    case Text(s) => TextIsClean(s);
    case Texts(items) =>
      if items != [] {
        var j := Join(Indented(items), ",\n");
        BadAppend("[\n" + j, "\n]");
        BadAppend("[\n", j);
        ListIsClean(items);
      }
    case _ =>
  }

  lemma {:induction false} AssignIsLegible(e: Entry)
    requires KindOf(e.value).ScalarKind? && BadIn([AssignLine(e.key, e.value)]) == 0
    ensures LegibleEntry(FoldedEntry(e))
  {
    BadInOne(AssignLine(e.key, e.value));
    BadAppend(FormatKey(e.key) + " = ", FormatValue(e.value));
    BadAppend(FormatKey(e.key), " = ");
    KeyIsClean(e.key);
    ValueIsLegible(e.value);
  }

  predicate LegibleEntry(e: Entry) {
    Clean(e.key) && Legible(e.value)
  }

  /** The entries of one kind are legible. */
  predicate LegibleKind(entries: Entries, kind: Kind) {
    forall i :: 0 <= i < |entries| && KindOf(entries[i].value) == kind ==> LegibleEntry(FoldedEntry(entries[i]))
  }

  lemma {:induction false} KindMore(entries: Entries, kind: Kind)
    requires entries != [] && LegibleKind(Front(entries), kind)
    requires KindOf(Last(entries).value) == kind ==> LegibleEntry(FoldedEntry(Last(entries)))
    ensures LegibleKind(entries, kind)
  {
    forall i | 0 <= i < |entries| && KindOf(entries[i].value) == kind ensures LegibleEntry(FoldedEntry(entries[i])) {
      if i < |entries| - 1 {
        assert Front(entries)[i] == entries[i];
      }
    }
  }

  lemma {:induction false} KindLess(entries: Entries, kind: Kind)
    requires entries != [] && LegibleKind(entries, kind)
    ensures LegibleKind(Front(entries), kind)
  {
    forall i | 0 <= i < |entries| - 1 && KindOf(Front(entries)[i].value) == kind ensures LegibleEntry(FoldedEntry(Front(entries)[i])) {
      assert Front(entries)[i] == entries[i];
    }
  }

  lemma {:induction false} KindsAreLegible(entries: Entries)
    requires LegibleKind(entries, ScalarKind) && LegibleKind(entries, NestedKind) && LegibleKind(entries, ArrayKind)
    ensures LegibleEntries(FoldedEntries(entries))
  {
    if entries != [] {
      var front := Front(entries);
      KindLess(entries, ScalarKind);
      KindLess(entries, NestedKind);
      KindLess(entries, ArrayKind);
      KindsAreLegible(front);
      FoldedLast(entries);
      var e := Last(entries);
      assert entries[|entries| - 1] == e;
      assert LegibleEntry(FoldedEntry(e));
      LegibleMore(FoldedEntries(front), FoldedEntry(e));
    }
  }

  lemma {:induction false} LegibleMore(entries: Entries, e: Entry)
    requires LegibleEntries(entries) && LegibleEntry(e)
    ensures LegibleEntries(entries + [e])
  {
    var all := entries + [e];
    forall i | 0 <= i < |all| ensures Clean(all[i].key) && Legible(all[i].value) {
      if i < |entries| {
        assert all[i] == entries[i];
      }
    }
  }

  lemma {:induction false} ScalarsAreLegible(entries: Entries)
    requires BadIn(ScalarLines(entries)) == 0
    ensures LegibleKind(entries, ScalarKind)
  {
    if entries != [] {
      var e := Last(entries);
      BadInAppend(ScalarLines(Front(entries)), ScalarLine(e));
      ScalarsAreLegible(Front(entries));
      if KindOf(e.value).ScalarKind? {
        AssignIsLegible(e);
      }
      KindMore(entries, ScalarKind);
    }
  }

  lemma {:induction false} BodyIsLegible(path: seq<string>, entries: Entries)
    requires ShapedEntries(entries) && BadIn(BodyLines(path, entries)) == 0
    ensures LegibleEntries(FoldedEntries(entries))
    decreases entries, 3
  {
    BadInAppend(ScalarLines(entries) + NestedLines(path, entries), ArrayLines(path, entries));
    BadInAppend(ScalarLines(entries), NestedLines(path, entries));
    ScalarsAreLegible(entries);
    NestedAreLegible(path, entries);
    ArraysAreLegible(path, entries);
    KindsAreLegible(entries);
  }

  /** A written table without forbidden characters: its strings, folded, are all clean. */
  lemma {:induction false} TableIsLegible(path: seq<string>, entries: Entries)
    requires ShapedEntries(entries) && BadIn(TableLines(path, entries)) == 0
    ensures CleanPath(FoldedPath(path)) && LegibleEntries(FoldedEntries(entries))
    decreases entries, 4
  {
    BadInAppend(["[" + FormatTableName(path) + "]"], BodyLines(path, entries));
    BracketedIsClean("[", path, "]");
    BodyIsLegible(path, entries);
  }

  lemma {:induction false} LastIsShaped(entries: Entries)
    requires entries != [] && ShapedEntries(entries)
    ensures ShapedEntries(Front(entries)) && Shaped(Last(entries).value)
  {
    assert Shaped(entries[|entries| - 1].value);
  }

  lemma {:induction false} NestedAreLegible(path: seq<string>, entries: Entries)
    requires ShapedEntries(entries) && BadIn(NestedLines(path, entries)) == 0
    ensures LegibleKind(entries, NestedKind)
    decreases entries, 2
  {
    if entries != [] {
      var e := Last(entries);
      LastIsShaped(entries);
      BadInAppend(NestedLines(path, Front(entries)), NestedLine(path, e));
      NestedAreLegible(path, Front(entries));
      if e.value.Table? {
        NestedIsLegible(path, e);
      }
      KindMore(entries, NestedKind);
    }
  }

  lemma {:induction false} NestedIsLegible(path: seq<string>, e: Entry)
    requires e.value.Table? && Shaped(e.value) && BadIn(NestedLine(path, e)) == 0
    ensures LegibleEntry(FoldedEntry(e))
    decreases e
  {
    BadInAppend([""], TableLines(path + [e.key], e.value.entries));
    TableIsLegible(path + [e.key], e.value.entries);
    LastIsClean(path, e.key);
  }

  lemma {:induction false} LastIsClean(path: seq<string>, key: string)
    requires CleanPath(FoldedPath(path + [key]))
    ensures Clean(Folded(key))
  {
    FoldedPathMore(path, key);
    assert FoldedPath(path + [key])[|path|] == Folded(key);
  }

  lemma {:induction false} ArraysAreLegible(path: seq<string>, entries: Entries)
    requires ShapedEntries(entries) && BadIn(ArrayLines(path, entries)) == 0
    ensures LegibleKind(entries, ArrayKind)
    decreases entries, 2
  {
    if entries != [] {
      var e := Last(entries);
      LastIsShaped(entries);
      BadInAppend(ArrayLines(path, Front(entries)), ArrayLine(path, e));
      ArraysAreLegible(path, Front(entries));
      if e.value.Tables? {
        ArrayIsLegible(path, e);
      }
      KindMore(entries, ArrayKind);
    }
  }

  lemma {:induction false} ArrayIsLegible(path: seq<string>, e: Entry)
    requires e.value.Tables? && Shaped(e.value) && BadIn(ArrayLine(path, e)) == 0
    ensures LegibleEntry(FoldedEntry(e))
    decreases e
  {
    ItemsAreLegible(path + [e.key], e.value.tables);
    LastIsClean(path, e.key);
    assert FoldedTables(e.value.tables) != [];
  }

  lemma {:induction false} ItemsAreLegible(path: seq<string>, items: seq<Data>)
    requires (forall i :: 0 <= i < |items| ==> ShapedItem(items[i])) && BadIn(ItemLines(path, items)) == 0
    ensures forall i :: 0 <= i < |items| ==> LegibleItem(FoldedTables(items)[i])
    ensures items != [] ==> CleanPath(FoldedPath(path))
    decreases items
  {
    if items != [] {
      FoldedTablesLast(items);
      BadInAppend(ItemLines(path, Front(items)), ItemLine(path, Last(items)));
      ItemsAreLegible(path, Front(items));
      assert ShapedItem(items[|items| - 1]);
      ItemIsLegible(path, Last(items));
    }
  }

  lemma {:induction false} ItemIsLegible(path: seq<string>, item: Data)
    requires ShapedItem(item) && BadIn(ItemLine(path, item)) == 0
    ensures LegibleItem(FoldedData(item)) && CleanPath(FoldedPath(path))
    decreases item
  {
    var header := "[[" + FormatTableName(path) + "]]";
    assert ["", header] == [""] + [header];
    BadInAppend(["", header], BodyLines(path, item.entries));
    BadInAppend([""], [header]);
    BracketedIsClean("[[", path, "]]");
    BodyIsLegible(path, item.entries);
    StillNoArrays(item.entries);
  }

  lemma {:induction false} StillNoArrays(entries: Entries)
    requires forall i :: 0 <= i < |entries| ==> !entries[i].value.Tables?
    ensures forall i :: 0 <= i < |entries| ==> !FoldedEntries(entries)[i].value.Tables?
  {
    if entries != [] {
      StillNoArrays(Front(entries));
      FoldedLast(entries);
    }
  }
}
