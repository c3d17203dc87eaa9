/** `dumps_public_config` and reading its text back: the round trip on every config, with its exact condition. */
module TomlPublicConfig {
  import opened Text
  import opened Wrappers
  import opened TomlLexer
  import opened TomlSyntax
  import opened TomlWriter
  import opened TomlScalars
  import opened TomlRoundTrip
  import opened TomlTree
  import opened TomlConfig
  import opened TomlControl
  import opened TomlObjects
  import opened TomlFolded
  import opened TomlFaithful

  // ---------- no key of the tree holds a carriage return ----------

  predicate ClearPath(path: seq<string>) {
    forall i :: 0 <= i < |path| ==> Without(path[i], '\r')
  }

  predicate ClearKeys(n: Node)
    decreases n
  {
    match n
    case Leaf(_) => true
    case Dict(m, _) => forall k :: k in m ==> Without(k, '\r') && ClearKeys(m[k])
    case Items(items) => forall i :: 0 <= i < |items| ==> ClearKeys(items[i])
  }

  predicate ClearStmt(s: Stmt) {
    (s.Header? ==> ClearPath(s.path)) && (s.Assign? ==> Without(s.key, '\r'))
  }

  predicate ClearStmts(stmts: seq<Stmt>) {
    forall i :: 0 <= i < |stmts| ==> ClearStmt(stmts[i])
  }

  lemma {:induction false} ClearAppend(a: seq<Stmt>, b: seq<Stmt>)
    requires ClearStmts(a) && ClearStmts(b)
    ensures ClearStmts(a + b)
  {
  }

  lemma {:induction false} ClearLast(items: seq<Node>, x: Node)
    requires items != [] && ClearKeys(Items(items)) && ClearKeys(x)
    ensures ClearKeys(Items(SetLast(items, x))) && ClearKeys(Last(items))
  {
  }

  lemma {:induction false} ClearMore(m: map<string, Node>, e: bool, k: string, x: Node)
    requires ClearKeys(Dict(m, e)) && ClearKeys(x) && Without(k, '\r')
    ensures ClearKeys(Dict(m[k := x], e))
  {
  }

  lemma {:induction false} ClearHere(was: Option<Node>, ofTables: bool)
    requires (was.Some? ==> ClearKeys(was.value)) && DeclareHere(was, ofTables).Some?
    ensures ClearKeys(DeclareHere(was, ofTables).value)
  {
    assert ClearKeys(EMPTY);
  }

  lemma {:induction false} DeclareClear(t: Node, path: seq<string>, ofTables: bool)
    requires ClearKeys(t) && ClearPath(path) && Declare(t, path, ofTables).Some?
    ensures ClearKeys(Declare(t, path, ofTables).value)
    decreases |path|, t
  {
    match t
    case Items(items) =>
      ClearLast(items, Last(items));
      DeclareClear(Last(items), path, ofTables);
      ClearLast(items, Declare(Last(items), path, ofTables).value);
    case Dict(m, e) =>
      if |path| == 1 {
        var was := if path[0] in m then Some(m[path[0]]) else None;
        ClearHere(was, ofTables);
        ClearMore(m, e, path[0], DeclareHere(was, ofTables).value);
      } else {
        DeclareClear(Child(m, path[0]), path[1..], ofTables);
        ClearMore(m, e, path[0], Declare(Child(m, path[0]), path[1..], ofTables).value);
      }
  }

  lemma {:induction false} AssignClear(t: Node, path: seq<string>, k: string, v: Value)
    requires ClearKeys(t) && ClearPath(path) && Without(k, '\r') && AssignAt(t, path, k, v).Some?
    ensures ClearKeys(AssignAt(t, path, k, v).value)
    decreases |path|, t
  {
    match t
    case Items(items) =>
      ClearLast(items, Last(items));
      AssignClear(Last(items), path, k, v);
      ClearLast(items, AssignAt(Last(items), path, k, v).value);
    case Dict(m, e) =>
      if path == [] {
        ClearMore(m, e, k, Leaf(v));
      } else {
        AssignClear(m[path[0]], path[1..], k, v);
        ClearMore(m, e, path[0], AssignAt(m[path[0]], path[1..], k, v).value);
      }
  }

  lemma {:induction false} BuildClear(d: Doc, stmts: seq<Stmt>)
    requires ClearKeys(d.root) && ClearPath(d.at) && ClearStmts(stmts) && Build(d, stmts).Some?
    ensures ClearKeys(Build(d, stmts).value.root)
    decreases |stmts|
  {
    if stmts != [] {
      var s := stmts[0];
      match s {
        case Blank =>
        case Header(path, ofTables) => DeclareClear(d.root, path, ofTables);
        case Assign(k, v) => AssignClear(d.root, d.at, k, v);
      }
      BuildClear(Apply(d, s).value, stmts[1..]);
    }
  }

  // ---------- the statements of folded data ----------

  lemma {:induction false} PathMore(path: seq<string>, key: string)
    requires ClearPath(path)
    ensures ClearPath(path + [Folded(key)])
  {
    FoldedTwice(key);
  }

  lemma {:induction false} ScalarClear(e: Entry)
    ensures ClearStmts(ScalarStmt(FoldedEntry(e)))
  {
    FoldedTwice(e.key);
  }

  lemma {:induction false} ScalarsClear(entries: Entries)
    ensures ClearStmts(ScalarStmts(FoldedEntries(entries)))
  {
    if entries != [] {
      FoldedLast(entries);
      ScalarClear(Last(entries));
      ScalarsClear(Front(entries));
      ClearAppend(ScalarStmts(FoldedEntries(Front(entries))), ScalarStmt(FoldedEntry(Last(entries))));
    }
  }

  lemma {:induction false} BodyClear(path: seq<string>, entries: Entries)
    requires ClearPath(path)
    ensures ClearStmts(BodyStmts(path, FoldedEntries(entries)))
    decreases entries, 3
  {
    var f := FoldedEntries(entries);
    ScalarsClear(entries);
    NestedClear(path, entries);
    ArraysClear(path, entries);
    ClearAppend(ScalarStmts(f), NestedStmts(path, f));
    ClearAppend(ScalarStmts(f) + NestedStmts(path, f), ArrayStmts(path, f));
  }

  lemma {:induction false} TableClear(path: seq<string>, entries: Entries)
    requires ClearPath(path)
    ensures ClearStmts(TableStmts(path, FoldedEntries(entries)))
    decreases entries, 4
  {
    BodyClear(path, entries);
    ClearAppend([Header(path, false)], BodyStmts(path, FoldedEntries(entries)));
  }

  lemma {:induction false} NestedClear(path: seq<string>, entries: Entries)
    requires ClearPath(path)
    ensures ClearStmts(NestedStmts(path, FoldedEntries(entries)))
    decreases entries, 2
  {
    if entries != [] {
      var e := Last(entries);
      FoldedLast(entries);
      NestedClear(path, Front(entries));
      if e.value.Table? {
        PathMore(path, e.key);
        TableClear(path + [Folded(e.key)], e.value.entries);
      }
      ClearAppend(NestedStmts(path, FoldedEntries(Front(entries))), NestedStmt(path, FoldedEntry(e)));
    }
  }

  lemma {:induction false} ArraysClear(path: seq<string>, entries: Entries)
    requires ClearPath(path)
    ensures ClearStmts(ArrayStmts(path, FoldedEntries(entries)))
    decreases entries, 2
  {
    if entries != [] {
      var e := Last(entries);
      FoldedLast(entries);
      ArraysClear(path, Front(entries));
      if e.value.Tables? {
        PathMore(path, e.key);
        ItemsClear(path + [Folded(e.key)], e.value.tables);
      }
      ClearAppend(ArrayStmts(path, FoldedEntries(Front(entries))), ArrayStmt(path, FoldedEntry(e)));
    }
  }

  lemma {:induction false} ItemsClear(path: seq<string>, items: seq<Data>)
    requires ClearPath(path)
    ensures ClearStmts(ItemStmts(path, FoldedTables(items)))
    decreases items
  {
    if items != [] {
      FoldedTablesLast(items);
      ItemsClear(path, Front(items));
      ItemClear(path, Last(items));
      ClearAppend(ItemStmts(path, FoldedTables(Front(items))), ItemStmt(path, FoldedData(Last(items))));
    }
  }

  lemma {:induction false} ItemClear(path: seq<string>, item: Data)
    requires ClearPath(path)
    ensures ClearStmts(ItemStmt(path, FoldedData(item)))
    decreases item
  {
    if item.Table? {
      BodyClear(path, item.entries);
      ClearAppend([Header(path, true)], BodyStmts(path, FoldedEntries(item.entries)));
    }
  }

  lemma {:induction false} SectionClear(e: Entry)
    ensures ClearStmts(SectionStmts(FoldedEntry(e)))
  {
    FoldedTwice(e.key);
    if e.value.Table? {
      assert FoldedEntry(e).value == Table(FoldedEntries(e.value.entries));
      TableClear([Folded(e.key)], e.value.entries);
    }
  }

  lemma {:induction false} ConfigClear(data: Entries)
    ensures ClearStmts(ConfigStmts(FoldedEntries(data)))
  {
    if data != [] {
      var e := Last(data);
      FoldedLast(data);
      ConfigClear(Front(data));
      SectionClear(e);
      ClearAppend(ConfigStmts(FoldedEntries(Front(data))), SectionStmts(FoldedEntry(e)));
    }
  }

  /** So what stands for an object shows that its keys hold none either. */
  lemma {:induction false} ClearIsPlain(n: Node, o: Object)
    requires ClearKeys(n) && Stands(n, o)
    ensures PlainKeys(o)
    decreases o
  {
    match o
    case Sequence(items) =>
      forall i | 0 <= i < |items| ensures PlainKeys(items[i]) {
        ClearIsPlain(PartsOf(n).value[i], items[i]);
      }
    case Mapping(entries) =>
      forall i | 0 <= i < |entries| ensures Without(entries[i].key, '\r') && PlainKeys(entries[i].value) {
        ClearIsPlain(n.m[entries[i].key], entries[i].value);
      }
    case _ =>
  }

  // ---------- what is kept is legible ----------

  lemma {:induction false} KeptIsLegible(repr: Repr, o: Object)
    requires Survives(o)
    ensures Legible(WrittenOf(repr, o)) && PlainKeys(o)
    decreases o, 1
  {
    match o
    case String(s) => CleanFolds(s);
    case Sequence(items) =>
      if IsStringList(o) {
        KeptStrings(repr, o);
      } else {
        KeptTables(repr, o);
      }
    case Mapping(entries) => KeptAreLegible(repr, entries);
    case _ =>
  }

  lemma {:induction false} KeptStrings(repr: Repr, o: Object)
    requires IsStringList(o) && Survives(o)
    ensures Legible(WrittenOf(repr, o)) && PlainKeys(o)
  {
    StringsAt(repr, o.items);
    assert o.items != [] ==> o.items[0].String?;
    var texts := FoldedTexts(StrsOf(repr, o.items));
    forall i | 0 <= i < |o.items| ensures Clean(texts[i]) {
      assert Survives(o.items[i]);
      CleanFolds(o.items[i].s);
    }
    assert WrittenOf(repr, o) == Texts(texts);
  }

  lemma {:induction false} KeptTables(repr: Repr, o: Object)
    requires IsTableList(o) && forall i :: 0 <= i < |o.items| ==> KeptItem(o.items[i])
    ensures Legible(WrittenOf(repr, o)) && PlainKeys(o)
    decreases o, 0
  {
    var lowered := LoweredItems(repr, o.items);
    LoweredItemsAt(repr, o.items);
    FoldedTablesAt(lowered);
    forall i | 0 <= i < |o.items| ensures LegibleItem(FoldedTables(lowered)[i]) && PlainKeys(o.items[i]) {
      KeptItemIsLegible(repr, o.items[i]);
    }
  }

  lemma {:induction false} KeptAreLegible(repr: Repr, entries: seq<Item>)
    requires KeptEntries(entries)
    ensures LegibleEntries(FoldedEntries(LoweredEntries(repr, entries))) && PlainEntries(entries)
    decreases entries
  {
    LoweredAt(repr, entries);
    FoldedAt(LoweredEntries(repr, entries));
    forall i | 0 <= i < |entries|
      ensures LegibleEntry(FoldedEntry(LoweredEntries(repr, entries)[i])) && PlainKeys(entries[i].value)
    {
      CleanFolds(entries[i].key);
      KeptIsLegible(repr, entries[i].value);
    }
  }

  lemma {:induction false} KeptItemIsLegible(repr: Repr, o: Object)
    requires KeptItem(o)
    ensures LegibleItem(FoldedData(LoweredItem(repr, o))) && PlainKeys(o)
    decreases o
  {
    var entries := o.entries;
    ItemEntriesAt(repr, entries);
    FoldedAt(ItemEntries(repr, entries));
    ItemHasNoArrays(repr, entries);
    StillNoArrays(ItemEntries(repr, entries));
    forall i | 0 <= i < |entries|
      ensures LegibleEntry(FoldedEntry(ItemEntries(repr, entries)[i])) && PlainKeys(entries[i].value)
    {
      CleanFolds(entries[i].key);
      SameInItem(repr, entries[i].value);
      KeptIsLegible(repr, entries[i].value);
    }
  }

  // ---------- the sections of a config ----------

  /** No scalar follows a dictionary at the top. */
  predicate ScalarsAhead(data: seq<Item>) {
    forall i, j :: 0 <= i < j < |data| && data[i].value.Mapping? ==> data[j].value.Mapping?
  }

  /** Exactly the configs that survive: kept values, no list at the top, no scalar behind a table. */
  predicate KeptConfig(data: seq<Item>) {
    KeptEntries(data) && (forall i :: 0 <= i < |data| ==> !data[i].value.Sequence?) && ScalarsAhead(data)
  }

  function WrittenConfig(repr: Repr, data: seq<Item>): (r: Entries)
    ensures |r| == |data|
  {
    FoldedEntries(LoweredConfig(repr, data))
  }

  lemma {:induction false} LoweredConfigAt(repr: Repr, data: seq<Item>)
    ensures forall i :: 0 <= i < |data| ==> LoweredConfig(repr, data)[i] == Entry(data[i].key, LoweredTop(repr, data[i].value))
  {
    if data != [] {
      LoweredConfigAt(repr, Front(data));
    }
  }

  lemma {:induction false} WrittenAt(repr: Repr, data: seq<Item>)
    ensures forall i :: 0 <= i < |data| ==> WrittenConfig(repr, data)[i] == FoldedEntry(Entry(data[i].key, LoweredTop(repr, data[i].value)))
    ensures Sections(WrittenConfig(repr, data))
    ensures ScalarsFirst(WrittenConfig(repr, data)) <==> ScalarsAhead(data)
  {
    LoweredConfigAt(repr, data);
    FoldedAt(LoweredConfig(repr, data));
    var written := WrittenConfig(repr, data);
    forall i | 0 <= i < |data|
      ensures written[i].value.Table? <==> data[i].value.Mapping?
      ensures written[i].value.Table? || IsScalar(written[i].value)
    {
      TopKind(repr, data[i].value);
    }
  }

  lemma {:induction false} TopKind(repr: Repr, o: Object)
    ensures var d := FoldedData(LoweredTop(repr, o)); (d.Table? <==> o.Mapping?) && (d.Table? || IsScalar(d))
  {
  }

  lemma {:induction false} SameAtTop(repr: Repr, o: Object)
    requires !o.Sequence?
    ensures LoweredTop(repr, o) == Lowered(repr, o)
  {
  }

  /** A value at the top stands exactly if it is kept and no list. */
  lemma {:induction false} TopExactly(repr: Repr, o: Object)
    requires Dicts(o) && PlainKeys(o) && Legible(FoldedData(LoweredTop(repr, o)))
    ensures Writable(FoldedData(LoweredTop(repr, o)))
    ensures Stands(NodeOf(FoldedData(LoweredTop(repr, o))), o) <==> Survives(o) && !o.Sequence?
  {
    if o.Sequence? {
      assert FoldedData(LoweredTop(repr, o)) == Text(Folded(repr(o)));
    } else {
      SameAtTop(repr, o);
      StandsExactly(repr, o);
    }
  }

  predicate KeptTop(o: Object) {
    Survives(o) && !o.Sequence?
  }

  lemma {:induction false} SectionExactly(repr: Repr, item: Item, e: Entry)
    requires e == FoldedEntry(Entry(item.key, LoweredTop(repr, item.value))) && Clean(e.key) && Legible(e.value)
    requires Dicts(item.value) && PlainKeys(item.value) && Without(item.key, '\r')
    ensures Clean(item.key) && Writable(e.value) && (Stands(NodeOf(e.value), item.value) <==> KeptTop(item.value))
  {
    PlainIsFolded(item.key);
    TopExactly(repr, item.value);
  }

  lemma {:induction false} SectionsExactly(repr: Repr, data: seq<Item>)
    requires DictEntries(data) && PlainEntries(data) && LegibleEntries(WrittenConfig(repr, data))
    ensures WritableEntries(WrittenConfig(repr, data))
    ensures Stands(Dict(MapOf(WrittenConfig(repr, data)), true), Mapping(data)) <==>
            KeptEntries(data) && forall i :: 0 <= i < |data| ==> !data[i].value.Sequence?
  {
    var written := WrittenConfig(repr, data);
    WrittenAt(repr, data);
    forall i | 0 <= i < |data|
      ensures written[i].key == Folded(data[i].key) && Clean(data[i].key) && Writable(written[i].value)
      ensures Stands(NodeOf(written[i].value), data[i].value) <==> KeptTop(data[i].value)
    {
      assert Clean(written[i].key) && Legible(written[i].value);
      SectionExactly(repr, data[i], written[i]);
    }
    MappingExactly(data, written, (i: nat) => i < |data| && KeptTop(data[i].value));
    KeptTopIs(data);
  }

  lemma {:induction false} KeptTopIs(data: seq<Item>)
    requires forall i :: 0 <= i < |data| ==> Clean(data[i].key)
    ensures (forall i :: 0 <= i < |data| ==> KeptTop(data[i].value)) <==>
            KeptEntries(data) && forall i :: 0 <= i < |data| ==> !data[i].value.Sequence?
  {
  }

  lemma {:induction false} KeptConfigIsLegible(repr: Repr, data: seq<Item>)
    requires KeptConfig(data)
    ensures LegibleEntries(WrittenConfig(repr, data)) && PlainEntries(data)
  {
    WrittenAt(repr, data);
    forall i | 0 <= i < |data| ensures LegibleEntry(WrittenConfig(repr, data)[i]) && PlainKeys(data[i].value) {
      CleanFolds(data[i].key);
      SameAtTop(repr, data[i].value);
      KeptIsLegible(repr, data[i].value);
    }
  }

  // ---------- the lines of a config ----------

  lemma {:induction false} LoweredIsShaped(repr: Repr, o: Object)
    ensures Shaped(Lowered(repr, o))
    decreases o
  {
    if o.Mapping? {
      LoweredAreShaped(repr, o.entries);
    } else if IsTableList(o) {
      LoweredItemsAt(repr, o.items);
      forall i | 0 <= i < |o.items| ensures ShapedItem(LoweredItems(repr, o.items)[i]) {
        ItemIsShaped(repr, o.items[i]);
      }
    }
  }

  lemma {:induction false} LoweredAreShaped(repr: Repr, data: seq<Item>)
    ensures ShapedEntries(LoweredEntries(repr, data))
    decreases data
  {
    LoweredAt(repr, data);
    forall i | 0 <= i < |data| ensures Shaped(LoweredEntries(repr, data)[i].value) {
      LoweredIsShaped(repr, data[i].value);
    }
  }

  lemma {:induction false} ItemIsShaped(repr: Repr, o: Object)
    requires o.Mapping?
    ensures ShapedItem(LoweredItem(repr, o))
    decreases o
  {
    ItemEntriesAt(repr, o.entries);
    ItemHasNoArrays(repr, o.entries);
    forall i | 0 <= i < |o.entries| ensures Shaped(ItemEntries(repr, o.entries)[i].value) {
      if o.entries[i].value.Mapping? {
        LoweredAreShaped(repr, o.entries[i].value.entries);
      }
    }
  }

  lemma {:induction false} SectionTableIsLegible(e: Entry)
    requires e.value.Table? && ShapedEntries(e.value.entries) && BadIn(TableLines([e.key], e.value.entries)) == 0
    ensures LegibleEntry(FoldedEntry(e))
  {
    TableIsLegible([e.key], e.value.entries);
    assert [] + [e.key] == [e.key];
    LastIsClean([], e.key);
  }

  lemma {:induction false} SectionIsLegible(repr: Repr, item: Item)
    requires var e := Entry(item.key, LoweredTop(repr, item.value)); BadIn(SectionLines(e)) == 0
    ensures LegibleEntry(FoldedEntry(Entry(item.key, LoweredTop(repr, item.value))))
  {
    var e := Entry(item.key, LoweredTop(repr, item.value));
    if item.value.Mapping? {
      LoweredAreShaped(repr, item.value.entries);
      SectionTableIsLegible(e);
    } else {
      AssignIsLegible(e);
    }
  }

  lemma {:induction false} ConfigIsLegible(repr: Repr, data: seq<Item>)
    requires BadIn(ConfigLines(LoweredConfig(repr, data))) == 0
    ensures LegibleEntries(WrittenConfig(repr, data))
  {
    if data != [] {
      var e := Entry(Last(data).key, LoweredTop(repr, Last(data).value));
      var front := LoweredConfig(repr, Front(data));
      var gap := if |data| > 1 then [""] else [];
      assert Front(LoweredConfig(repr, data)) == front && Last(LoweredConfig(repr, data)) == e;
      BadInAppend(ConfigLines(front) + gap, SectionLines(e));
      BadInAppend(ConfigLines(front), gap);
      ConfigIsLegible(repr, Front(data));
      SectionIsLegible(repr, Last(data));
      FoldedLast(LoweredConfig(repr, data));
      LegibleMore(WrittenConfig(repr, Front(data)), FoldedEntry(e));
    }
  }

  lemma {:induction false} SameSection(e: Entry)
    requires e.value.Table? || IsScalar(e.value)
    ensures FoldedEntry(e).value.Table? || IsScalar(FoldedEntry(e).value)
    ensures SectionLines(FoldedEntry(e)) == SectionLines(e)
  {
    if e.value.Table? {
      OneFolded(e.key);
      SameTable([e.key], e.value.entries);
    } else {
      SameAssign(e);
    }
  }

  lemma {:induction false} OneFolded(key: string)
    ensures FoldedPath([key]) == [Folded(key)]
  {
    assert Front([key]) == [];
  }

  lemma {:induction false} SameConfig(data: Entries)
    requires Sections(data)
    ensures Sections(FoldedEntries(data)) && ConfigLines(FoldedEntries(data)) == ConfigLines(data)
  {
    if data != [] {
      var front, e := Front(data), Last(data);
      assert data[|data| - 1] == e;
      SameConfig(front);
      SameSection(e);
      FoldedLast(data);
      LastAgain(data, front, e);
      LastAgain(FoldedEntries(data), FoldedEntries(front), FoldedEntry(e));
      OneMore(data, FoldedEntries(data), front, FoldedEntries(front), e, FoldedEntry(e));
    }
  }

  lemma {:induction false} LastAgain(data: Entries, front: Entries, e: Entry)
    requires data != [] && Front(data) == front && Last(data) == e
    ensures data == front + [e]
  {
  }

  lemma {:induction false} OneMore(data: Entries, more: Entries, front: Entries, less: Entries, e: Entry, f: Entry)
    requires data == front + [e] && more == less + [f] && |less| == |front| && Sections(front) && Sections(less)
    requires (e.value.Table? || IsScalar(e.value)) && (f.value.Table? || IsScalar(f.value)) && SectionLines(f) == SectionLines(e)
    requires ConfigLines(less) == ConfigLines(front)
    ensures Sections(data) && Sections(more) && ConfigLines(more) == ConfigLines(data)
  {
    MoreSections(front, e, data);
    MoreSections(less, f, more);
  }

  lemma {:induction false} MoreSections(front: Entries, e: Entry, data: Entries)
    requires data == front + [e] && Sections(front) && (e.value.Table? || IsScalar(e.value))
    ensures Sections(data) && ConfigLines(data) == ConfigLines(front) + (if |front| > 0 then [""] else []) + SectionLines(e)
  {
    assert Front(data) == front && Last(data) == e;
  }

  // ---------- the header ----------

  /** A header line: empty, or a comment without control characters and trailing blanks. */
  predicate IsNote(line: string) {
    line == "" || (line[0] == '#' && Flat(line) && Bad(line) == 0 && !IsSpace(Last(line)))
  }

  predicate Notes(header: seq<string>) {
    forall i :: 0 <= i < |header| ==> IsNote(header[i])
  }

  lemma {:induction false} CommentToBreak(s: string)
    requires Flat(s) && Bad(s) == 0
    ensures SkipComment(s + "\n") == Some("\n")
  {
    if s == "" {
      assert s + "\n" == "\n";
    } else {
      assert (s + "\n")[0] == s[0] && (s + "\n")[1..] == s[1..] + "\n";
      CommentToBreak(s[1..]);
    }
  }

  lemma {:induction false} NoteReads(line: string)
    requires IsNote(line)
    ensures Reads([line], [])
  {
    if line == "" {
      BlankReads();
    } else {
      var s := line + "\n";
      assert s[0] == '#' && s[1..] == line[1..] + "\n" && SkipWs(s) == s;
      CommentToBreak(line[1..]);
      FlatLine(line);
      OneLineReads(line, Blank);
    }
  }

  lemma {:induction false} NotesRead(header: seq<string>)
    requires Notes(header)
    ensures Reads(header, [])
  {
    if header == [] {
      ReadsNone();
    } else {
      NotesRead(Front(header));
      assert IsNote(header[|header| - 1]);
      NoteReads(Last(header));
      NoteBehind(Front(header), Last(header));
      assert Front(header) + [Last(header)] == header;
    }
  }

  lemma {:induction false} NoteBehind(lines: seq<string>, line: string)
    requires Reads(lines, []) && Reads([line], [])
    ensures Reads(lines + [line], [])
  {
    var none: seq<Stmt> := [];
    ReadsAppend(lines, none, [line], none);
    assert none + none == none;
  }

  /** Without the empty lines at the end. */
  function Trimmed(lines: seq<string>): (r: seq<string>)
    ensures r <= lines && (r != [] ==> Last(r) != "")
  {
    if lines == [] || Last(lines) != "" then lines else Trimmed(Front(lines))
  }

  lemma {:induction false} StripBreak(s: string)
    ensures RStrip(s + "\n") == RStrip(s)
  {
    assert (s + "\n")[..|s|] == s;
  }

  lemma {:induction false} JoinMoreLines(lines: seq<string>, line: string)
    requires lines != []
    ensures Join(lines + [line], "\n") == Join(lines, "\n") + "\n" + line
  {
    assert (lines + [line])[1..] == lines[1..] + [line];
    if |lines| > 1 {
      JoinMoreLines(lines[1..], line);
      Assoc(lines[0] + "\n", Join(lines[1..], "\n"), "\n" + line);
    } else {
      assert lines[1..] + [line] == [line];
    }
  }

  lemma {:induction false} TrimmedStrips(lines: seq<string>)
    ensures RStrip(Join(lines, "\n")) == RStrip(Join(Trimmed(lines), "\n"))
  {
    if lines != [] && Last(lines) == "" {
      TrimmedStrips(Front(lines));
      assert lines == Front(lines) + [""];
      if Front(lines) != [] {
        JoinMoreLines(Front(lines), "");
        assert Join(Front(lines), "\n") + "\n" + "" == Join(Front(lines), "\n") + "\n";
        StripBreak(Join(Front(lines), "\n"));
      }
    }
  }

  lemma {:induction false} NothingReads()
    ensures StatementsOf(SplitLines("" + "\n")) == Some([])
  {
    var lines: seq<string>, line: string := [""], "";
    BlankReads();
    assert Front(lines) == [] && Last(lines) == line;
    assert Terminated(lines) == "" + (line + "\n");
    assert "" + (line + "\n") == line + "\n";
    assert Reads(lines, []);
  }

  lemma {:induction false} NoteText(lines: seq<string>)
    requires Notes(lines)
    ensures StatementsOf(SplitLines(RStrip(Join(lines, "\n")) + "\n")) == Some([])
  {
    var kept := Trimmed(lines);
    TrimmedStrips(lines);
    if kept == [] {
      NothingReads();
      assert RStrip(Join(kept, "\n")) == "";
    } else {
      assert Last(kept) == lines[|kept| - 1] && IsNote(lines[|kept| - 1]);
      WrittenText(kept);
      NotesRead(kept);
    }
  }

  // ---------- the round trip ----------

  /** The text `dumps_public_config` returns. */
  function ConfigText(repr: Repr, data: seq<Item>, header: seq<string>): string {
    RStrip(Join(HeaderPart(header) + ConfigLines(LoweredConfig(repr, data)), "\n")) + "\n"
  }

  lemma {:induction false} SectionsText(lines: seq<string>, data: Entries)
    requires Sections(data) && data != []
    ensures RStrip(Join(lines + ConfigLines(data), "\n")) + "\n" == Terminated(lines + ConfigLines(data))
  {
    ConfigSolid(data);
    assert Last(lines + ConfigLines(data)) == Last(ConfigLines(data));
    WrittenText(lines + ConfigLines(data));
  }

  lemma {:induction false} HeaderNotes(header: seq<string>)
    requires Notes(header)
    ensures Notes(HeaderPart(header))
  {
  }

  /** The text is read as the statements of its sections if every string in it is clean once folded, and else not at all. */
  lemma {:induction false} ConfigReads(repr: Repr, data: seq<Item>, header: seq<string>)
    requires Notes(header)
    ensures Sections(WrittenConfig(repr, data))
    ensures StatementsOf(SplitLines(ConfigText(repr, data, header))) ==
            if LegibleEntries(WrittenConfig(repr, data)) then Some(ConfigStmts(WrittenConfig(repr, data))) else None
  {
    var front, lowered := HeaderPart(header), LoweredConfig(repr, data);
    var written := WrittenConfig(repr, data);
    HeaderNotes(header);
    SameConfig(lowered);
    if data == [] {
      assert front + [] == front;
      NoteText(front);
    } else {
      SectionsText(front, lowered);
      NotesRead(front);
      if LegibleEntries(written) {
        ConfigLinesRead(written);
        ReadsAppend(front, [], ConfigLines(written), ConfigStmts(written));
        assert [] + ConfigStmts(written) == ConfigStmts(written);
      } else if StatementsOf(SplitLines(ConfigText(repr, data, header))).Some? {
        ControlIsNotRead(ConfigText(repr, data, header));
        BadInAppend(front, ConfigLines(lowered));
        ConfigIsLegible(repr, data);
      }
    }
  }

  lemma {:induction false} ConfigParses(repr: Repr, data: seq<Item>, header: seq<string>)
    requires Notes(header)
    ensures var d := Build(START, ConfigStmts(WrittenConfig(repr, data)));
      Parse(ConfigText(repr, data, header)) ==
      if LegibleEntries(WrittenConfig(repr, data)) && d.Some? then Some(d.value.root) else None
  {
    ConfigReads(repr, data, header);
  }

  lemma {:induction false} KeptConfigReturns(repr: Repr, data: seq<Item>, header: seq<string>)
    requires Notes(header) && DictEntries(data) && KeptConfig(data)
    ensures Parse(ConfigText(repr, data, header)) == Some(Dict(MapOf(WrittenConfig(repr, data)), true))
    ensures Stands(Dict(MapOf(WrittenConfig(repr, data)), true), Mapping(data))
  {
    ConfigParses(repr, data, header);
    KeptConfigIsLegible(repr, data);
    SectionsExactly(repr, data);
    WrittenAt(repr, data);
    ConfigBuilds(WrittenConfig(repr, data));
  }

  lemma {:induction false} ReturnedIsPlain(repr: Repr, data: seq<Item>, d: Doc)
    requires Build(START, ConfigStmts(WrittenConfig(repr, data))) == Some(d) && Stands(d.root, Mapping(data))
    ensures PlainEntries(data)
  {
    ConfigClear(LoweredConfig(repr, data));
    assert ClearKeys(EMPTY);
    BuildClear(START, ConfigStmts(WrittenConfig(repr, data)));
    ClearIsPlain(d.root, Mapping(data));
  }

  lemma {:induction false} ReturnedIsKept(repr: Repr, data: seq<Item>, d: Doc)
    requires DictEntries(data) && LegibleEntries(WrittenConfig(repr, data))
    requires Build(START, ConfigStmts(WrittenConfig(repr, data))) == Some(d) && Stands(d.root, Mapping(data))
    ensures KeptConfig(data)
  {
    var written := WrittenConfig(repr, data);
    ReturnedIsPlain(repr, data, d);
    SectionsExactly(repr, data);
    WrittenAt(repr, data);
    if ScalarsFirst(written) {
      ConfigBuilds(written);
    } else {
      MisplacedIsLost(repr, data, d);
    }
  }

  lemma {:induction false} MisplacedIsLost(repr: Repr, data: seq<Item>, d: Doc)
    requires Distinct(WrittenConfig(repr, data)) && PlainEntries(data) && !ScalarsFirst(WrittenConfig(repr, data))
    requires Build(START, ConfigStmts(WrittenConfig(repr, data))) == Some(d)
    ensures !Stands(d.root, Mapping(data))
  {
    var written := WrittenConfig(repr, data);
    WrittenAt(repr, data);
    var i, j :| 0 <= i < j < |written| && written[i].value.Table? && !written[j].value.Table?;
    MisplacedScalar(written, i, j);
    PlainIsFolded(data[j].key);
    KeyMissing(d.root, data, j);
  }

  lemma {:induction false} KeyMissing(n: Node, data: seq<Item>, j: nat)
    requires j < |data| && n.Dict? && data[j].key !in n.m
    ensures !Stands(n, Mapping(data))
  {
  }

  /**
    The serializer's round trip with its exact condition, on every config: the text reads back as the config if and only if
    every value is kept, no list stands at the top and no scalar follows a table there.
   */
  lemma {:induction false} ConfigRoundTrip(repr: Repr, data: seq<Item>, header: seq<string>)
    requires Notes(header) && DictEntries(data)
    ensures var t := Parse(ConfigText(repr, data, header));
      (t.Some? && Stands(t.value, Mapping(data))) <==> KeptConfig(data)
  {
    ConfigParses(repr, data, header);
    if KeptConfig(data) {
      KeptConfigReturns(repr, data, header);
    } else {
      var d := Build(START, ConfigStmts(WrittenConfig(repr, data)));
      if LegibleEntries(WrittenConfig(repr, data)) && d.Some? && Stands(d.value.root, Mapping(data)) {
        ReturnedIsKept(repr, data, d.value);
      }
    }
  }

  /** A config that is lost: an array of tables inside an item of an array of tables. */
  function NestedArray(): seq<Item> {
    var inner := Sequence([Mapping([Item("c", Integer(1))])]);
    [Item("a", Mapping([Item("t", Sequence([Mapping([Item("b", inner)])]))]))]
  }

  lemma {:induction false} NestedArrayNotKept()
    ensures DictEntries(NestedArray()) && !KeptEntries(NestedArray())
  {
    var inner := Sequence([Mapping([Item("c", Integer(1))])]);
    var item := Mapping([Item("b", inner)]);
    var list := Sequence([item]);
    var table := Mapping([Item("t", list)]);
    assert !IsStringList(inner) && !IsStringList(list) by {
      assert inner.items[0].Mapping? && list.items[0].Mapping?;
    }
    assert item.entries[0].value == inner && list.items[0] == item && table.entries[0].value == list;
    assert NestedArray()[0].value == table;
  }

  lemma {:induction false} NestedArrayIsLost(repr: Repr)
    ensures DictEntries(NestedArray())
    ensures var t := Parse(ConfigText(repr, NestedArray(), [])); !(t.Some? && Stands(t.value, Mapping(NestedArray())))
  {
    NestedArrayNotKept();
    ConfigRoundTrip(repr, NestedArray(), []);
  }
}
