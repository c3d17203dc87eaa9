/**
  What every value of a config is read back as, the values that are lost on the way included, and how the lines of the
  written text are laid out.
 */
module TomlReading {
  import opened Text
  import opened Wrappers
  import opened TomlLexer
  import opened TomlSyntax
  import opened TomlWriter
  import opened TomlScalars
  import opened TomlRoundTrip
  import opened TomlTree
  import opened TomlConfig
  import opened TomlObjects
  import opened TomlFolded
  import opened TomlFaithful
  import opened TomlPublicConfig

  // ---------- what is read back ----------

  /** Where a value stands: at the top of the config, in a table, or in an item of an array of tables. */
  datatype Place = AtTop | InTable | InItem

  /** None is read as the empty string, a foreign object as its `str`, strings with their line breaks folded. */
  ghost predicate BecomesScalar(repr: Repr, n: Node, o: Object) {
    match o
    case Nothing => n == Leaf(Str(""))
    case String(s) => n == Leaf(Str(Folded(s)))
    case Integer(i) => n == Leaf(Int(i))
    case Real(t) => n == Leaf(Other(t))
    case Boolean(b) => n == Leaf(Bool(b))
    case _ => n == Leaf(Str(Folded(repr(o))))
  }

  /** A list of strings; anything else in it as its `str`. */
  ghost predicate BecomesStrings(repr: Repr, n: Node, items: seq<Object>) {
    && n.Leaf? && n.v.List? && |n.v.items| == |items|
    && forall i :: 0 <= i < |items| ==> n.v.items[i] == Str(Folded(if items[i].String? then items[i].s else repr(items[i])))
  }

  /**
    Dictionaries are read as tables and non-empty lists of dictionaries in a table as arrays of tables.  Any other list in a
    table is a list of strings, and so is a list of strings in an item; elsewhere a list is read as the string of itself.
   */
  ghost predicate Becomes(repr: Repr, n: Node, o: Object, place: Place)
    decreases o
  {
    match o
    case Mapping(entries) => BecomesTable(repr, n, entries, InTable)
    case Sequence(items) =>
      if place.InTable? && IsTableList(o) then
        && n.Items? && |n.items| == |items|
        && forall i :: 0 <= i < |items| ==> items[i].Mapping? && BecomesTable(repr, n.items[i], items[i].entries, InItem)
      else if place.InTable? || (place.InItem? && IsStringList(o)) then BecomesStrings(repr, n, items)
      else BecomesScalar(repr, n, o)
    case _ => BecomesScalar(repr, n, o)
  }

  /** A table has the keys of the dictionary, folded, and under each what its value becomes. */
  ghost predicate BecomesTable(repr: Repr, n: Node, entries: seq<Item>, place: Place)
    decreases entries
  {
    && n.Dict? && (forall k :: k in n.m ==> exists i :: 0 <= i < |entries| && Folded(entries[i].key) == k)
    && forall i :: 0 <= i < |entries| ==> Folded(entries[i].key) in n.m && Becomes(repr, n.m[Folded(entries[i].key)], entries[i].value, place)
  }

  /** What the writer makes of a value in its place. */
  function LoweredIn(repr: Repr, o: Object, place: Place): Data {
    match place
    case AtTop => LoweredTop(repr, o)
    case InTable => Lowered(repr, o)
    case InItem => LoweredInItem(repr, o)
  }

  /** Every value becomes what it should. */
  lemma {:induction false} ValueBecomes(repr: Repr, o: Object, place: Place)
    requires Writable(FoldedData(LoweredIn(repr, o, place)))
    ensures Becomes(repr, NodeOf(FoldedData(LoweredIn(repr, o, place))), o, place)
    decreases o, 3
  {
    match o
    case Mapping(entries) =>
      var written := FoldedEntries(LoweredEntries(repr, entries));
      assert FoldedData(LoweredIn(repr, o, place)) == Table(written);
      EntriesBecome(repr, entries, InTable, written);
    case Sequence(items) => ListBecomes(repr, o, place);
    case _ => ScalarBecomes(repr, o, place);
  }

  lemma {:induction false} ScalarBecomes(repr: Repr, o: Object, place: Place)
    requires !o.Mapping? && !o.Sequence?
    ensures BecomesScalar(repr, NodeOf(FoldedData(LoweredIn(repr, o, place))), o)
  {
    LoweredAnywhere(repr, o, place);
    ScalarIsRead(repr, o);
  }

  lemma {:induction false} LoweredAnywhere(repr: Repr, o: Object, place: Place)
    requires !o.Mapping? && !o.Sequence?
    ensures LoweredIn(repr, o, place) == ScalarOf(repr, o)
  {
  }

  lemma {:induction false} ScalarIsRead(repr: Repr, o: Object)
    requires !o.Mapping? && !o.Sequence?
    ensures BecomesScalar(repr, NodeOf(FoldedData(ScalarOf(repr, o))), o)
  {
    assert Folded("") == "";
    match o
    case Nothing =>
    case String(s) =>
    case Integer(n) =>
    case Real(t) =>
    case Boolean(b) =>
    case Foreign(name) =>
  }

  lemma {:induction false} ListBecomes(repr: Repr, o: Object, place: Place)
    requires o.Sequence? && Writable(FoldedData(LoweredIn(repr, o, place)))
    ensures Becomes(repr, NodeOf(FoldedData(LoweredIn(repr, o, place))), o, place)
    decreases o, 2
  {
    if place.InTable? && IsTableList(o) {
      TablesBecome(repr, o);
    } else if place.InTable? || (place.InItem? && IsStringList(o)) {
      var texts := FoldedTexts(StrsOf(repr, o.items));
      StringsAt(repr, o.items);
      assert FoldedData(LoweredIn(repr, o, place)) == Texts(texts);
      assert BecomesStrings(repr, Leaf(List(Strs(texts))), o.items);
    } else {
      assert FoldedData(LoweredIn(repr, o, place)) == Text(Folded(repr(o)));
    }
  }

  lemma {:induction false} TablesBecome(repr: Repr, o: Object)
    requires IsTableList(o) && Writable(WrittenOf(repr, o))
    ensures Becomes(repr, NodeOf(WrittenOf(repr, o)), o, InTable)
    decreases o, 1
  {
    var written := FoldedTables(LoweredItems(repr, o.items));
    WrittenList(repr, o, written);
    assert NodeOf(WrittenOf(repr, o)) == Items(NodesOf(written));
    forall i | 0 <= i < |o.items| ensures BecomesTable(repr, NodesOf(written)[i], o.items[i].entries, InItem) {
      ListedBecomes(repr, o, written, i);
    }
  }

  lemma {:induction false} ListedBecomes(repr: Repr, o: Object, written: seq<Data>, i: nat)
    requires IsTableList(o) && written == FoldedTables(LoweredItems(repr, o.items)) && i < |o.items| && WritableItem(written[i])
    ensures BecomesTable(repr, NodesOf(written)[i], o.items[i].entries, InItem)
    decreases o, 0
  {
    ItemAt(repr, o.items, written, i);
    ItemBecomes(repr, o.items[i]);
  }

  lemma {:induction false} ItemBecomes(repr: Repr, o: Object)
    requires o.Mapping? && WritableEntries(FoldedEntries(ItemEntries(repr, o.entries)))
    ensures BecomesTable(repr, NodeOf(FoldedData(LoweredItem(repr, o))), o.entries, InItem)
    decreases o
  {
    ItemIsWritten(repr, o.entries);
    EntriesBecome(repr, o.entries, InItem, FoldedEntries(ItemEntries(repr, o.entries)));
  }

  /** The entries of a dictionary in their place. */
  function EntriesIn(repr: Repr, entries: seq<Item>, place: Place): (r: Entries)
    ensures |r| == |entries|
  {
    match place
    case AtTop => LoweredConfig(repr, entries)
    case InTable => LoweredEntries(repr, entries)
    case InItem => ItemEntries(repr, entries)
  }

  lemma {:induction false} EntriesInAt(repr: Repr, entries: seq<Item>, place: Place, i: nat)
    requires i < |entries|
    ensures FoldedEntries(EntriesIn(repr, entries, place))[i] ==
            FoldedEntry(Entry(entries[i].key, LoweredIn(repr, entries[i].value, place)))
  {
    FoldedAt(EntriesIn(repr, entries, place));
    match place
    case AtTop => LoweredConfigAt(repr, entries);
    case InTable => LoweredAt(repr, entries);
    case InItem => ItemEntriesAt(repr, entries);
  }

  lemma {:induction false} EntriesBecome(repr: Repr, entries: seq<Item>, place: Place, written: Entries)
    requires written == FoldedEntries(EntriesIn(repr, entries, place)) && WritableEntries(written)
    ensures BecomesTable(repr, Dict(MapOf(written), true), entries, place)
    decreases entries
  {
    var m := MapOf(written);
    MapAt(written);
    forall k | k in m ensures exists i :: 0 <= i < |entries| && Folded(entries[i].key) == k {
      MapOfKeys(written, k);
      var i :| 0 <= i < |written| && written[i].key == k;
      EntriesInAt(repr, entries, place, i);
    }
    forall i | 0 <= i < |entries|
      ensures Folded(entries[i].key) in m && Becomes(repr, m[Folded(entries[i].key)], entries[i].value, place)
    {
      EntriesInAt(repr, entries, place, i);
      assert Writable(written[i].value);
      ValueBecomes(repr, entries[i].value, place);
    }
  }

  /** What a config's text is read as: everything in its place, if the text can be read and no scalar follows a table at the top. */
  lemma {:induction false} ConfigBecomes(repr: Repr, data: seq<Item>, header: seq<string>)
    requires Notes(header) && ScalarsAhead(data) && WritableEntries(WrittenConfig(repr, data))
    ensures var t := Parse(ConfigText(repr, data, header)); t.Some? && BecomesTable(repr, t.value, data, AtTop)
  {
    var written := WrittenConfig(repr, data);
    WritableIsLegible(Table(written));
    ConfigParses(repr, data, header);
    WrittenAt(repr, data);
    ConfigBuilds(written);
    EntriesBecome(repr, data, AtTop, written);
  }

  /**
    `dumps_public_config` itself: its text reads back as the config exactly if all of it is kept; and whether or not it is,
    every value is read as what it becomes, unless the text cannot be read or a scalar follows a table at the top.
   */
  method WriteConfig(repr: Repr, data: seq<Item>, header: seq<string>) returns (text: string)
    requires Notes(header) && DictEntries(data)
    ensures text == ConfigText(repr, data, header)
    ensures (Parse(text).Some? && Stands(Parse(text).value, Mapping(data))) <==> KeptConfig(data)
    ensures ScalarsAhead(data) && WritableEntries(WrittenConfig(repr, data)) ==>
      Parse(text).Some? && BecomesTable(repr, Parse(text).value, data, AtTop)
  {
    text := DumpsPublicConfig(repr, data, header);
    ConfigRoundTrip(repr, data, header);
    if ScalarsAhead(data) && WritableEntries(WrittenConfig(repr, data)) {
      ConfigBecomes(repr, data, header);
    }
  }

  // ---------- the layout of the lines ----------

  predicate IsHeaderLine(line: string) {
    line != "" && line[0] == '['
  }

  /** In front of every header but one on the first line stands a blank line. */
  predicate HeadersApart(lines: seq<string>) {
    forall i :: 0 < i < |lines| && IsHeaderLine(lines[i]) ==> lines[i - 1] == ""
  }

  predicate Body(lines: seq<string>) {
    HeadersApart(lines) && (lines == [] || !IsHeaderLine(lines[0]))
  }

  lemma {:induction false} BodyAppend(a: seq<string>, b: seq<string>)
    requires Body(b)
    ensures HeadersApart(a) ==> HeadersApart(a + b)
    ensures Body(a) ==> Body(a + b)
  {
  }

  lemma {:induction false} BehindBlank(lines: seq<string>)
    requires HeadersApart(lines)
    ensures Body([""] + lines)
  {
  }

  lemma {:induction false} AssignIsNoHeader(key: string, d: Data)
    requires IsScalar(d) || d.Texts?
    ensures !IsHeaderLine(AssignLine(key, d))
  {
    assert AssignLine(key, d)[0] == FormatKey(key)[0];
    assert IsBare(key) ==> IsBareKey(key[0]);
  }

  lemma {:induction false} ScalarsApart(entries: Entries)
    ensures Body(ScalarLines(entries))
  {
    if entries != [] {
      var e := Last(entries);
      ScalarsApart(Front(entries));
      if IsScalar(e.value) || e.value.Texts? {
        AssignIsNoHeader(e.key, e.value);
      }
      BodyAppend(ScalarLines(Front(entries)), ScalarLine(e));
    }
  }

  lemma {:induction false} BodyApart(path: seq<string>, entries: Entries)
    ensures Body(BodyLines(path, entries))
    decreases entries, 3
  {
    ScalarsApart(entries);
    NestedApart(path, entries);
    ArraysApart(path, entries);
    BodyAppend(ScalarLines(entries), NestedLines(path, entries));
    BodyAppend(ScalarLines(entries) + NestedLines(path, entries), ArrayLines(path, entries));
  }

  lemma {:induction false} NestedApart(path: seq<string>, entries: Entries)
    ensures Body(NestedLines(path, entries))
    decreases entries, 2
  {
    if entries != [] {
      var e := Last(entries);
      NestedApart(path, Front(entries));
      if e.value.Table? {
        TableApart(path + [e.key], e.value.entries);
        BehindBlank(TableLines(path + [e.key], e.value.entries));
      }
      BodyAppend(NestedLines(path, Front(entries)), NestedLine(path, e));
    }
  }

  lemma {:induction false} ArraysApart(path: seq<string>, entries: Entries)
    ensures Body(ArrayLines(path, entries))
    decreases entries, 2
  {
    if entries != [] {
      var e := Last(entries);
      ArraysApart(path, Front(entries));
      if e.value.Tables? {
        ItemsApart(path + [e.key], e.value.tables);
      }
      BodyAppend(ArrayLines(path, Front(entries)), ArrayLine(path, e));
    }
  }

  lemma {:induction false} ItemsApart(path: seq<string>, items: seq<Data>)
    ensures Body(ItemLines(path, items))
    decreases items
  {
    if items != [] {
      ItemsApart(path, Front(items));
      ItemApart(path, Last(items));
      BodyAppend(ItemLines(path, Front(items)), ItemLine(path, Last(items)));
    }
  }

  lemma {:induction false} ItemApart(path: seq<string>, item: Data)
    ensures Body(ItemLine(path, item))
    decreases item
  {
    if item.Table? {
      BodyApart(path, item.entries);
      BodyAppend(["", "[[" + FormatTableName(path) + "]]"], BodyLines(path, item.entries));
    }
  }

  lemma {:induction false} TableApart(path: seq<string>, entries: Entries)
    ensures HeadersApart(TableLines(path, entries))
    decreases entries, 4
  {
    BodyApart(path, entries);
    BodyAppend(["[" + FormatTableName(path) + "]"], BodyLines(path, entries));
  }

  lemma {:induction false} SectionApart(e: Entry)
    requires e.value.Table? || IsScalar(e.value)
    ensures HeadersApart(SectionLines(e))
  {
    if e.value.Table? {
      TableApart([e.key], e.value.entries);
    }
  }

  /** The sections stand one behind the other, with one blank line in between, and every header is set off by one. */
  lemma {:induction false} SectionsApart(data: Entries, i: nat)
    requires Sections(data)
    ensures HeadersApart(ConfigLines(data))
    ensures 0 < i < |data| ==> ConfigLines(data[..i]) + [""] + SectionLines(data[i]) <= ConfigLines(data)
  {
    if data != [] {
      var front, e := Front(data), Last(data);
      assert data[|data| - 1] == e;
      SectionsApart(front, i);
      SectionApart(e);
      BehindBlank(SectionLines(e));
      BodyAppend(ConfigLines(front), [""] + SectionLines(e));
      LinesMore(data);
      if 0 < i < |front| {
        assert data[..i] == front[..i] && data[i] == front[i];
      } else if 0 < i < |data| {
        assert data[..i] == front && data[i] == e;
      }
    }
  }

  lemma {:induction false} LinesMore(data: Entries)
    requires Sections(data) && data != []
    ensures |data| == 1 ==> ConfigLines(data) == SectionLines(data[0])
    ensures |data| > 1 ==> ConfigLines(data) == ConfigLines(Front(data)) + ([""] + SectionLines(Last(data)))
    ensures ConfigLines(Front(data)) <= ConfigLines(data)
  {
    if |data| == 1 {
      assert Front(data) == [] && Last(data) == data[0];
    } else {
      Assoc(ConfigLines(Front(data)), [""], SectionLines(Last(data)));
    }
  }

  /** The sections start behind the header and one blank line. */
  ghost predicate Behind(lines: seq<string>, header: seq<string>, sections: seq<string>, n: nat) {
    && |header| <= n <= |lines| && n <= |header| + 1 && header <= lines && lines[n..] == sections
    && (header != [] ==> lines[n - 1] == "") && (header == [] ==> n == 0)
  }

  lemma {:induction false} HeaderInFront(repr: Repr, data: seq<Item>, header: seq<string>)
    requires Notes(header)
    ensures var sections := ConfigLines(LoweredConfig(repr, data)); var lines := HeaderPart(header) + sections;
      HeadersApart(lines) && exists n :: Behind(lines, header, sections, n)
  {
    var front, sections := HeaderPart(header), ConfigLines(LoweredConfig(repr, data));
    SectionsApart(LoweredConfig(repr, data), 0);
    NotesAreNoHeaders(header);
    assert header == [] || (front != [] && Last(front) == "");
    PutBehind(header, front, sections);
  }

  lemma {:induction false} PutBehind(header: seq<string>, front: seq<string>, sections: seq<string>)
    requires (front == header || front == header + [""]) && (if header == [] then front == [] else Last(front) == "")
    requires (forall i :: 0 <= i < |header| ==> !IsHeaderLine(header[i])) && HeadersApart(sections)
    ensures HeadersApart(front + sections) && Behind(front + sections, header, sections, |front|)
  {
    assert header != [] ==> front[|front| - 1] == Last(front);
    assert (front + sections)[|front|..] == sections;
  }

  lemma {:induction false} NotesAreNoHeaders(header: seq<string>)
    requires Notes(header)
    ensures forall i :: 0 <= i < |header| ==> !IsHeaderLine(header[i])
  {
    forall i | 0 <= i < |header| ensures !IsHeaderLine(header[i]) {
      assert IsNote(header[i]);
    }
  }
}
