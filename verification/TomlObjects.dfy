/**
  The loops of config/toml_writer.py over arbitrary Python data, and what they make of the data: a value the format has no
  place for is written as its `str`.
 */
module TomlObjects {
  import opened Text
  import opened Wrappers
  import opened TomlLexer
  import opened TomlSyntax
  import opened TomlWriter

  /** Python data; a dictionary is the sequence of its items in insertion order, a float is given by its `str`. */
  datatype Object =
    | Nothing
    | String(s: string)
    | Integer(n: int)
    | Real(t: FloatText)
    | Boolean(b: bool)
    | Sequence(items: seq<Object>)
    | Mapping(entries: seq<Item>)
    | Foreign(name: string)

  datatype Item = Item(key: string, value: Object)

  /** `str` of anything but a string. */
  type Repr = Object -> string

  function StrOf(repr: Repr, o: Object): string {
    if o.String? then o.s else repr(o)
  }

  function StrsOf(repr: Repr, items: seq<Object>): seq<string> {
    if items == [] then [] else [StrOf(repr, items[0])] + StrsOf(repr, items[1..])
  }

  /** `_is_scalar`, `_is_string_list`, and the test for an array of tables */
  predicate IsPlain(o: Object) {
    o.Nothing? || o.String? || o.Integer? || o.Real? || o.Boolean?
  }

  predicate IsStringList(o: Object) {
    o.Sequence? && forall i :: 0 <= i < |o.items| ==> o.items[i].String?
  }

  predicate IsTableList(o: Object) {
    o.Sequence? && o.items != [] && forall i :: 0 <= i < |o.items| ==> o.items[i].Mapping?
  }

  // ---------- what becomes of the data ----------

  /** What `_format_scalar` makes of its argument. */
  function ScalarOf(repr: Repr, o: Object): (d: Data)
    ensures IsScalar(d)
  {
    match o
    case Nothing => Text("")
    case Integer(n) => Number(n)
    case Real(t) => Fraction(t)
    case Boolean(b) => Flag(b)
    case _ => Text(StrOf(repr, o))
  }

  /** A value of a table. */
  function Lowered(repr: Repr, o: Object): Data
    decreases o
  {
    if o.Mapping? then Table(LoweredEntries(repr, o.entries))
    else if IsTableList(o) then Tables(LoweredItems(repr, o.items))
    else if o.Sequence? then Texts(StrsOf(repr, o.items))
    else ScalarOf(repr, o)
  }

  function LoweredEntries(repr: Repr, data: seq<Item>): (r: Entries)
    ensures |r| == |data|
    decreases data
  {
    if data == [] then []
    else LoweredEntries(repr, Front(data)) + [Entry(Last(data).key, Lowered(repr, Last(data).value))]
  }

  /** A value of an item of an array of tables: there a list that does not hold strings only is written as one string. */
  function LoweredInItem(repr: Repr, o: Object): Data
    decreases o
  {
    if o.Mapping? then Table(LoweredEntries(repr, o.entries))
    else if IsStringList(o) then Texts(StrsOf(repr, o.items))
    else ScalarOf(repr, o)
  }

  function ItemEntries(repr: Repr, data: seq<Item>): (r: Entries)
    ensures |r| == |data|
    decreases data
  {
    if data == [] then []
    else ItemEntries(repr, Front(data)) + [Entry(Last(data).key, LoweredInItem(repr, Last(data).value))]
  }

  function LoweredItem(repr: Repr, o: Object): Data
    requires o.Mapping?
    decreases o
  {
    Table(ItemEntries(repr, o.entries))
  }

  function LoweredItems(repr: Repr, items: seq<Object>): (r: seq<Data>)
    requires forall i :: 0 <= i < |items| ==> items[i].Mapping?
    ensures |r| == |items|
    decreases items
  {
    if items == [] then [] else LoweredItems(repr, Front(items)) + [LoweredItem(repr, Last(items))]
  }

  /** A value at the top of the config: only a dictionary is a table there. */
  function LoweredTop(repr: Repr, o: Object): (d: Data)
    ensures d.Table? || IsScalar(d)
  {
    if o.Mapping? then Table(LoweredEntries(repr, o.entries)) else ScalarOf(repr, o)
  }

  function LoweredConfig(repr: Repr, data: seq<Item>): (r: Entries)
    ensures |r| == |data| && Sections(r)
  {
    if data == [] then []
    else LoweredConfig(repr, Front(data)) + [Entry(Last(data).key, LoweredTop(repr, Last(data).value))]
  }

  lemma {:induction false} LoweredMore(repr: Repr, data: seq<Item>, i: nat)
    requires i < |data|
    ensures LoweredEntries(repr, data[..i + 1]) == LoweredEntries(repr, data[..i]) + [Entry(data[i].key, Lowered(repr, data[i].value))]
  {
    Prefix(data, i);
  }

  // ---------- the values of a table by kind ----------

  /** The three lists of `_write_table`; the scalars are taken in the form in which they are written. */
  function ScalarsOf(repr: Repr, data: seq<Item>): Entries {
    if data == [] then []
    else
      var item := Last(data);
      ScalarsOf(repr, Front(data)) +
      (if item.value.Mapping? || IsTableList(item.value) then [] else [Entry(item.key, Lowered(repr, item.value))])
  }

  function MappingsOf(data: seq<Item>): seq<Item> {
    if data == [] then [] else MappingsOf(Front(data)) + (if Last(data).value.Mapping? then [Last(data)] else [])
  }

  function TableListsOf(data: seq<Item>): seq<Item> {
    if data == [] then [] else TableListsOf(Front(data)) + (if IsTableList(Last(data).value) then [Last(data)] else [])
  }

  /** The scalars of an item of an array of tables. */
  function ItemScalarsOf(repr: Repr, data: seq<Item>): Entries {
    if data == [] then []
    else
      var item := Last(data);
      ItemScalarsOf(repr, Front(data)) + (if item.value.Mapping? then [] else [Entry(item.key, LoweredInItem(repr, item.value))])
  }

  lemma {:induction false} LoweredAppend(repr: Repr, data: seq<Item>, item: Item)
    ensures LoweredEntries(repr, data + [item]) == LoweredEntries(repr, data) + [Entry(item.key, Lowered(repr, item.value))]
  {
    assert Front(data + [item]) == data && Last(data + [item]) == item;
  }

  lemma {:induction false} MappingsAreMembers(data: seq<Item>)
    ensures forall item :: item in MappingsOf(data) ==> item in data && item.value.Mapping?
    ensures forall item :: item in TableListsOf(data) ==> item in data && IsTableList(item.value)
  {
    if data != [] {
      MappingsAreMembers(Front(data));
      assert forall item :: item in Front(data) ==> item in data;
      assert Last(data) in data;
    }
  }

  lemma {:induction false} KindOfLowered(repr: Repr, o: Object, d: Data)
    requires d == Lowered(repr, o)
    ensures KindOf(d) == if o.Mapping? then NestedKind else if IsTableList(o) then ArrayKind else ScalarKind
  {
  }

  lemma {:induction false} LoweredLast(repr: Repr, data: seq<Item>) returns (d: Data)
    requires data != []
    ensures d == Lowered(repr, Last(data).value)
    ensures LoweredEntries(repr, data) == LoweredEntries(repr, Front(data)) + [Entry(Last(data).key, d)]
    ensures KindOf(d) == if Last(data).value.Mapping? then NestedKind else if IsTableList(Last(data).value) then ArrayKind else ScalarKind
  {
    d := Lowered(repr, Last(data).value);
    KindOfLowered(repr, Last(data).value, d);
  }

  lemma {:induction false} OfMore(entries: Entries, e: Entry, kind: Kind)
    ensures Of(entries + [e], kind) == Of(entries, kind) + (if KindOf(e.value) == kind then [e] else [])
  {
    assert Front(entries + [e]) == entries && Last(entries + [e]) == e;
  }

  lemma {:induction false} ScalarsLowered(repr: Repr, data: seq<Item>)
    ensures ScalarsOf(repr, data) == Of(LoweredEntries(repr, data), ScalarKind)
  {
    if data != [] {
      ScalarsLowered(repr, Front(data));
      var d := LoweredLast(repr, data);
      OfMore(LoweredEntries(repr, Front(data)), Entry(Last(data).key, d), ScalarKind);
    }
  }

  lemma {:induction false} MappingsLowered(repr: Repr, data: seq<Item>)
    ensures LoweredEntries(repr, MappingsOf(data)) == Of(LoweredEntries(repr, data), NestedKind)
  {
    if data != [] {
      MappingsLowered(repr, Front(data));
      if Last(data).value.Mapping? {
        LoweredAppend(repr, MappingsOf(Front(data)), Last(data));
      } else {
        assert MappingsOf(data) == MappingsOf(Front(data));
      }
      var d := LoweredLast(repr, data);
      OfMore(LoweredEntries(repr, Front(data)), Entry(Last(data).key, d), NestedKind);
    }
  }

  lemma {:induction false} TableListsLowered(repr: Repr, data: seq<Item>)
    ensures LoweredEntries(repr, TableListsOf(data)) == Of(LoweredEntries(repr, data), ArrayKind)
  {
    if data != [] {
      TableListsLowered(repr, Front(data));
      if IsTableList(Last(data).value) {
        LoweredAppend(repr, TableListsOf(Front(data)), Last(data));
      } else {
        assert TableListsOf(data) == TableListsOf(Front(data));
      }
      var d := LoweredLast(repr, data);
      OfMore(LoweredEntries(repr, Front(data)), Entry(Last(data).key, d), ArrayKind);
    }
  }

  lemma {:induction false} ItemLast(repr: Repr, data: seq<Item>) returns (d: Data)
    requires data != []
    ensures d == LoweredInItem(repr, Last(data).value)
    ensures ItemEntries(repr, data) == ItemEntries(repr, Front(data)) + [Entry(Last(data).key, d)]
    ensures KindOf(d) == if Last(data).value.Mapping? then NestedKind else ScalarKind
    ensures Last(data).value.Mapping? ==> d == Lowered(repr, Last(data).value)
  {
    d := LoweredInItem(repr, Last(data).value);
  }

  lemma {:induction false} ItemScalarsLowered(repr: Repr, data: seq<Item>)
    ensures ItemScalarsOf(repr, data) == Of(ItemEntries(repr, data), ScalarKind)
  {
    if data != [] {
      ItemScalarsLowered(repr, Front(data));
      var d := ItemLast(repr, data);
      OfMore(ItemEntries(repr, Front(data)), Entry(Last(data).key, d), ScalarKind);
    }
  }

  lemma {:induction false} ItemNestedLowered(repr: Repr, data: seq<Item>)
    ensures LoweredEntries(repr, MappingsOf(data)) == Of(ItemEntries(repr, data), NestedKind)
  {
    if data != [] {
      ItemNestedLowered(repr, Front(data));
      if Last(data).value.Mapping? {
        LoweredAppend(repr, MappingsOf(Front(data)), Last(data));
      } else {
        assert MappingsOf(data) == MappingsOf(Front(data));
      }
      var d := ItemLast(repr, data);
      OfMore(ItemEntries(repr, Front(data)), Entry(Last(data).key, d), NestedKind);
    }
  }

  // ---------- the source's loops ----------

  class Lines {
    var items: seq<string>

    constructor ()
      ensures items == []
    {
      items := [];
    }

    method Append(line: string)
      modifies this
      ensures items == old(items) + [line]
    {
      items := items + [line];
    }
  }

  method Partition(repr: Repr, data: seq<Item>) returns (scalarItems: Entries, nestedTables: seq<Item>, arrayTables: seq<Item>)
    ensures scalarItems == ScalarsOf(repr, data) && nestedTables == MappingsOf(data) && arrayTables == TableListsOf(data)
  {
    scalarItems, nestedTables, arrayTables := [], [], [];
    for i := 0 to |data|
      invariant scalarItems == ScalarsOf(repr, data[..i])
      invariant nestedTables == MappingsOf(data[..i])
      invariant arrayTables == TableListsOf(data[..i])
    {
      Prefix(data, i);
      var key, value := data[i].key, data[i].value;
      if IsPlain(value) {
        scalarItems := scalarItems + [Entry(key, ScalarOf(repr, value))];
      } else if IsStringList(value) {
        StringListLowered(repr, value);
        scalarItems := scalarItems + [Entry(key, Texts(StrsOf(repr, value.items)))];
      } else if value.Mapping? {
        nestedTables := nestedTables + [data[i]];
      } else if IsTableList(value) {
        arrayTables := arrayTables + [data[i]];
      } else if value.Sequence? {
        scalarItems := scalarItems + [Entry(key, Texts(StrsOf(repr, value.items)))];
      } else {
        scalarItems := scalarItems + [Entry(key, Text(repr(value)))];
      }
    }
    assert data[..|data|] == data;
  }

  lemma {:induction false} StringListLowered(repr: Repr, o: Object)
    requires IsStringList(o)
    ensures !IsTableList(o) && Lowered(repr, o) == Texts(StrsOf(repr, o.items))
  {
    assert o.items != [] ==> o.items[0].String?;
  }

  method PartitionItem(repr: Repr, data: seq<Item>) returns (itemScalars: Entries, itemNested: seq<Item>)
    ensures itemScalars == ItemScalarsOf(repr, data) && itemNested == MappingsOf(data)
  {
    itemScalars, itemNested := [], [];
    for i := 0 to |data|
      invariant itemScalars == ItemScalarsOf(repr, data[..i])
      invariant itemNested == MappingsOf(data[..i])
    {
      Prefix(data, i);
      var key, value := data[i].key, data[i].value;
      if IsPlain(value) {
        itemScalars := itemScalars + [Entry(key, ScalarOf(repr, value))];
      } else if IsStringList(value) {
        itemScalars := itemScalars + [Entry(key, Texts(StrsOf(repr, value.items)))];
      } else if value.Mapping? {
        itemNested := itemNested + [data[i]];
      } else {
        itemScalars := itemScalars + [Entry(key, Text(repr(value)))];
      }
    }
    assert data[..|data|] == data;
  }

  method WriteScalars(lines: Lines, scalarItems: Entries)
    requires forall e :: e in scalarItems ==> KindOf(e.value).ScalarKind?
    modifies lines
    ensures lines.items == old(lines.items) + ScalarLines(scalarItems)
  {
    for i := 0 to |scalarItems|
      invariant lines.items == old(lines.items) + ScalarLines(scalarItems[..i])
    {
      Prefix(scalarItems, i);
      assert scalarItems[i] in scalarItems;
      lines.Append(FormatKey(scalarItems[i].key) + " = " + FormatValue(scalarItems[i].value));
    }
    assert scalarItems[..|scalarItems|] == scalarItems;
  }

  method WriteNested(repr: Repr, lines: Lines, path: seq<string>, nestedTables: seq<Item>, ghost bound: seq<Item>)
    requires forall item :: item in nestedTables ==> item in bound && item.value.Mapping?
    modifies lines
    ensures lines.items == old(lines.items) + NestedLines(path, LoweredEntries(repr, nestedTables))
    decreases bound, 0
  {
    for i := 0 to |nestedTables|
      invariant lines.items == old(lines.items) + NestedLines(path, LoweredEntries(repr, nestedTables[..i]))
    {
      assert nestedTables[i] in nestedTables;
      NestedMore(repr, path, nestedTables, i, old(lines.items));
      WriteOneNested(repr, lines, path, nestedTables[i]);
    }
    assert nestedTables[..|nestedTables|] == nestedTables;
  }

  lemma {:induction false} NestedMore(repr: Repr, path: seq<string>, items: seq<Item>, i: nat, o: seq<string>)
    requires i < |items|
    ensures o + NestedLines(path, LoweredEntries(repr, items[..i + 1])) ==
            o + NestedLines(path, LoweredEntries(repr, items[..i])) + NestedLine(path, Entry(items[i].key, Lowered(repr, items[i].value)))
  {
    var entries, e := LoweredEntries(repr, items[..i]), Entry(items[i].key, Lowered(repr, items[i].value));
    LoweredMore(repr, items, i);
    assert Front(entries + [e]) == entries && Last(entries + [e]) == e;
    Assoc(o, NestedLines(path, entries), NestedLine(path, e));
  }

  method WriteOneNested(repr: Repr, lines: Lines, path: seq<string>, item: Item)
    requires item.value.Mapping?
    modifies lines
    ensures lines.items == old(lines.items) + NestedLine(path, Entry(item.key, Lowered(repr, item.value)))
    decreases item, 0
  {
    lines.Append("");
    WriteTable(repr, lines, path + [item.key], item.value.entries);
    Assoc(old(lines.items), [""], TableLines(path + [item.key], LoweredEntries(repr, item.value.entries)));
  }

  /** `_write_table` */
  method WriteTable(repr: Repr, lines: Lines, tablePath: seq<string>, data: seq<Item>)
    modifies lines
    ensures lines.items == old(lines.items) + TableLines(tablePath, LoweredEntries(repr, data))
    decreases data, 1
  {
    ghost var entries := LoweredEntries(repr, data);
    lines.Append("[" + FormatTableName(tablePath) + "]");
    var scalarItems, nestedTables, arrayTables := Partition(repr, data);
    MappingsAreMembers(data);
    ScalarsLowered(repr, data);
    MappingsLowered(repr, data);
    TableListsLowered(repr, data);
    ScalarLinesOf(entries);
    NestedLinesOf(tablePath, entries);
    ArrayLinesOf(tablePath, entries);
    WriteScalars(lines, scalarItems);
    WriteNested(repr, lines, tablePath, nestedTables, data);
    WriteArrays(repr, lines, tablePath, arrayTables, data);
    Glue(old(lines.items), ["[" + FormatTableName(tablePath) + "]"], ScalarLines(entries), NestedLines(tablePath, entries),
         ArrayLines(tablePath, entries));
  }

  lemma {:induction false} Glue<T>(o: seq<T>, h: seq<T>, a: seq<T>, b: seq<T>, c: seq<T>)
    ensures o + h + a + b + c == o + (h + (a + b + c))
  {
  }

  method WriteArrays(repr: Repr, lines: Lines, path: seq<string>, arrayTables: seq<Item>, ghost bound: seq<Item>)
    requires forall item :: item in arrayTables ==> item in bound && IsTableList(item.value)
    modifies lines
    ensures lines.items == old(lines.items) + ArrayLines(path, LoweredEntries(repr, arrayTables))
    decreases bound, 0
  {
    for i := 0 to |arrayTables|
      invariant lines.items == old(lines.items) + ArrayLines(path, LoweredEntries(repr, arrayTables[..i]))
    {
      var item := arrayTables[i];
      assert item in arrayTables;
      ArrayMore(repr, path, arrayTables, i, old(lines.items));
      WriteItems(repr, lines, path + [item.key], item.value.items);
    }
    assert arrayTables[..|arrayTables|] == arrayTables;
  }

  lemma {:induction false} ArrayMore(repr: Repr, path: seq<string>, items: seq<Item>, i: nat, o: seq<string>)
    requires i < |items| && IsTableList(items[i].value)
    ensures o + ArrayLines(path, LoweredEntries(repr, items[..i + 1])) ==
            o + ArrayLines(path, LoweredEntries(repr, items[..i])) +
            ItemLines(path + [items[i].key], LoweredItems(repr, items[i].value.items))
  {
    var entries, e := LoweredEntries(repr, items[..i]), Entry(items[i].key, Lowered(repr, items[i].value));
    LoweredMore(repr, items, i);
    assert Front(entries + [e]) == entries && Last(entries + [e]) == e;
    Assoc(o, ArrayLines(path, entries), ArrayLine(path, e));
  }

  method WriteItems(repr: Repr, lines: Lines, path: seq<string>, items: seq<Object>)
    requires forall i :: 0 <= i < |items| ==> items[i].Mapping?
    modifies lines
    ensures lines.items == old(lines.items) + ItemLines(path, LoweredItems(repr, items))
    decreases items, 0
  {
    for i := 0 to |items|
      invariant lines.items == old(lines.items) + ItemLines(path, LoweredItems(repr, items[..i]))
    {
      Prefix(items, i);
      ghost var done := LoweredItems(repr, items[..i]);
      WriteItem(repr, lines, path, items[i]);
      ItemsMore(path, done, LoweredItem(repr, items[i]));
      Assoc(old(lines.items), ItemLines(path, done), ItemLine(path, LoweredItem(repr, items[i])));
    }
    assert items[..|items|] == items;
  }

  lemma {:induction false} ItemsMore(path: seq<string>, items: seq<Data>, item: Data)
    ensures ItemLines(path, items + [item]) == ItemLines(path, items) + ItemLine(path, item)
  {
    assert Front(items + [item]) == items && Last(items + [item]) == item;
  }

  method WriteItem(repr: Repr, lines: Lines, path: seq<string>, item: Object)
    requires item.Mapping?
    modifies lines
    ensures lines.items == old(lines.items) + ItemLine(path, LoweredItem(repr, item))
    decreases item, 0
  {
    ghost var entries := ItemEntries(repr, item.entries);
    lines.Append("");
    lines.Append("[[" + FormatTableName(path) + "]]");
    var itemScalars, itemNested := PartitionItem(repr, item.entries);
    MappingsAreMembers(item.entries);
    ItemScalarsLowered(repr, item.entries);
    ItemNestedLowered(repr, item.entries);
    ScalarLinesOf(entries);
    NestedLinesOf(path, entries);
    ItemHasNoArrays(repr, item.entries);
    NoArrays(path, entries);
    WriteScalars(lines, itemScalars);
    WriteNested(repr, lines, path, itemNested, item.entries);
    ghost var header := ["", "[[" + FormatTableName(path) + "]]"];
    TwoLines(old(lines.items), header[0], header[1]);
    Glue(old(lines.items), header, ScalarLines(entries), NestedLines(path, entries), []);
  }

  lemma {:induction false} TwoLines(o: seq<string>, a: string, b: string)
    ensures o + [a] + [b] == o + [a, b]
  {
  }

  lemma {:induction false} ItemHasNoArrays(repr: Repr, data: seq<Item>)
    ensures forall i :: 0 <= i < |data| ==> !ItemEntries(repr, data)[i].value.Tables?
  {
    if data != [] {
      ItemHasNoArrays(repr, Front(data));
    }
  }

  // ---------- whole texts ----------

  method DumpsTomlTable(repr: Repr, tablePath: seq<string>, data: seq<Item>) returns (r: Result<string, string>)
    ensures r.Err? <==> tablePath == []
    ensures r.Ok? ==> r.value == RStrip(Join(TableLines(tablePath, LoweredEntries(repr, data)), "\n")) + "\n"
  {
    if tablePath == [] {
      return Err("table_path is required");
    }
    var lines := new Lines();
    WriteTable(repr, lines, tablePath, data);
    assert lines.items == TableLines(tablePath, LoweredEntries(repr, data));
    return Ok(RStrip(Join(lines.items, "\n")) + "\n");
  }

  /** The header lines and the blank line behind them. */
  function HeaderPart(header: seq<string>): seq<string> {
    if header == [] || Last(header) == "" then header else header + [""]
  }

  method DumpsPublicConfig(repr: Repr, data: seq<Item>, header: seq<string>) returns (text: string)
    ensures text == RStrip(Join(HeaderPart(header) + ConfigLines(LoweredConfig(repr, data)), "\n")) + "\n"
  {
    var lines := new Lines();
    if header != [] {
      lines.items := lines.items + header;
      if lines.items != [] && Last(lines.items) != "" {
        lines.Append("");
      }
    }
    assert lines.items == HeaderPart(header);
    for index := 0 to |data|
      invariant lines.items == HeaderPart(header) + ConfigLines(LoweredConfig(repr, data[..index]))
    {
      if index > 0 {
        lines.Append("");
      }
      var section := data[index];
      ghost var before := lines.items;
      ghost var e := Entry(section.key, LoweredTop(repr, section.value));
      if section.value.Mapping? {
        WriteTable(repr, lines, [section.key], section.value.entries);
      } else {
        lines.Append(FormatKey(section.key) + " = " + FormatScalar(ScalarOf(repr, section.value)));
      }
      assert lines.items == before + SectionLines(e);
      OneMoreSection(repr, data, index, HeaderPart(header));
    }
    assert data[..|data|] == data;
    text := RStrip(Join(lines.items, "\n")) + "\n";
  }

  lemma {:induction false} OneMoreSection(repr: Repr, data: seq<Item>, i: nat, h: seq<string>)
    requires i < |data|
    ensures var e := Entry(data[i].key, LoweredTop(repr, data[i].value));
      h + ConfigLines(LoweredConfig(repr, data[..i + 1])) ==
      h + ConfigLines(LoweredConfig(repr, data[..i])) + (if i > 0 then [""] else []) + SectionLines(e)
  {
    Prefix(data, i);
    var e := Entry(data[i].key, LoweredTop(repr, data[i].value));
    var done := LoweredConfig(repr, data[..i]);
    var more := LoweredConfig(repr, data[..i + 1]);
    assert more == done + [e] && Front(more) == done && Last(more) == e;
    var gap := if i > 0 then [""] else [];
    assert h + (ConfigLines(done) + gap + SectionLines(e)) == h + ConfigLines(done) + gap + SectionLines(e);
  }
}
