/**
  The serializer's round trip on arbitrary Python data, with its exact condition: which values the parsed tree stands for
  again, and which are lost on the way.
 */
module TomlFaithful {
  import opened Wrappers
  import opened TomlLexer
  import opened TomlSyntax
  import opened TomlWriter
  import opened TomlScalars
  import opened TomlRoundTrip
  import opened TomlObjects
  import opened TomlFolded
  import opened TomlConfig

  // ---------- what a tree stands for ----------

  function Leaves(vs: seq<Value>): (r: seq<Node>)
    ensures |r| == |vs| && forall i :: 0 <= i < |vs| ==> r[i] == Leaf(vs[i])
  {
    if vs == [] then [] else [Leaf(vs[0])] + Leaves(vs[1..])
  }

  /** The items of an array or of an array of tables. */
  function PartsOf(n: Node): Option<seq<Node>> {
    match n
    case Items(items) => Some(items)
    case Leaf(List(vs)) => Some(Leaves(vs))
    case _ => None
  }

  predicate HasKey(entries: seq<Item>, k: string) {
    exists i :: 0 <= i < |entries| && entries[i].key == k
  }

  /** The tree is this object: equal scalars, lists and dictionaries; nothing stands for None or for a foreign object. */
  predicate Stands(n: Node, o: Object)
    decreases o
  {
    match o
    case String(s) => n == Leaf(Str(s))
    case Integer(i) => n == Leaf(Int(i))
    case Real(t) => n == Leaf(Other(t))
    case Boolean(b) => n == Leaf(Bool(b))
    case Sequence(items) =>
      var parts := PartsOf(n);
      parts.Some? && |parts.value| == |items| && forall i :: 0 <= i < |items| ==> Stands(parts.value[i], items[i])
    case Mapping(entries) =>
      && n.Dict? && (forall k :: k in n.m ==> HasKey(entries, k))
      && forall i :: 0 <= i < |entries| ==> entries[i].key in n.m && Stands(n.m[entries[i].key], entries[i].value)
    case _ => false
  }

  /** Dictionaries have every key once. */
  predicate Dicts(o: Object)
    decreases o
  {
    match o
    case Sequence(items) => forall i :: 0 <= i < |items| ==> Dicts(items[i])
    case Mapping(entries) => DictEntries(entries)
    case _ => true
  }

  predicate DictEntries(entries: seq<Item>)
    decreases entries
  {
    && (forall i, j :: 0 <= i < j < |entries| ==> entries[i].key != entries[j].key)
    && forall i :: 0 <= i < |entries| ==> Dicts(entries[i].value)
  }

  // ---------- what survives ----------

  /**
    A value of a table survives: clean strings, numbers, lists of clean strings, tables of such values, and arrays of
    tables in which every list holds strings only.
   */
  predicate Survives(o: Object)
    decreases o
  {
    match o
    case String(s) => Clean(s)
    case Integer(_) => true
    case Real(_) => true
    case Boolean(_) => true
    case Sequence(items) =>
      if IsStringList(o) then forall i :: 0 <= i < |items| ==> Survives(items[i])
      else IsTableList(o) && forall i :: 0 <= i < |items| ==> KeptItem(items[i])
    case Mapping(entries) => KeptEntries(entries)
    case _ => false
  }

  predicate KeptEntries(entries: seq<Item>)
    decreases entries
  {
    forall i :: 0 <= i < |entries| ==> Clean(entries[i].key) && Survives(entries[i].value)
  }

  predicate KeptItem(o: Object)
    decreases o
  {
    o.Mapping? && forall i :: 0 <= i < |o.entries| ==>
      Clean(o.entries[i].key) && Survives(o.entries[i].value) && (o.entries[i].value.Sequence? ==> IsStringList(o.entries[i].value))
  }

  // ---------- index by index ----------

  lemma {:induction false} LoweredAt(repr: Repr, data: seq<Item>)
    ensures forall i :: 0 <= i < |data| ==> LoweredEntries(repr, data)[i] == Entry(data[i].key, Lowered(repr, data[i].value))
  {
    if data != [] {
      LoweredAt(repr, Front(data));
    }
  }

  lemma {:induction false} ItemEntriesAt(repr: Repr, data: seq<Item>)
    ensures forall i :: 0 <= i < |data| ==> ItemEntries(repr, data)[i] == Entry(data[i].key, LoweredInItem(repr, data[i].value))
  {
    if data != [] {
      ItemEntriesAt(repr, Front(data));
    }
  }

  lemma {:induction false} FoldedAt(entries: Entries)
    ensures forall i :: 0 <= i < |entries| ==> FoldedEntries(entries)[i] == FoldedEntry(entries[i])
  {
    if entries != [] {
      FoldedAt(Front(entries));
      FoldedLast(entries);
    }
  }

  lemma {:induction false} NodesAt(items: seq<Data>)
    ensures forall i :: 0 <= i < |items| ==> NodesOf(items)[i] == NodeOf(items[i])
  {
    if items != [] {
      NodesAt(Front(items));
    }
  }

  lemma {:induction false} FoldedTablesAt(items: seq<Data>)
    ensures forall i :: 0 <= i < |items| ==> FoldedTables(items)[i] == FoldedData(items[i])
  {
    forall i | 0 <= i < |items| ensures FoldedTables(items)[i] == FoldedData(items[i]) {
      FoldedTableAt(items, i);
    }
  }

  lemma {:induction false} FoldedTableAt(items: seq<Data>, i: nat)
    requires i < |items|
    ensures FoldedTables(items)[i] == FoldedData(items[i])
  {
    if i < |items| - 1 {
      FoldedTableAt(Front(items), i);
    }
  }

  lemma {:induction false} LoweredItemsAt(repr: Repr, items: seq<Object>)
    requires forall i :: 0 <= i < |items| ==> items[i].Mapping?
    ensures forall i :: 0 <= i < |items| ==> LoweredItems(repr, items)[i] == LoweredItem(repr, items[i])
  {
    if items != [] {
      LoweredItemsAt(repr, Front(items));
    }
  }

  /** The written strings of a list. */
  lemma {:induction false} StringsAt(repr: Repr, items: seq<Object>)
    ensures |StrsOf(repr, items)| == |items| && |Strs(FoldedTexts(StrsOf(repr, items)))| == |items|
    ensures forall i :: 0 <= i < |items| ==> FoldedTexts(StrsOf(repr, items))[i] == Folded(StrOf(repr, items[i]))
    ensures forall i :: 0 <= i < |items| ==> Strs(FoldedTexts(StrsOf(repr, items)))[i] == Str(Folded(StrOf(repr, items[i])))
  {
    if items != [] {
      StringsAt(repr, items[1..]);
      assert StrsOf(repr, items)[1..] == StrsOf(repr, items[1..]);
      assert FoldedTexts(StrsOf(repr, items))[1..] == FoldedTexts(StrsOf(repr, items[1..]));
      var all, more := Strs(FoldedTexts(StrsOf(repr, items))), Strs(FoldedTexts(StrsOf(repr, items[1..])));
      assert all == [Str(Folded(StrOf(repr, items[0])))] + more;
      assert forall i :: 0 < i < |items| ==> items[i] == items[1..][i - 1];
    }
  }

  /** The map of entries with different keys. */
  lemma {:induction false} MapAt(entries: Entries)
    requires Distinct(entries)
    ensures forall i :: 0 <= i < |entries| ==> entries[i].key in MapOf(entries) && MapOf(entries)[entries[i].key] == NodeOf(entries[i].value)
  {
    if entries != [] {
      var front := Front(entries);
      MapAt(front);
      assert forall i :: 0 <= i < |front| ==> front[i] == entries[i] && front[i].key != Last(entries).key;
    }
  }

  // ---------- the tree that is read stands for the object exactly if it is kept ----------

  /** No key holds a carriage return. */
  predicate PlainKeys(o: Object)
    decreases o
  {
    match o
    case Sequence(items) => forall i :: 0 <= i < |items| ==> PlainKeys(items[i])
    case Mapping(entries) => PlainEntries(entries)
    case _ => true
  }

  predicate PlainEntries(entries: seq<Item>)
    decreases entries
  {
    forall i :: 0 <= i < |entries| ==> Without(entries[i].key, '\r') && PlainKeys(entries[i].value)
  }

  lemma {:induction false} PlainIsFolded(s: string)
    requires Without(s, '\r')
    ensures Folded(s) == s
  {
    NoCr(s);
    ReplaceNothing(s);
  }

  /** A folded string that is clean is the string itself exactly if that is clean. */
  lemma {:induction false} FoldedIsSame(s: string)
    requires Clean(Folded(s))
    ensures Folded(s) == s <==> Clean(s)
  {
    if Clean(s) {
      CleanFolds(s);
    }
  }

  /** A dictionary stands for its entries exactly if each value does. */
  lemma {:induction false} MappingExactly(entries: seq<Item>, written: Entries, good: nat -> bool)
    requires |written| == |entries| && DictEntries(entries) && PlainEntries(entries)
    requires forall i :: 0 <= i < |entries| ==> written[i].key == Folded(entries[i].key)
    requires forall i :: 0 <= i < |entries| ==> (Stands(NodeOf(written[i].value), entries[i].value) <==> good(i))
    ensures Distinct(written)
    ensures Stands(Dict(MapOf(written), true), Mapping(entries)) <==> forall i :: 0 <= i < |entries| ==> good(i)
  {
    SameKeysWritten(entries, written);
    MapAt(written);
    forall k | k in MapOf(written) ensures exists i :: 0 <= i < |written| && written[i].key == k {
      MapOfKeys(written, k);
    }
    MapExactly(entries, written, MapOf(written), good);
  }

  lemma {:induction false} SameKeysWritten(entries: seq<Item>, written: Entries)
    requires |written| == |entries| && DictEntries(entries) && PlainEntries(entries)
    requires forall i :: 0 <= i < |entries| ==> written[i].key == Folded(entries[i].key)
    ensures (forall i :: 0 <= i < |entries| ==> written[i].key == entries[i].key) && Distinct(written)
  {
    forall i | 0 <= i < |entries| ensures written[i].key == entries[i].key {
      PlainIsFolded(entries[i].key);
    }
  }

  lemma {:induction false} MapExactly(entries: seq<Item>, written: Entries, m: map<string, Node>, good: nat -> bool)
    requires |written| == |entries| && forall i :: 0 <= i < |entries| ==> written[i].key == entries[i].key
    requires forall i :: 0 <= i < |entries| ==> written[i].key in m && m[written[i].key] == NodeOf(written[i].value)
    requires forall k :: k in m ==> exists i :: 0 <= i < |written| && written[i].key == k
    requires forall i :: 0 <= i < |entries| ==> (Stands(NodeOf(written[i].value), entries[i].value) <==> good(i))
    ensures Stands(Dict(m, true), Mapping(entries)) <==> forall i :: 0 <= i < |entries| ==> good(i)
  {
    forall k | k in m ensures HasKey(entries, k) {
      var i :| 0 <= i < |written| && written[i].key == k;
      assert entries[i].key == k;
    }
    forall i | 0 <= i < |entries| ensures entries[i].key in m && (Stands(m[entries[i].key], entries[i].value) <==> good(i)) {
      assert written[i].key in m;
    }
  }

  function WrittenOf(repr: Repr, o: Object): Data {
    FoldedData(Lowered(repr, o))
  }

  lemma {:induction false} StandsExactly(repr: Repr, o: Object)
    requires Dicts(o) && PlainKeys(o) && Legible(WrittenOf(repr, o))
    ensures Stands(NodeOf(WrittenOf(repr, o)), o) <==> Survives(o)
    ensures Writable(WrittenOf(repr, o))
    decreases o, 2
  {
    match o
    case String(s) => FoldedIsSame(s);
    case Sequence(items) =>
      if IsTableList(o) {
        TablesExactly(repr, o);
      } else if IsStringList(o) {
        StringsExactly(repr, o);
      } else {
        OthersAreLost(repr, o);
      }
    case Mapping(entries) => EntriesExactly(repr, entries);
    case _ =>
  }

  lemma {:induction false} StringsExactly(repr: Repr, o: Object)
    requires IsStringList(o) && !IsTableList(o) && Legible(WrittenOf(repr, o))
    ensures Stands(NodeOf(WrittenOf(repr, o)), o) <==> Survives(o)
  {
    StringsAt(repr, o.items);
    var texts := FoldedTexts(StrsOf(repr, o.items));
    assert WrittenOf(repr, o) == Texts(texts);
    forall i | 0 <= i < |o.items| ensures Leaf(Strs(texts)[i]) == Leaf(Str(o.items[i].s)) <==> Clean(o.items[i].s) {
      assert Clean(texts[i]);
      FoldedIsSame(o.items[i].s);
    }
    var n := NodeOf(Texts(texts));
    assert PartsOf(n) == Some(Leaves(Strs(texts)));
    forall i | 0 <= i < |o.items| ensures Stands(Leaves(Strs(texts))[i], o.items[i]) <==> Survives(o.items[i]) {
    }
  }

  /** A list that holds something else than strings, and not only dictionaries, is read as a list of strings. */
  lemma {:induction false} OthersAreLost(repr: Repr, o: Object)
    requires o.Sequence? && !IsStringList(o) && !IsTableList(o)
    ensures !Stands(NodeOf(WrittenOf(repr, o)), o) && !Survives(o)
  {
    StringsAt(repr, o.items);
    var texts := FoldedTexts(StrsOf(repr, o.items));
    var j :| 0 <= j < |o.items| && !o.items[j].String?;
    var n := NodeOf(WrittenOf(repr, o));
    assert Leaves(Strs(texts))[j] == Leaf(Str(Folded(StrOf(repr, o.items[j]))));
    assert !Stands(Leaves(Strs(texts))[j], o.items[j]);
    ItemDiffers(n, o, Leaves(Strs(texts)), j);
  }

  lemma {:induction false} ItemDiffers(n: Node, o: Object, parts: seq<Node>, j: nat)
    requires o.Sequence? && PartsOf(n) == Some(parts) && j < |parts| && j < |o.items| && !Stands(parts[j], o.items[j])
    ensures !Stands(n, o)
  {
  }

  lemma {:induction false} EntriesExactly(repr: Repr, entries: seq<Item>)
    requires DictEntries(entries) && PlainEntries(entries) && LegibleEntries(FoldedEntries(LoweredEntries(repr, entries)))
    ensures WritableEntries(FoldedEntries(LoweredEntries(repr, entries)))
    ensures Stands(Dict(MapOf(FoldedEntries(LoweredEntries(repr, entries))), true), Mapping(entries)) <==> KeptEntries(entries)
    decreases entries
  {
    var written := FoldedEntries(LoweredEntries(repr, entries));
    LoweredAt(repr, entries);
    FoldedAt(LoweredEntries(repr, entries));
    forall i | 0 <= i < |entries|
      ensures written[i].key == Folded(entries[i].key) && Clean(entries[i].key)
      ensures Writable(written[i].value) && (Stands(NodeOf(written[i].value), entries[i].value) <==> Survives(entries[i].value))
    {
      assert written[i] == FoldedEntry(Entry(entries[i].key, Lowered(repr, entries[i].value)));
      PlainIsFolded(entries[i].key);
      assert Clean(written[i].key) && Legible(written[i].value);
      StandsExactly(repr, entries[i].value);
    }
    MappingExactly(entries, written, (i: nat) => i < |entries| && Survives(entries[i].value));
  }

  lemma {:induction false} ItemAt(repr: Repr, items: seq<Object>, written: seq<Data>, i: nat)
    requires (forall i :: 0 <= i < |items| ==> items[i].Mapping?) && written == FoldedTables(LoweredItems(repr, items)) && i < |items|
    ensures written[i] == FoldedData(LoweredItem(repr, items[i])) && NodesOf(written)[i] == NodeOf(written[i])
  {
    LoweredItemsAt(repr, items);
    FoldedTableAt(LoweredItems(repr, items), i);
    NodesAt(written);
  }

  lemma {:induction false} TablesExactly(repr: Repr, o: Object)
    requires IsTableList(o) && Dicts(o) && PlainKeys(o) && Legible(WrittenOf(repr, o))
    ensures Stands(NodeOf(WrittenOf(repr, o)), o) <==> Survives(o)
    ensures Writable(WrittenOf(repr, o))
    decreases o, 1
  {
    var written := FoldedTables(LoweredItems(repr, o.items));
    WrittenList(repr, o, written);
    StandingList(repr, o, written);
    forall i | 0 <= i < |o.items|
      ensures WritableItem(written[i]) && (Stands(NodesOf(written)[i], o.items[i]) <==> KeptItem(o.items[i]))
    {
      ListedExactly(repr, o, written, i);
    }
    KeptList(o);
  }

  lemma {:induction false} ListedExactly(repr: Repr, o: Object, written: seq<Data>, i: nat)
    requires IsTableList(o) && Dicts(o) && PlainKeys(o) && written == FoldedTables(LoweredItems(repr, o.items))
    requires i < |o.items| && LegibleItem(written[i])
    ensures WritableItem(written[i]) && (Stands(NodesOf(written)[i], o.items[i]) <==> KeptItem(o.items[i]))
    decreases o, 0
  {
    ItemAt(repr, o.items, written, i);
    ListedItem(o, i);
    ItemExactly(repr, o.items[i]);
  }

  lemma {:induction false} ListedItem(o: Object, i: nat)
    requires IsTableList(o) && Dicts(o) && PlainKeys(o) && i < |o.items|
    ensures Dicts(o.items[i]) && PlainKeys(o.items[i])
  {
  }

  /** What the list comes to is what its tables come to. */
  lemma {:induction false} WrittenList(repr: Repr, o: Object, written: seq<Data>)
    requires IsTableList(o) && written == FoldedTables(LoweredItems(repr, o.items))
    ensures WrittenOf(repr, o) == Tables(written) && |written| == |o.items|
    ensures Writable(WrittenOf(repr, o)) <==> forall i :: 0 <= i < |written| ==> WritableItem(written[i])
    ensures Legible(WrittenOf(repr, o)) <==> forall i :: 0 <= i < |written| ==> LegibleItem(written[i])
  {
    assert WrittenOf(repr, o) == Tables(written) by {
      NotStrings(o);
    }
  }

  lemma {:induction false} StandingList(repr: Repr, o: Object, written: seq<Data>)
    requires IsTableList(o) && written == FoldedTables(LoweredItems(repr, o.items))
    ensures Stands(NodeOf(WrittenOf(repr, o)), o) <==> forall i :: 0 <= i < |o.items| ==> Stands(NodesOf(written)[i], o.items[i])
  {
    WrittenList(repr, o, written);
    assert PartsOf(NodeOf(Tables(written))) == Some(NodesOf(written));
  }

  lemma {:induction false} KeptList(o: Object)
    requires IsTableList(o)
    ensures Survives(o) <==> forall i :: 0 <= i < |o.items| ==> KeptItem(o.items[i])
  {
    NotStrings(o);
  }

  lemma {:induction false} NotStrings(o: Object)
    requires IsTableList(o)
    ensures !IsStringList(o)
  {
    assert o.items[0].Mapping?;
  }

  lemma {:induction false} ItemExactly(repr: Repr, o: Object)
    requires o.Mapping? && Dicts(o) && PlainKeys(o) && LegibleEntries(FoldedEntries(ItemEntries(repr, o.entries)))
    ensures WritableEntries(FoldedEntries(ItemEntries(repr, o.entries)))
    ensures Stands(NodeOf(FoldedData(LoweredItem(repr, o))), o) <==> KeptItem(o)
    decreases o
  {
    var entries := o.entries;
    var written := FoldedEntries(ItemEntries(repr, entries));
    ItemEntriesAt(repr, entries);
    FoldedAt(ItemEntries(repr, entries));
    forall i | 0 <= i < |entries|
      ensures written[i].key == Folded(entries[i].key) && Clean(entries[i].key)
      ensures Writable(written[i].value) && (Stands(NodeOf(written[i].value), entries[i].value) <==> KeptInItem(entries[i].value))
    {
      assert Clean(written[i].key) && Legible(written[i].value);
      ItemEntryExactly(repr, entries[i], written[i]);
    }
    MappingExactly(entries, written, (i: nat) => i < |entries| && KeptInItem(entries[i].value));
    ItemIsWritten(repr, entries);
    KeptItemIs(entries);
  }

  lemma {:induction false} ItemIsWritten(repr: Repr, entries: seq<Item>)
    ensures NodeOf(FoldedData(LoweredItem(repr, Mapping(entries)))) == Dict(MapOf(FoldedEntries(ItemEntries(repr, entries))), true)
  {
  }

  lemma {:induction false} KeptItemIs(entries: seq<Item>)
    requires forall i :: 0 <= i < |entries| ==> Clean(entries[i].key)
    ensures KeptItem(Mapping(entries)) <==> forall i :: 0 <= i < |entries| ==> KeptInItem(entries[i].value)
  {
  }

  lemma {:induction false} ItemEntryExactly(repr: Repr, item: Item, e: Entry)
    requires e == FoldedEntry(Entry(item.key, LoweredInItem(repr, item.value))) && Clean(e.key) && Legible(e.value)
    requires Dicts(item.value) && PlainKeys(item.value) && Without(item.key, '\r')
    ensures Clean(item.key) && Writable(e.value) && (Stands(NodeOf(e.value), item.value) <==> KeptInItem(item.value))
    decreases item
  {
    PlainIsFolded(item.key);
    ValueInItem(repr, item.value);
  }

  predicate KeptInItem(o: Object) {
    Survives(o) && (o.Sequence? ==> IsStringList(o))
  }

  lemma {:induction false} ValueInItem(repr: Repr, o: Object)
    requires Dicts(o) && PlainKeys(o) && Legible(FoldedData(LoweredInItem(repr, o)))
    ensures Writable(FoldedData(LoweredInItem(repr, o)))
    ensures Stands(NodeOf(FoldedData(LoweredInItem(repr, o))), o) <==> KeptInItem(o)
    decreases o, 3
  {
    if (o.Sequence? && !IsStringList(o)) || o.Foreign? {
      assert FoldedData(LoweredInItem(repr, o)) == Text(Folded(repr(o)));
    } else {
      SameInItem(repr, o);
      StandsExactly(repr, o);
    }
  }

  lemma {:induction false} SameInItem(repr: Repr, o: Object)
    requires (o.Sequence? ==> IsStringList(o)) && !o.Foreign?
    ensures LoweredInItem(repr, o) == Lowered(repr, o)
  {
    if o.Sequence? {
      assert o.items != [] ==> o.items[0].String?;
    }
  }
}
