/** Writing a config and reading it back: the statements of the written lines build the config's own tree. */
module TomlConfig {
  import opened Text
  import opened Wrappers
  import opened TomlLexer
  import opened TomlSyntax
  import opened TomlTree
  import opened TomlWriter
  import opened TomlScalars
  import opened TomlRoundTrip

  // ---------- the map of the entries of one kind ----------

  function KindMap(entries: Entries, kind: Kind): map<string, Node> {
    if entries == [] then map[]
    else
      var rest := KindMap(Front(entries), kind);
      if KindOf(Last(entries).value) == kind then rest[Last(entries).key := NodeOf(Last(entries).value)] else rest
  }

  lemma {:induction false} KindMapKeys(entries: Entries, kind: Kind, k: string)
    requires k in KindMap(entries, kind)
    ensures exists i :: 0 <= i < |entries| && entries[i].key == k && KindOf(entries[i].value) == kind
  {
    var last := |entries| - 1;
    if Last(entries).key == k && KindOf(Last(entries).value) == kind {
      assert entries[last].key == k;
    } else {
      KindMapKeys(Front(entries), kind, k);
      var i :| 0 <= i < last && Front(entries)[i].key == k && KindOf(Front(entries)[i].value) == kind;
      assert entries[i] == Front(entries)[i];
    }
  }

  lemma {:induction false} MapOfKeys(entries: Entries, k: string)
    requires k in MapOf(entries)
    ensures exists i :: 0 <= i < |entries| && entries[i].key == k
  {
    var last := |entries| - 1;
    if Last(entries).key == k {
      assert entries[last].key == k;
    } else {
      MapOfKeys(Front(entries), k);
      var i :| 0 <= i < last && Front(entries)[i].key == k;
      assert entries[i] == Front(entries)[i];
    }
  }

  lemma {:induction false} DistinctFront(entries: Entries)
    requires entries != [] && Distinct(entries)
    ensures Distinct(Front(entries)) && forall kind :: Last(entries).key !in KindMap(Front(entries), kind)
    ensures Last(entries).key !in MapOf(Front(entries))
  {
    forall kind: Kind ensures Last(entries).key !in KindMap(Front(entries), kind) {
      if Last(entries).key in KindMap(Front(entries), kind) {
        KindMapKeys(Front(entries), kind, Last(entries).key);
      }
    }
    if Last(entries).key in MapOf(Front(entries)) {
      MapOfKeys(Front(entries), Last(entries).key);
    }
  }

  /** The three kinds together are the whole table. */
  lemma {:induction false} KindsTogether(entries: Entries)
    requires Distinct(entries)
    ensures KindMap(entries, ScalarKind) + KindMap(entries, NestedKind) + KindMap(entries, ArrayKind) == MapOf(entries)
  {
    if entries != [] {
      DistinctFront(entries);
      KindsTogether(Front(entries));
    }
  }

  /** The keys of these entries are new in `m`. */
  predicate Absent(m: map<string, Node>, entries: Entries) {
    forall i :: 0 <= i < |entries| ==> entries[i].key !in m
  }

  /** Having added the entries of one kind, the keys of the others are still new. */
  predicate AbsentKind(m: map<string, Node>, entries: Entries, kind: Kind) {
    forall i :: 0 <= i < |entries| && KindOf(entries[i].value) == kind ==> entries[i].key !in m
  }

  lemma {:induction false} StillAbsent(m: map<string, Node>, entries: Entries, added: Kind, kind: Kind)
    requires Distinct(entries) && AbsentKind(m, entries, kind) && added != kind
    ensures AbsentKind(m + KindMap(entries, added), entries, kind)
  {
    forall i | 0 <= i < |entries| && KindOf(entries[i].value) == kind
      ensures entries[i].key !in m + KindMap(entries, added)
    {
      if entries[i].key in KindMap(entries, added) {
        KindMapKeys(entries, added, entries[i].key);
      }
    }
  }

  // ---------- a table under construction ----------

  /** A table, or the last item of an array of tables whose earlier items are `pre`. */
  function In(pre: Option<seq<Node>>, x: Node): Node {
    if pre.None? then x else Items(pre.value + [x])
  }

  /** `r` with the table `m` under construction at `path`. */
  function Site(r: Node, path: seq<string>, pre: Option<seq<Node>>, m: map<string, Node>): Node {
    Put(r, path, In(pre, Dict(m, true)))
  }

  lemma {:induction false} InLast(pre: seq<Node>, x: Node, y: Node)
    ensures Last(pre + [x]) == x && SetLast(pre + [x], y) == pre + [y]
  {
  }

  lemma {:induction false} SitePut(r: Node, path: seq<string>, pre: Option<seq<Node>>, m: map<string, Node>, k: string, z: Node)
    requires Open(r, path)
    ensures Open(Site(r, path, pre, m), path + [k])
    ensures Put(Site(r, path, pre, m), path + [k], z) == Site(r, path, pre, m[k := z])
  {
    var x := Dict(m, true);
    assert Open(x, [k]) && Put(x, [k], z) == Dict(m[k := z], true);
    if pre.Some? {
      InLast(pre.value, x, Put(x, [k], z));
    }
    OpenPut(r, path, [k], In(pre, x));
    PutPut(r, path, [k], In(pre, x), z);
  }

  lemma {:induction false} SiteAssign(r: Node, path: seq<string>, pre: Option<seq<Node>>, m: map<string, Node>, k: string, v: Value)
    requires Open(r, path) && k !in m
    ensures AssignAt(Site(r, path, pre, m), path, k, v) == Some(Site(r, path, pre, m[k := Leaf(v)]))
  {
    var x := Dict(m, true);
    if pre.Some? {
      InLast(pre.value, x, Dict(m[k := Leaf(v)], true));
    }
    AssignBelow(r, path, [], In(pre, x), k, v);
    assert path + [] == path;
  }

  lemma {:induction false} SiteItem(r: Node, path: seq<string>, pre: Option<seq<Node>>, m: map<string, Node>, k: string, done: seq<Node>)
    requires Open(r, path) && k !in m
    ensures var before := if done == [] then m else m[k := Items(done)];
      Declare(Site(r, path, pre, before), path + [k], true) == Some(Site(r, path, pre, m[k := Items(done + [EMPTY])]))
  {
    var before := if done == [] then m else m[k := Items(done)];
    var x := Dict(before, true);
    var y := Dict(m[k := Items(done + [EMPTY])], true);
    assert [] + [EMPTY] == [EMPTY];
    assert before[k := Items(done + [EMPTY])] == m[k := Items(done + [EMPTY])];
    assert DeclareHere(if k in before then Some(before[k]) else None, true) == Some(Items(done + [EMPTY]));
    assert Declare(x, [k], true) == Some(y);
    if pre.Some? {
      InLast(pre.value, x, y);
    }
    DeclareBelow(r, path, [k], In(pre, x), true);
  }

  lemma {:induction false} VacantBelow(t: Node, p: seq<string>, q: seq<string>, y: Node)
    requires Open(t, p) && q != []
    ensures Vacant(Put(t, p, y), p + q) == Vacant(y, q)
    decreases |p|, t
  {
    if p == [] {
      assert p + q == q;
    } else {
      assert (p + q)[0] == p[0] && (p + q)[1..] == p[1..] + q;
      match t
      case Items(items) => VacantBelow(Last(items), p, q, y);
      case Dict(m, _) => VacantBelow(Child(m, p[0]), p[1..], q, y);
    }
  }

  lemma {:induction false} SiteVacant(r: Node, path: seq<string>, pre: Option<seq<Node>>, m: map<string, Node>, k: string)
    requires Open(r, path) && k !in m
    ensures Vacant(Site(r, path, pre, m), path + [k]) == Some(map[])
  {
    var x := Dict(m, true);
    assert Vacant(x, [k]) == Some(map[]);
    if pre.Some? {
      InLast(pre.value, x, x);
    }
    VacantBelow(r, path, [k], In(pre, x));
  }

  // ---------- building ----------

  /** The statements take the root to `after`, wherever the current header ends up. */
  predicate Builds(root: Node, at: seq<string>, stmts: seq<Stmt>, after: Node) {
    var d := Build(Doc(root, at), stmts);
    d.Some? && d.value.root == after
  }

  lemma {:induction false} LastScalar(m: map<string, Node>, entries: Entries)
    requires entries != [] && KindOf(Last(entries).value).ScalarKind?
    ensures (m + KindMap(Front(entries), ScalarKind))[Last(entries).key := NodeOf(Last(entries).value)] == m + KindMap(entries, ScalarKind)
  {
  }

  lemma {:induction false} ScalarsBuild(r: Node, path: seq<string>, pre: Option<seq<Node>>, m: map<string, Node>, entries: Entries)
    requires Open(r, path) && Distinct(entries) && AbsentKind(m, entries, ScalarKind)
    ensures Build(Doc(Site(r, path, pre, m), path), ScalarStmts(entries)) ==
            Some(Doc(Site(r, path, pre, m + KindMap(entries, ScalarKind)), path))
  {
    if entries == [] {
      assert m + map[] == m;
    } else {
      var e := Last(entries);
      DistinctFront(entries);
      ScalarsBuild(r, path, pre, m, Front(entries));
      BuildAppend(Doc(Site(r, path, pre, m), path), ScalarStmts(Front(entries)), ScalarStmt(e));
      var m' := m + KindMap(Front(entries), ScalarKind);
      if KindOf(e.value).ScalarKind? {
        assert entries[|entries| - 1] == e;
        SiteAssign(r, path, pre, m', e.key, ValueOf(e.value));
        LastScalar(m, entries);
        OneStmt(Doc(Site(r, path, pre, m'), path), Assign(e.key, ValueOf(e.value)));
      }
    }
  }

  lemma {:induction false} OneStmt(d: Doc, s: Stmt)
    ensures Build(d, [s]) == Apply(d, s)
  {
    var r := Apply(d, s);
    assert r.Some? ==> Build(r.value, [s][1..]) == r;
  }

  lemma {:induction false} BuildsAppend(root: Node, at: seq<string>, a: seq<Stmt>, b: seq<Stmt>, mid: Node, after: Node)
    requires Builds(root, at, a, mid) && Builds(mid, Build(Doc(root, at), a).value.at, b, after)
    ensures Builds(root, at, a + b, after)
  {
    BuildAppend(Doc(root, at), a, b);
  }

  lemma {:induction false} BuildsNone(root: Node, at: seq<string>)
    ensures Builds(root, at, [], root)
  {
  }

  lemma {:induction false} BodyBuilds(r: Node, path: seq<string>, pre: Option<seq<Node>>, m: map<string, Node>, entries: Entries)
    requires Open(r, path) && WritableEntries(entries) && Absent(m, entries)
    ensures Builds(Site(r, path, pre, m), path, BodyStmts(path, entries), Site(r, path, pre, m + MapOf(entries)))
    decreases entries, 3
  {
    var root := Site(r, path, pre, m);
    var m1 := m + KindMap(entries, ScalarKind);
    var m2 := m1 + KindMap(entries, NestedKind);
    var m3 := m2 + KindMap(entries, ArrayKind);
    var a, b, c := ScalarStmts(entries), NestedStmts(path, entries), ArrayStmts(path, entries);
    ScalarsBuild(r, path, pre, m, entries);
    StillAbsent(m, entries, ScalarKind, NestedKind);
    NestedBuilds(r, path, pre, m1, entries, path);
    BuildsAppend(root, path, a, b, Site(r, path, pre, m1), Site(r, path, pre, m2));
    StillAbsent(m, entries, ScalarKind, ArrayKind);
    StillAbsent(m1, entries, NestedKind, ArrayKind);
    ArraysBuild(r, path, pre, m2, entries, Build(Doc(root, path), a + b).value.at);
    BuildsAppend(root, path, a + b, c, Site(r, path, pre, m2), Site(r, path, pre, m3));
    assert m3 == m + MapOf(entries) by {
      KindsTogether(entries);
      AddThree(m, KindMap(entries, ScalarKind), KindMap(entries, NestedKind), KindMap(entries, ArrayKind));
    }
  }

  lemma {:induction false} AddThree(m: map<string, Node>, a: map<string, Node>, b: map<string, Node>, c: map<string, Node>)
    ensures m + a + b + c == m + (a + b + c)
  {
  }

  lemma {:induction false} LastNested(m: map<string, Node>, entries: Entries)
    requires entries != []
    ensures var front, e := m + KindMap(Front(entries), NestedKind), Last(entries);
      m + KindMap(entries, NestedKind) == if e.value.Table? then front[e.key := NodeOf(e.value)] else front
  {
  }

  lemma {:induction false} NestedBuilds(r: Node, path: seq<string>, pre: Option<seq<Node>>, m: map<string, Node>, entries: Entries,
                                        at: seq<string>)
    requires Open(r, path) && WritableEntries(entries) && AbsentKind(m, entries, NestedKind)
    ensures Builds(Site(r, path, pre, m), at, NestedStmts(path, entries), Site(r, path, pre, m + KindMap(entries, NestedKind)))
    decreases entries, 2
  {
    if entries == [] {
      assert m + map[] == m;
      BuildsNone(Site(r, path, pre, m), at);
    } else {
      var e := Last(entries);
      DistinctFront(entries);
      WritableMember(entries, e);
      NestedBuilds(r, path, pre, m, Front(entries), at);
      var m' := m + KindMap(Front(entries), NestedKind);
      var mid := Build(Doc(Site(r, path, pre, m), at), NestedStmts(path, Front(entries))).value.at;
      assert entries[|entries| - 1] == e;
      NestedOneBuilds(r, path, pre, m', e, mid);
      LastNested(m, entries);
      BuildsAppend(Site(r, path, pre, m), at, NestedStmts(path, Front(entries)), NestedStmt(path, e),
                   Site(r, path, pre, m'), Site(r, path, pre, m + KindMap(entries, NestedKind)));
    }
  }

  lemma {:induction false} NestedOneBuilds(r: Node, path: seq<string>, pre: Option<seq<Node>>, m: map<string, Node>, e: Entry,
                                           at: seq<string>)
    requires Open(r, path) && Writable(e.value) && (e.value.Table? ==> e.key !in m)
    ensures Builds(Site(r, path, pre, m), at, NestedStmt(path, e),
                   Site(r, path, pre, if e.value.Table? then m[e.key := NodeOf(e.value)] else m))
    decreases e
  {
    if e.value.Table? {
      SiteVacant(r, path, pre, m, e.key);
      TableBuilds(Site(r, path, pre, m), path + [e.key], e.value.entries, at);
      assert map[] + MapOf(e.value.entries) == MapOf(e.value.entries);
      SitePut(r, path, pre, m, e.key, NodeOf(e.value));
    } else {
      BuildsNone(Site(r, path, pre, m), at);
    }
  }

  /** A written table builds the table at its path, keeping what longer headers had already put there. */
  lemma {:induction false} TableBuilds(root: Node, path: seq<string>, entries: Entries, at: seq<string>)
    requires WritableEntries(entries) && Vacant(root, path).Some? && Absent(Vacant(root, path).value, entries)
    ensures Builds(root, at, TableStmts(path, entries), Put(root, path, Dict(Vacant(root, path).value + MapOf(entries), true)))
    decreases entries, 4
  {
    var was := Vacant(root, path).value;
    DeclareVacant(root, path);
    OneStmt(Doc(root, at), Header(path, false));
    BodyBuilds(root, path, None, was, entries);
    BuildsAppend(root, at, [Header(path, false)], BodyStmts(path, entries), Site(root, path, None, was),
                 Site(root, path, None, was + MapOf(entries)));
  }

  lemma {:induction false} ArraysBuild(r: Node, path: seq<string>, pre: Option<seq<Node>>, m: map<string, Node>, entries: Entries,
                                       at: seq<string>)
    requires Open(r, path) && WritableEntries(entries) && AbsentKind(m, entries, ArrayKind)
    ensures Builds(Site(r, path, pre, m), at, ArrayStmts(path, entries), Site(r, path, pre, m + KindMap(entries, ArrayKind)))
    decreases entries, 2
  {
    if entries == [] {
      assert m + map[] == m;
      BuildsNone(Site(r, path, pre, m), at);
    } else {
      var e := Last(entries);
      DistinctFront(entries);
      WritableMember(entries, e);
      ArraysBuild(r, path, pre, m, Front(entries), at);
      var m' := m + KindMap(Front(entries), ArrayKind);
      var mid := Build(Doc(Site(r, path, pre, m), at), ArrayStmts(path, Front(entries))).value.at;
      assert entries[|entries| - 1] == e;
      ArrayOneBuilds(r, path, pre, m', e, mid);
      assert m + KindMap(entries, ArrayKind) == if e.value.Tables? then m'[e.key := NodeOf(e.value)] else m';
      BuildsAppend(Site(r, path, pre, m), at, ArrayStmts(path, Front(entries)), ArrayStmt(path, e),
                   Site(r, path, pre, m'), Site(r, path, pre, m + KindMap(entries, ArrayKind)));
    }
  }

  lemma {:induction false} ArrayOneBuilds(r: Node, path: seq<string>, pre: Option<seq<Node>>, m: map<string, Node>, e: Entry,
                                          at: seq<string>)
    requires Open(r, path) && Writable(e.value) && (e.value.Tables? ==> e.key !in m)
    ensures Builds(Site(r, path, pre, m), at, ArrayStmt(path, e),
                   Site(r, path, pre, if e.value.Tables? then m[e.key := NodeOf(e.value)] else m))
    decreases e
  {
    if e.value.Tables? {
      ItemsBuild(r, path, pre, m, e.key, e.value.tables, at);
    } else {
      BuildsNone(Site(r, path, pre, m), at);
    }
  }

  function WithItems(m: map<string, Node>, k: string, done: seq<Node>): map<string, Node> {
    if done == [] then m else m[k := Items(done)]
  }

  lemma {:induction false} ItemsBuild(r: Node, path: seq<string>, pre: Option<seq<Node>>, m: map<string, Node>, k: string,
                                      items: seq<Data>, at: seq<string>)
    requires Open(r, path) && k !in m && forall i :: 0 <= i < |items| ==> WritableItem(items[i])
    ensures Builds(Site(r, path, pre, m), at, ItemStmts(path + [k], items), Site(r, path, pre, WithItems(m, k, NodesOf(items))))
    decreases items
  {
    if items == [] {
      BuildsNone(Site(r, path, pre, m), at);
    } else {
      var done := NodesOf(Front(items));
      ItemsBuild(r, path, pre, m, k, Front(items), at);
      var mid := Build(Doc(Site(r, path, pre, m), at), ItemStmts(path + [k], Front(items))).value.at;
      ItemBuilds(r, path, pre, m, k, done, Last(items), mid);
      BuildsAppend(Site(r, path, pre, m), at, ItemStmts(path + [k], Front(items)), ItemStmt(path + [k], Last(items)),
                   Site(r, path, pre, WithItems(m, k, done)), Site(r, path, pre, WithItems(m, k, NodesOf(items))));
    }
  }

  lemma {:induction false} ItemBuilds(r: Node, path: seq<string>, pre: Option<seq<Node>>, m: map<string, Node>, k: string,
                                      done: seq<Node>, item: Data, at: seq<string>)
    requires Open(r, path) && k !in m && WritableItem(item)
    ensures Builds(Site(r, path, pre, WithItems(m, k, done)), at, ItemStmt(path + [k], item),
                   Site(r, path, pre, WithItems(m, k, done + [NodeOf(item)])))
    decreases item
  {
    var before := Site(r, path, pre, WithItems(m, k, done));
    var outer := Site(r, path, pre, m);
    var p := path + [k];
    SiteItem(r, path, pre, m, k, done);
    OneStmt(Doc(before, at), Header(p, true));
    SitePut(r, path, pre, m, k, Items(done + [EMPTY]));
    assert Site(outer, p, Some(done), map[]) == Site(r, path, pre, m[k := Items(done + [EMPTY])]);
    BodyBuilds(outer, p, Some(done), map[], item.entries);
    assert map[] + MapOf(item.entries) == MapOf(item.entries);
    SitePut(r, path, pre, m, k, Items(done + [NodeOf(item)]));
    BuildsAppend(before, at, [Header(p, true)], BodyStmts(p, item.entries), Site(outer, p, Some(done), map[]),
                 Site(outer, p, Some(done), MapOf(item.entries)));
  }

  // ---------- the whole config ----------

  function SectionStmts(section: Entry): seq<Stmt> {
    if section.value.Table? then TableStmts([section.key], section.value.entries)
    else if IsScalar(section.value) then [Assign(section.key, ValueOf(section.value))]
    else []
  }

  function ConfigStmts(data: Entries): seq<Stmt> {
    if data == [] then [] else ConfigStmts(Front(data)) + SectionStmts(Last(data))
  }

  lemma {:induction false} ConfigLinesRead(data: Entries)
    requires LegibleEntries(data) && Sections(data)
    ensures Reads(ConfigLines(data), ConfigStmts(data))
  {
    if data == [] {
      ReadsNone();
    } else {
      var section := Last(data);
      ConfigLinesRead(Front(data));
      var gap := if |data| > 1 then [""] else [];
      if |data| > 1 {
        BlankReads();
      } else {
        ReadsNone();
      }
      if section.value.Table? {
        TableLinesRead([section.key], section.value.entries);
      } else {
        AssignReads(section.key, section.value);
      }
      ReadsAppend(ConfigLines(Front(data)), ConfigStmts(Front(data)), gap, []);
      assert ConfigStmts(Front(data)) + [] == ConfigStmts(Front(data));
      ReadsAppend(ConfigLines(Front(data)) + gap, ConfigStmts(Front(data)), SectionLines(section), SectionStmts(section));
    }
  }

  /** No scalar follows a table at top level. */
  predicate ScalarsFirst(data: Entries) {
    forall i, j :: 0 <= i < j < |data| && data[i].value.Table? ==> data[j].value.Table?
  }

  lemma {:induction false} ConfigBuilds(data: Entries)
    requires WritableEntries(data) && Sections(data) && ScalarsFirst(data)
    ensures Builds(EMPTY, [], ConfigStmts(data), Dict(MapOf(data), true))
    ensures data != [] && !Last(data).value.Table? ==> Build(START, ConfigStmts(data)).value.at == []
  {
    if data == [] {
      BuildsNone(EMPTY, []);
    } else {
      var section := Last(data);
      DistinctFront(data);
      WritableMember(data, section);
      ConfigBuilds(Front(data));
      var mid := Build(START, ConfigStmts(Front(data))).value;
      var m := MapOf(Front(data));
      assert data[|data| - 1] == section;
      if section.value.Table? {
        SectionBuilds(m, section, mid.at);
      } else {
        assert |data| > 1 ==> !Last(Front(data)).value.Table?;
        assert mid.at == [];
        OneStmt(mid, Assign(section.key, ValueOf(section.value)));
        assert AssignAt(Dict(m, true), [], section.key, ValueOf(section.value)) == Some(Dict(MapOf(data), true));
      }
      BuildAppend(START, ConfigStmts(Front(data)), SectionStmts(section));
    }
  }

  lemma {:induction false} SectionBuilds(m: map<string, Node>, section: Entry, at: seq<string>)
    requires section.value.Table? && Writable(section.value) && section.key !in m
    ensures Builds(Dict(m, true), at, SectionStmts(section), Dict(m[section.key := NodeOf(section.value)], true))
  {
    var root := Dict(m, true);
    var path := [section.key];
    assert Vacant(root, path) == Some(map[]);
    TableBuilds(root, path, section.value.entries, at);
    assert map[] + MapOf(section.value.entries) == MapOf(section.value.entries);
    assert Put(root, path, NodeOf(section.value)) == Dict(m[section.key := NodeOf(section.value)], true);
  }

  // ---------- trailing whitespace ----------

  /** The last line ends in a character that `rstrip` keeps. */
  predicate Solid(lines: seq<string>) {
    lines != [] && Last(lines) != "" && !IsSpace(Last(Last(lines)))
  }

  predicate SolidOrNone(lines: seq<string>) {
    lines == [] || Solid(lines)
  }

  lemma {:induction false} SolidAppend(a: seq<string>, b: seq<string>)
    requires SolidOrNone(b) && (b == [] ==> SolidOrNone(a))
    ensures SolidOrNone(a + b) && (Solid(a) || Solid(b) ==> Solid(a + b))
  {
    if b == [] {
      assert a + b == a;
    }
  }

  lemma {:induction false} EndsWith(s: string, t: string)
    requires t != ""
    ensures Last(s + t) == Last(t)
  {
  }

  lemma {:induction false} AssignSolid(key: string, d: Data)
    requires IsScalar(d) || d.Texts?
    ensures Solid([AssignLine(key, d)])
  {
    ValueSolid(d);
    EndsWith(FormatKey(key) + " = ", FormatValue(d));
  }

  lemma {:induction false} TokenSolid(t: string)
    requires t != "" && forall i :: 0 <= i < |t| ==> IsTokenChar(t[i])
    ensures !IsSpace(Last(t))
  {
    assert IsTokenChar(Last(t));
  }

  lemma {:induction false} ValueSolid(d: Data)
    requires IsScalar(d) || d.Texts?
    ensures FormatValue(d) != "" && !IsSpace(Last(FormatValue(d)))
  {
    match d
    case Text(s) => EndsWith("\"" + Escaped(s), "\"");
    case Number(n) => NumberSolid(n);
    case Fraction(t) => TokenSolid(t);
    case Flag(_) =>
    case Texts(items) =>
      if items != [] {
        EndsWith("[\n" + Join(Indented(items), ",\n"), "\n]");
      }
  }

  lemma {:induction false} NumberSolid(n: int)
    ensures FormatValue(Number(n)) != "" && !IsSpace(Last(FormatValue(Number(n))))
  {
    NatTextReads(if n < 0 then -n else n);
    if n < 0 {
      EndsWith("-", NatText(-n));
    }
  }

  lemma {:induction false} ScalarLinesSolid(entries: Entries)
    ensures SolidOrNone(ScalarLines(entries))
  {
    if entries != [] {
      ScalarLinesSolid(Front(entries));
      var e := Last(entries);
      if KindOf(e.value).ScalarKind? {
        AssignSolid(e.key, e.value);
      }
      SolidAppend(ScalarLines(Front(entries)), ScalarLine(e));
    }
  }

  lemma {:induction false} HeaderSolid(opening: string, name: string, closing: string)
    requires closing == "]" || closing == "]]"
    ensures Solid([opening + name + closing])
  {
    EndsWith(opening + name, closing);
  }

  lemma {:induction false} BodySolid(path: seq<string>, entries: Entries)
    ensures SolidOrNone(BodyLines(path, entries))
    decreases entries, 3
  {
    ScalarLinesSolid(entries);
    NestedSolid(path, entries);
    ArraysSolid(path, entries);
    SolidAppend(ScalarLines(entries), NestedLines(path, entries));
    SolidAppend(ScalarLines(entries) + NestedLines(path, entries), ArrayLines(path, entries));
  }

  lemma {:induction false} TableSolid(path: seq<string>, entries: Entries)
    ensures Solid(TableLines(path, entries))
    decreases entries, 4
  {
    HeaderSolid("[", FormatTableName(path), "]");
    BodySolid(path, entries);
    SolidAppend(["[" + FormatTableName(path) + "]"], BodyLines(path, entries));
  }

  lemma {:induction false} NestedSolid(path: seq<string>, entries: Entries)
    ensures SolidOrNone(NestedLines(path, entries))
    decreases entries, 2
  {
    if entries != [] {
      NestedSolid(path, Front(entries));
      NestedOneSolid(path, Last(entries));
      SolidAppend(NestedLines(path, Front(entries)), NestedLine(path, Last(entries)));
    }
  }

  lemma {:induction false} NestedOneSolid(path: seq<string>, e: Entry)
    ensures SolidOrNone(NestedLine(path, e))
    decreases e
  {
    if e.value.Table? {
      TableSolid(path + [e.key], e.value.entries);
      SolidAppend([""], TableLines(path + [e.key], e.value.entries));
    }
  }

  lemma {:induction false} ArraysSolid(path: seq<string>, entries: Entries)
    ensures SolidOrNone(ArrayLines(path, entries))
    decreases entries, 2
  {
    if entries != [] {
      ArraysSolid(path, Front(entries));
      var e := Last(entries);
      if e.value.Tables? {
        ItemsSolid(path + [e.key], e.value.tables);
      }
      SolidAppend(ArrayLines(path, Front(entries)), ArrayLine(path, e));
    }
  }

  lemma {:induction false} ItemsSolid(path: seq<string>, items: seq<Data>)
    ensures SolidOrNone(ItemLines(path, items))
    decreases items
  {
    if items != [] {
      ItemsSolid(path, Front(items));
      ItemSolid(path, Last(items));
      SolidAppend(ItemLines(path, Front(items)), ItemLine(path, Last(items)));
    }
  }

  lemma {:induction false} ItemSolid(path: seq<string>, item: Data)
    ensures SolidOrNone(ItemLine(path, item))
    decreases item
  {
    if item.Table? {
      var header := "[[" + FormatTableName(path) + "]]";
      HeaderSolid("[[", FormatTableName(path), "]]");
      BodySolid(path, item.entries);
      SolidAppend(["", header], BodyLines(path, item.entries));
    }
  }

  lemma {:induction false} JoinTerminated(lines: seq<string>)
    requires lines != []
    ensures Join(lines, "\n") + "\n" == Terminated(lines)
  {
    if |lines| == 1 {
      assert Terminated(Front(lines)) == "" && Terminated(lines) == "" + (lines[0] + "\n") == lines[0] + "\n";
    } else {
      var first := [lines[0]];
      assert first + lines[1..] == lines;
      JoinTerminated(lines[1..]);
      TerminatedAppend(first, lines[1..]);
      assert Front(first) == [] && Terminated(first) == "" + (lines[0] + "\n") == lines[0] + "\n";
      assert Join(lines, "\n") + "\n" == lines[0] + "\n" + (Join(lines[1..], "\n") + "\n");
    }
  }

  lemma {:induction false} JoinSolid(lines: seq<string>)
    requires Solid(lines)
    ensures var t := Join(lines, "\n"); t != "" && Last(t) == Last(Last(lines))
  {
    if |lines| > 1 {
      JoinSolid(lines[1..]);
      EndsWith(lines[0] + "\n", Join(lines[1..], "\n"));
    }
  }

  /** The written text is exactly its lines: `rstrip` finds nothing to take. */
  lemma {:induction false} WrittenText(lines: seq<string>)
    requires Solid(lines)
    ensures RStrip(Join(lines, "\n")) + "\n" == Terminated(lines)
  {
    JoinSolid(lines);
    JoinTerminated(lines);
  }

  lemma {:induction false} ConfigSolid(data: Entries)
    requires Sections(data) && data != []
    ensures Solid(ConfigLines(data))
  {
    var section := Last(data);
    if section.value.Table? {
      TableSolid([section.key], section.value.entries);
    } else {
      AssignSolid(section.key, section.value);
    }
    SolidAppend(ConfigLines(Front(data)) + (if |data| > 1 then [""] else []), SectionLines(section));
  }

  // ---------- the order of the sections matters ----------

  /** A key at the root comes from a header's first name or from an assignment before every header. */
  lemma {:induction false} RootKeys(d: Doc, stmts: seq<Stmt>, k: string)
    requires Build(d, stmts).Some? && d.root.Dict? && k !in d.root.m && d.at != []
    requires forall i :: 0 <= i < |stmts| && stmts[i].Header? ==> stmts[i].path != [] && stmts[i].path[0] != k
    ensures var e := Build(d, stmts).value; e.root.Dict? && k !in e.root.m && e.at != []
    decreases |stmts|
  {
    if stmts != [] {
      var s := stmts[0];
      RootKeys(Apply(d, s).value, stmts[1..], k);
    }
  }

  lemma {:induction false} TableHeaders(path: seq<string>, entries: Entries, i: nat)
    requires i < |TableStmts(path, entries)| && TableStmts(path, entries)[i].Header?
    ensures var p := TableStmts(path, entries)[i].path; path <= p
    decreases entries, 4
  {
    if i > 0 {
      BodyHeaders(path, entries, i - 1);
    }
  }

  lemma {:induction false} BodyHeaders(path: seq<string>, entries: Entries, i: nat)
    requires i < |BodyStmts(path, entries)| && BodyStmts(path, entries)[i].Header?
    ensures var p := BodyStmts(path, entries)[i].path; path <= p
    decreases entries, 3
  {
    var s, n := |ScalarStmts(entries)|, |NestedStmts(path, entries)|;
    if i < s {
      ScalarsNoHeader(entries, i);
    } else if i < s + n {
      NestedHeaders(path, entries, i - s);
    } else {
      ArrayHeaders(path, entries, i - s - n);
    }
  }

  lemma {:induction false} ScalarsNoHeader(entries: Entries, i: nat)
    requires i < |ScalarStmts(entries)|
    ensures !ScalarStmts(entries)[i].Header?
  {
    if i < |ScalarStmts(Front(entries))| {
      ScalarsNoHeader(Front(entries), i);
    }
  }

  lemma {:induction false} NestedHeaders(path: seq<string>, entries: Entries, i: nat)
    requires i < |NestedStmts(path, entries)| && NestedStmts(path, entries)[i].Header?
    ensures var p := NestedStmts(path, entries)[i].path; path <= p
    decreases entries, 2
  {
    var n := |NestedStmts(path, Front(entries))|;
    if i < n {
      NestedHeaders(path, Front(entries), i);
    } else {
      NestedOneHeaders(path, Last(entries), i - n);
    }
  }

  lemma {:induction false} NestedOneHeaders(path: seq<string>, e: Entry, i: nat)
    requires i < |NestedStmt(path, e)| && NestedStmt(path, e)[i].Header?
    ensures var p := NestedStmt(path, e)[i].path; path <= p
    decreases e
  {
    TableHeaders(path + [e.key], e.value.entries, i);
  }

  lemma {:induction false} ArrayHeaders(path: seq<string>, entries: Entries, i: nat)
    requires i < |ArrayStmts(path, entries)| && ArrayStmts(path, entries)[i].Header?
    ensures var p := ArrayStmts(path, entries)[i].path; path <= p
    decreases entries, 2
  {
    var n := |ArrayStmts(path, Front(entries))|;
    if i < n {
      ArrayHeaders(path, Front(entries), i);
    } else {
      var e := Last(entries);
      ItemsHeaders(path + [e.key], e.value.tables, i - n);
    }
  }

  lemma {:induction false} ItemsHeaders(path: seq<string>, items: seq<Data>, i: nat)
    requires i < |ItemStmts(path, items)| && ItemStmts(path, items)[i].Header?
    ensures var p := ItemStmts(path, items)[i].path; path <= p
    decreases items
  {
    var n := |ItemStmts(path, Front(items))|;
    if i < n {
      ItemsHeaders(path, Front(items), i);
    } else if i > n {
      ItemHeaders(path, Last(items), i - n);
    }
  }

  lemma {:induction false} ItemHeaders(path: seq<string>, item: Data, i: nat)
    requires 0 < i < |ItemStmt(path, item)| && ItemStmt(path, item)[i].Header?
    ensures var p := ItemStmt(path, item)[i].path; path <= p
    decreases item
  {
    BodyHeaders(path, item.entries, i - 1);
  }

  /** A table section leaves another key's place at the root alone, and a header behind. */
  lemma {:induction false} TableSectionKeys(d: Doc, e: Entry, k: string)
    requires e.value.Table? && e.key != k && Build(d, SectionStmts(e)).Some? && d.root.Dict? && k !in d.root.m
    ensures var r := Build(d, SectionStmts(e)).value; r.root.Dict? && k !in r.root.m && r.at != []
  {
    var table := SectionStmts(e);
    forall n | 0 <= n < |table[1..]| && table[1..][n].Header?
      ensures table[1..][n].path != [] && table[1..][n].path[0] != k
    {
      TableHeaders([e.key], e.value.entries, n + 1);
    }
    RootKeys(Apply(d, table[0]).value, table[1..], k);
  }

  /** The root has only keys of its sections. */
  lemma {:induction false} SectionKeys(data: Entries, k: string)
    requires Build(START, ConfigStmts(data)).Some?
    requires forall i :: 0 <= i < |data| ==> data[i].key != k
    ensures var d := Build(START, ConfigStmts(data)).value; d.root.Dict? && k !in d.root.m
  {
    if data != [] {
      var e := Last(data);
      BuildAppend(START, ConfigStmts(Front(data)), SectionStmts(e));
      SectionKeys(Front(data), k);
      var mid := Build(START, ConfigStmts(Front(data))).value;
      if e.value.Table? {
        TableSectionKeys(mid, e, k);
      } else if IsScalar(e.value) {
        OneStmt(mid, Assign(e.key, ValueOf(e.value)));
      }
    }
  }

  /** Behind a table the root gets no key but those of further tables. */
  lemma {:induction false} KeysBehindTable(data: Entries, i: nat, k: string)
    requires Build(START, ConfigStmts(data)).Some? && i < |data| && data[i].value.Table?
    requires forall j :: 0 <= j < |data| && (j <= i || data[j].value.Table?) ==> data[j].key != k
    ensures var d := Build(START, ConfigStmts(data)).value; d.root.Dict? && k !in d.root.m && d.at != []
  {
    var e := Last(data);
    BuildAppend(START, ConfigStmts(Front(data)), SectionStmts(e));
    var mid := Build(START, ConfigStmts(Front(data))).value;
    if i == |data| - 1 {
      SectionKeys(Front(data), k);
      TableSectionKeys(mid, e, k);
    } else {
      KeysBehindTable(Front(data), i, k);
      if e.value.Table? {
        TableSectionKeys(mid, e, k);
      } else {
        RootKeys(mid, SectionStmts(e), k);
      }
    }
  }

  /** A scalar behind a table is read as part of that table: the root never gets its key. */
  lemma {:induction false} MisplacedScalar(data: Entries, i: nat, j: nat)
    requires Distinct(data) && i < j < |data| && data[i].value.Table? && !data[j].value.Table?
    ensures var d := Build(START, ConfigStmts(data)); d.Some? ==> d.value.root.Dict? && data[j].key !in d.value.root.m
  {
    if Build(START, ConfigStmts(data)).Some? {
      KeysBehindTable(data, i, data[j].key);
    }
  }
}
