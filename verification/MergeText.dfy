/**
  `_final_text` of config/provider_merge_migration.py: the merge as text edits, and that the text they leave reads as the
  merged config.
 */
module MergeText {
  import opened Text
  import opened Wrappers
  import opened TomlLexer
  import opened TomlSyntax
  import opened TomlWriter
  import opened TomlScalars
  import opened TomlRoundTrip
  import opened TomlTree
  import opened TomlConfig
  import opened TomlSpans
  import opened TomlObjects
  import opened TomlFolded
  import opened TomlFaithful
  import opened TomlPublicConfig
  import Edits = TomlEdits
  import Remove = TomlRemove
  import Replace = TomlReplace
  import Append = TomlAppend
  import Merge = ProviderMerge

  // ---------- nodes of a tree ----------

  /** The node at a path of tables. */
  function NodeAt(t: Node, path: seq<string>): Option<Node>
    decreases |path|
  {
    if path == [] then Some(t)
    else if t.Dict? && path[0] in t.m then NodeAt(t.m[path[0]], path[1..])
    else None
  }

  /** Whatever is on the way along the path is a table. */
  predicate Tabular(t: Node, path: seq<string>)
    decreases |path|
  {
    path == [] || (t.Dict? && (path[0] in t.m ==> Tabular(t.m[path[0]], path[1..])))
  }

  const NOTHING := Dict(map[], false)

  function NodeOr(t: Node, path: seq<string>): Node {
    if NodeAt(t, path).Some? then NodeAt(t, path).value else NOTHING
  }

  lemma {:induction false} NothingThere(path: seq<string>)
    ensures Tabular(NOTHING, path) && NodeAt(NOTHING, path) == if path == [] then Some(NOTHING) else None
  {
  }

  lemma {:induction false} PutElsewhere(t: Node, p: seq<string>, n: Node, q: seq<string>)
    requires Tabular(t, p) && !(p <= q) && !(q <= p)
    ensures NodeAt(Put(t, p, n), q) == NodeAt(t, q)
    decreases |p|
  {
    Edits.UnderTail(p, q);
    Edits.UnderTail(q, p);
    if q[0] == p[0] {
      NothingThere(p[1..]);
      NothingThere(q[1..]);
      PutElsewhere(Child(t.m, p[0]), p[1..], n, q[1..]);
    }
  }

  lemma {:induction false} PutAbove(t: Node, p: seq<string>, n: Node, q: seq<string>)
    requires Tabular(t, p) && q <= p
    ensures NodeAt(Put(t, p, n), q) == Some(Put(NodeOr(t, q), p[|q|..], n))
    decreases |p|
  {
    if q != [] {
      Edits.UnderTail(q, p);
      NothingThere(p[1..]);
      NothingThere(q[1..]);
      PutAbove(Child(t.m, p[0]), p[1..], n, q[1..]);
      assert p[1..][|q[1..]|..] == p[|q|..];
    }
  }

  /** A path of tables that leads to nothing can be declared. */
  lemma {:induction false} VacantNew(t: Node, p: seq<string>)
    requires p != [] && Tabular(t, p) && NodeAt(t, p).None?
    ensures Vacant(t, p) == Some(map[])
    decreases |p|
  {
    if |p| > 1 {
      NothingThere(p[1..]);
      VacantNew(Child(t.m, p[0]), p[1..]);
    }
  }

  lemma {:induction false} SetAt(t: Node, loc: seq<Edits.Seg>, path: seq<string>, v: Value, q: seq<string>)
    requires Edits.HasLeaf(t, loc) && Edits.Keys(loc) == path && NodeAt(t, path).Some? && NodeAt(t, path).value.Leaf?
    ensures NodeAt(t, path) == Some(Leaf(Edits.LeafAt(t, loc)))
    ensures NodeAt(Edits.SetLeaf(t, loc, v), path) == Some(Leaf(v))
    ensures !(q <= path) ==> NodeAt(Edits.SetLeaf(t, loc, v), q) == NodeAt(t, q)
    decreases |loc|
  {
    if t.Dict? {
      var k := loc[0].k;
      assert path[0] == k && path[1..] == Edits.Keys(loc[1..]);
      SetAt(t.m[k], loc[1..], path[1..], v, if q == [] then [] else q[1..]);
      if q != [] {
        Edits.UnderTail(q, path);
      }
    }
  }

  lemma {:induction false} PruneElsewhere(t: Node, p: seq<string>, q: seq<string>)
    requires Tabular(t, p) && !(p <= q) && !(q <= p)
    ensures NodeAt(Edits.Prune(t, p), q) == NodeAt(t, q)
    decreases |p|
  {
    Edits.UnderTail(p, q);
    Edits.UnderTail(q, p);
    if q[0] == p[0] && p[0] in t.m && |p| > 1 {
      PruneElsewhere(t.m[p[0]], p[1..], q[1..]);
      NothingThere(q[1..]);
    }
  }

  lemma {:induction false} PruneGone(t: Node, p: seq<string>)
    requires p != [] && Tabular(t, p) && NodeAt(t, p).Some? && NodeAt(t, p).value.Dict?
    ensures NodeAt(Edits.Prune(t, p), p).None?
    decreases |p|
  {
    if |p| > 1 {
      PruneGone(t.m[p[0]], p[1..]);
      NothingThere(p[1..]);
    }
  }

  // ---------- the config a tree stands for ----------

  /** How a Provider's fields are read, and those of a model: its upstream id from the field of that name. */
  datatype Reader = Reader(contract: map<string, Node> -> Merge.Contract, credential: map<string, Node> -> string,
                           upstream: Option<Node> -> string, body: map<string, Node> -> string)

  function ModelOf(r: Reader, n: Node): Merge.Model {
    if n.Dict? then Merge.Model.Model(r.upstream(Lookup(n.m, "upstream_id")), r.body(n.m)) else Merge.NotTable
  }

  function ModelsIn(r: Reader, m: map<string, Node>): Merge.Models {
    if "models" in m && m["models"].Dict? then map k | k in m["models"].m :: ModelOf(r, m["models"].m[k]) else map[]
  }

  function ProviderOf(r: Reader, m: map<string, Node>): Merge.Provider {
    Merge.Provider(r.contract(m - {"models"}), r.credential(m - {"models"}), ModelsIn(r, m))
  }

  function ProviderPath(id: string): seq<string> {
    ["llm", "providers", id]
  }

  function ProviderAt(r: Reader, t: Node, id: string): Option<Merge.Provider> {
    var n := NodeAt(t, ProviderPath(id));
    if n.Some? && n.value.Dict? then Some(ProviderOf(r, n.value.m)) else None
  }

  function SitePath(site: Merge.Site): seq<string> {
    match site
    case Profile(id) => ["llm", "profiles", id]
    case Image2 => ["tools", "image2"]
    case Git => ["git"]
  }

  function SiteKey(site: Merge.Site): string {
    match site
    case Profile(_) => "model_ref"
    case Image2 => "default_model_ref"
    case Git => "commit_message_model_ref"
  }

  function RefPath(site: Merge.Site): seq<string> {
    SitePath(site) + [SiteKey(site)]
  }

  /** Where the config names a model, and where its Providers and their models are. */
  lemma {:induction false} PathsAre(id: string, key: string)
    ensures RefPath(Merge.Profile(id)) == ["llm", "profiles", id, "model_ref"]
    ensures RefPath(Merge.Image2) == ["tools", "image2", "default_model_ref"]
    ensures RefPath(Merge.Git) == ["git", "commit_message_model_ref"]
    ensures ProviderPath(id) == ["llm", "providers", id] && ModelPath(id, key) == ["llm", "providers", id, "models", key]
  {
    assert SitePath(Merge.Profile(id)) + ["model_ref"] == ["llm", "profiles", id, "model_ref"];
  }

  /** References are stripped when they are read. */
  function RefAt(t: Node, site: Merge.Site): Option<string> {
    match NodeAt(t, RefPath(site))
    case Some(Leaf(Str(s))) => Some(Strip(s))
    case _ => None
  }

  function Lookup<K, V>(m: map<K, V>, k: K): Option<V> {
    if k in m then Some(m[k]) else None
  }

  /** The models of every Provider, if any, are a table. */
  ghost predicate ModelTables(t: Node) {
    forall id :: var n := NodeAt(t, ProviderPath(id));
      n.Some? && n.value.Dict? && "models" in n.value.m ==> n.value.m["models"].Dict?
  }

  ghost predicate SameProviders(r: Reader, t: Node, providers: Merge.Registry) {
    forall id :: ProviderAt(r, t, id) == Lookup(providers, id)
  }

  ghost predicate SameSites(t: Node, sites: map<Merge.Site, string>) {
    forall site :: RefAt(t, site) == Lookup(sites, site)
  }

  ghost predicate IsView(r: Reader, t: Node, cfg: Merge.Config) {
    SameProviders(r, t, cfg.providers) && SameSites(t, cfg.sites) && ModelTables(t)
  }

  // ---------- one edit ----------

  datatype Change =
    | Add(key: string, values: seq<Item>)
    | Rewrite(site: Merge.Site, was: string, now: string)
    | Drop(id: string)

  function ModelPath(canonicalId: string, key: string): seq<string> {
    ["llm", "providers", canonicalId, "models", key]
  }

  /** What the replaced value must read as. */
  function Reads(was: string): Value -> bool {
    v => v == Str(was)
  }

  /** The text behind an edit; None exactly where the source's function raises. */
  function EditText(repr: Repr, canonicalId: string, text: string, e: Change): Option<string> {
    if Parse(text).None? then None
    else match e
      case Add(key, values) =>
        var path := ModelPath(canonicalId, key);
        if Append.HasTable(SplitLines(text), path) || !Append.Fits(text, path, LoweredEntries(repr, values)) then None
        else Some(Append.Appended(text, path, LoweredEntries(repr, values)))
      case Rewrite(site, was, now) =>
        var lines := SplitLines(text);
        var matches := Replace.MatchList(lines, SitePath(site), Replace.Assigns(SiteKey(site)), |lines|);
        if !Replace.CanReplace(lines, matches, Reads(was), Text(now)) then None
        else Some(Concat(lines[matches[0] := Replace.NewLine(lines[matches[0]], Text(now))]))
      case Drop(id) => Remove.Leftover(text, ProviderPath(id))
  }

  /** The table that an appended model is read as. */
  function WrittenNode(repr: Repr, values: seq<Item>): Node {
    Dict(MapOf(FoldedEntries(LoweredEntries(repr, values))), true)
  }

  /** The same edit of the config. */
  function Changed(r: Reader, repr: Repr, canonicalId: string, cfg: Merge.Config, e: Change): Merge.Config
    requires canonicalId in cfg.providers
  {
    match e
    case Add(key, values) =>
      var p := cfg.providers[canonicalId];
      cfg.(providers := cfg.providers[canonicalId := p.(models := p.models[key := ModelOf(r, WrittenNode(repr, values))])])
    case Rewrite(site, _, now) => cfg.(sites := cfg.sites[site := now])
    case Drop(id) => cfg.(providers := cfg.providers - {id})
  }

  /** What the merge's own edits satisfy: new clean keys, plain dictionaries, stripped references, other Providers. */
  predicate Proper(canonicalId: string, cfg: Merge.Config, e: Change) {
    && canonicalId in cfg.providers
    && match e
       case Add(key, values) =>
         key !in cfg.providers[canonicalId].models && CleanPath(ModelPath(canonicalId, key)) && DictEntries(values) &&
         PlainEntries(values)
       case Rewrite(site, _, now) => site in cfg.sites && Strip(Folded(now)) == now
       case Drop(id) => id in cfg.providers && id != canonicalId
  }

  lemma {:induction false} ProviderIsTabular(r: Reader, t: Node, cfg: Merge.Config, id: string, rest: seq<string>)
    requires IsView(r, t, cfg) && id in cfg.providers
    ensures NodeAt(t, ProviderPath(id)).Some? && NodeAt(t, ProviderPath(id)).value.Dict?
    ensures ProviderAt(r, t, id) == Some(cfg.providers[id])
    ensures Tabular(NodeAt(t, ProviderPath(id)).value, rest) ==> Tabular(t, ProviderPath(id) + rest)
  {
    assert ProviderAt(r, t, id) == Lookup(cfg.providers, id);
    TabularOn(t, ProviderPath(id), rest);
  }

  lemma {:induction false} TabularOn(t: Node, p: seq<string>, rest: seq<string>)
    requires NodeAt(t, p).Some?
    ensures Tabular(NodeAt(t, p).value, rest) ==> Tabular(t, p + rest)
    decreases |p|
  {
    if p == [] {
      assert p + rest == rest;
    } else {
      assert (p + rest)[0] == p[0] && (p + rest)[1..] == p[1..] + rest;
      TabularOn(t.m[p[0]], p[1..], rest);
    }
  }

  lemma {:induction false} NodeAtOn(t: Node, p: seq<string>, rest: seq<string>)
    requires NodeAt(t, p).Some?
    ensures NodeAt(t, p + rest) == NodeAt(NodeAt(t, p).value, rest)
    decreases |p|
  {
    if p == [] {
      assert p + rest == rest;
    } else {
      assert (p + rest)[0] == p[0] && (p + rest)[1..] == p[1..] + rest;
      NodeAtOn(t.m[p[0]], p[1..], rest);
    }
  }

  // ---------- adding a model ----------

  /** The place of a new model is free. */
  lemma {:induction false} ModelIsNew(r: Reader, t: Node, cfg: Merge.Config, c: string, key: string)
    requires IsView(r, t, cfg) && c in cfg.providers && key !in cfg.providers[c].models
    ensures Tabular(t, ModelPath(c, key)) && NodeAt(t, ModelPath(c, key)).None?
    ensures Vacant(t, ModelPath(c, key)) == Some(map[])
  {
    ProviderIsTabular(r, t, cfg, c, ["models", key]);
    var p := NodeAt(t, ProviderPath(c)).value;
    assert ModelPath(c, key) == ProviderPath(c) + ["models", key];
    NewInProvider(r, p, key);
    NodeAtOn(t, ProviderPath(c), ["models", key]);
    VacantNew(t, ModelPath(c, key));
  }

  lemma {:induction false} NewInProvider(r: Reader, p: Node, key: string)
    requires p.Dict? && ("models" in p.m ==> p.m["models"].Dict?) && key !in ModelsIn(r, p.m)
    ensures Tabular(p, ["models", key]) && NodeAt(p, ["models", key]).None?
  {
    var path := ["models", key];
    assert path[1..] == [key] && [key][1..] == [];
  }

  lemma {:induction false} PutModel(r: Reader, p: Node, key: string, n: Node)
    requires p.Dict? && ("models" in p.m ==> p.m["models"].Dict?)
    ensures var q := Put(p, ["models", key], n);
      && q.Dict? && "models" in q.m && q.m["models"].Dict?
      && ProviderOf(r, q.m) == ProviderOf(r, p.m).(models := ModelsIn(r, p.m)[key := ModelOf(r, n)])
  {
    var path := ["models", key];
    assert path[1..] == [key] && [key][1..] == [];
    var c := Child(p.m, "models");
    assert c.Dict? && Put(c, [key], n) == Dict(c.m[key := n], c.explicit);
    var q := Put(p, path, n);
    assert q == Dict(p.m["models" := Dict(c.m[key := n], c.explicit)], p.explicit);
    assert q.m - {"models"} == p.m - {"models"};
    assert ModelsIn(r, q.m) == ModelsIn(r, p.m)[key := ModelOf(r, n)];
  }

  lemma {:induction false} PathsApart(c: string, key: string, id: string)
    requires id != c
    ensures !(ModelPath(c, key) <= ProviderPath(id)) && !(ProviderPath(id) <= ModelPath(c, key))
  {
    assert ProviderPath(id)[2] == id && ModelPath(c, key)[2] == c;
  }

  lemma {:induction false} SitesApart(site: Merge.Site, id: string)
    ensures !(ProviderPath(id) <= RefPath(site)) && !(RefPath(site) <= ProviderPath(id))
  {
    var s := RefPath(site);
    assert s[0] == SitePath(site)[0];
    if site.Profile? {
      assert s[1] == "profiles" && ProviderPath(id)[1] == "providers";
    } else {
      assert s[0] != "llm" && ProviderPath(id)[0] == "llm";
    }
  }

  lemma {:induction false} SiteBesideModel(site: Merge.Site, c: string, key: string)
    ensures !(ModelPath(c, key) <= RefPath(site)) && !(RefPath(site) <= ModelPath(c, key))
  {
    SitesApart(site, c);
    var s, m := RefPath(site), ModelPath(c, key);
    assert m[..3] == ProviderPath(c);
    if site.Profile? {
      assert s[1] == "profiles" && m[1] == "providers";
    } else {
      assert s[0] == SitePath(site)[0] && s[0] != "llm" && m[0] == "llm";
    }
  }

  lemma {:induction false} AddView(r: Reader, repr: Repr, t: Node, cfg: Merge.Config, c: string, key: string, n: Node)
    requires IsView(r, t, cfg) && c in cfg.providers && key !in cfg.providers[c].models
    ensures var p := cfg.providers[c];
      IsView(r, Put(t, ModelPath(c, key), n), cfg.(providers := cfg.providers[c := p.(models := p.models[key := ModelOf(r, n)])]))
  {
    var path, after := ModelPath(c, key), Put(t, ModelPath(c, key), n);
    ModelIsNew(r, t, cfg, c, key);
    AddAt(r, t, cfg, c, key, n);
    forall id | id != c ensures NodeAt(after, ProviderPath(id)) == NodeAt(t, ProviderPath(id)) {
      PathsApart(c, key, id);
      PutElsewhere(t, path, n, ProviderPath(id));
    }
    forall site ensures RefAt(after, site) == RefAt(t, site) {
      SiteBesideModel(site, c, key);
      PutElsewhere(t, path, n, RefPath(site));
    }
    forall id ensures ProviderAt(r, after, id) ==
                      Lookup(cfg.providers[c := cfg.providers[c].(models := cfg.providers[c].models[key := ModelOf(r, n)])], id) {
      assert ProviderAt(r, t, id) == Lookup(cfg.providers, id);
    }
  }

  lemma {:induction false} AddAt(r: Reader, t: Node, cfg: Merge.Config, c: string, key: string, n: Node)
    requires IsView(r, t, cfg) && c in cfg.providers && Tabular(t, ModelPath(c, key))
    ensures var p, q := cfg.providers[c], NodeAt(Put(t, ModelPath(c, key), n), ProviderPath(c));
      && q.Some? && q.value.Dict? && "models" in q.value.m && q.value.m["models"].Dict?
      && ProviderOf(r, q.value.m) == p.(models := p.models[key := ModelOf(r, n)])
  {
    ProviderIsTabular(r, t, cfg, c, []);
    var path := ModelPath(c, key);
    assert ProviderPath(c) == path[..3] && path[3..] == ["models", key];
    PutAbove(t, path, n, ProviderPath(c));
    PutModel(r, NodeAt(t, ProviderPath(c)).value, key, n);
  }

  /** Appending a model, as text and as config. */
  lemma {:induction false} AddReads(r: Reader, repr: Repr, c: string, text: string, e: Change, cfg: Merge.Config)
    requires e.Add? && Parse(text).Some? && IsView(r, Parse(text).value, cfg) && Proper(c, cfg, e)
    requires EditText(repr, c, text, e).Some?
    ensures var s := EditText(repr, c, text, e).value;
      Parse(s).Some? && IsView(r, Parse(s).value, Changed(r, repr, c, cfg, e))
  {
    var t, path := Parse(text).value, ModelPath(c, e.key);
    ModelIsNew(r, t, cfg, c, e.key);
    Append.AppendStands(repr, text, path, e.values);
    AddView(r, repr, t, cfg, c, e.key, WrittenNode(repr, e.values));
  }

  // ---------- rewriting a reference ----------

  lemma {:induction false} RefPathsApart(a: Merge.Site, b: Merge.Site)
    requires a != b
    ensures !(RefPath(a) <= RefPath(b))
  {
    var p, q := RefPath(a), RefPath(b);
    assert p[0] == SitePath(a)[0] && q[0] == SitePath(b)[0];
    if a.Profile? && b.Profile? {
      assert p[2] == a.id && q[2] == b.id;
    }
  }

  lemma {:induction false} RewriteView(r: Reader, t: Node, cfg: Merge.Config, site: Merge.Site, loc: seq<Edits.Seg>, now: string)
    requires IsView(r, t, cfg) && site in cfg.sites && Strip(Folded(now)) == now
    requires Edits.HasLeaf(t, loc) && Edits.Keys(loc) == RefPath(site)
    ensures IsView(r, Edits.SetLeaf(t, loc, Str(Folded(now))), cfg.(sites := cfg.sites[site := now]))
  {
    var v := Str(Folded(now));
    var after := Edits.SetLeaf(t, loc, v);
    assert RefAt(t, site) == Lookup(cfg.sites, site);
    SetAt(t, loc, RefPath(site), v, []);
    forall id ensures NodeAt(after, ProviderPath(id)) == NodeAt(t, ProviderPath(id)) {
      SitesApart(site, id);
      SetAt(t, loc, RefPath(site), v, ProviderPath(id));
    }
    forall other ensures RefAt(after, other) == Lookup(cfg.sites[site := now], other) {
      assert RefAt(t, other) == Lookup(cfg.sites, other);
      if other != site {
        RefPathsApart(other, site);
        SetAt(t, loc, RefPath(site), v, RefPath(other));
      }
    }
    forall id ensures ProviderAt(r, after, id) == Lookup(cfg.providers, id) {
      assert ProviderAt(r, t, id) == Lookup(cfg.providers, id);
    }
  }

  lemma {:induction false} RewriteReads(r: Reader, repr: Repr, c: string, text: string, e: Change, cfg: Merge.Config)
    requires e.Rewrite? && Parse(text).Some? && IsView(r, Parse(text).value, cfg) && Proper(c, cfg, e)
    requires EditText(repr, c, text, e).Some?
    ensures var s := EditText(repr, c, text, e).value;
      Parse(s).Some? && IsView(r, Parse(s).value, Changed(r, repr, c, cfg, e))
  {
    var lines := SplitLines(text);
    var matches := Replace.MatchList(lines, SitePath(e.site), Replace.Assigns(SiteKey(e.site)), |lines|);
    Replace.MatchListIn(lines, SitePath(e.site), Replace.Assigns(SiteKey(e.site)), |lines|, matches[0]);
    Replace.ReplacementReads(text, matches[0], SitePath(e.site), SiteKey(e.site), Text(e.now));
    var t, s := Parse(text).value, EditText(repr, c, text, e).value;
    var loc :| Edits.Keys(loc) == SitePath(e.site) + [SiteKey(e.site)] && Edits.HasLeaf(t, loc) &&
               Parse(s).value == Edits.SetLeaf(t, loc, Str(Folded(e.now)));
    RewriteView(r, t, cfg, e.site, loc, e.now);
  }

  // ---------- dropping a Provider ----------

  lemma {:induction false} DropView(r: Reader, t: Node, cfg: Merge.Config, id: string)
    requires IsView(r, t, cfg) && id in cfg.providers
    ensures IsView(r, Edits.Prune(t, ProviderPath(id)), cfg.(providers := cfg.providers - {id}))
  {
    var path, after := ProviderPath(id), Edits.Prune(t, ProviderPath(id));
    ProviderIsTabular(r, t, cfg, id, []);
    assert path + [] == path;
    PruneGone(t, path);
    forall other | other != id ensures NodeAt(after, ProviderPath(other)) == NodeAt(t, ProviderPath(other)) {
      assert ProviderPath(other)[2] != path[2];
      PruneElsewhere(t, path, ProviderPath(other));
    }
    forall site ensures RefAt(after, site) == RefAt(t, site) {
      SitesApart(site, id);
      PruneElsewhere(t, path, RefPath(site));
    }
    forall other ensures ProviderAt(r, after, other) == Lookup(cfg.providers - {id}, other) {
      assert ProviderAt(r, t, other) == Lookup(cfg.providers, other);
    }
  }

  lemma {:induction false} DropReads(r: Reader, repr: Repr, c: string, text: string, e: Change, cfg: Merge.Config)
    requires e.Drop? && Parse(text).Some? && IsView(r, Parse(text).value, cfg) && Proper(c, cfg, e)
    requires EditText(repr, c, text, e).Some?
    ensures var s := EditText(repr, c, text, e).value;
      Parse(s).Some? && IsView(r, Parse(s).value, Changed(r, repr, c, cfg, e))
  {
    Remove.RemovalPrunes(text, ProviderPath(e.id));
    DropView(r, Parse(text).value, cfg, e.id);
  }

  lemma {:induction false} ChangeReads(r: Reader, repr: Repr, c: string, text: string, e: Change, cfg: Merge.Config)
    requires Parse(text).Some? && IsView(r, Parse(text).value, cfg) && Proper(c, cfg, e) && EditText(repr, c, text, e).Some?
    ensures var s := EditText(repr, c, text, e).value;
      Parse(s).Some? && IsView(r, Parse(s).value, Changed(r, repr, c, cfg, e))
  {
    match e
    case Add(_, _) => AddReads(r, repr, c, text, e, cfg);
    case Rewrite(_, _, _) => RewriteReads(r, repr, c, text, e, cfg);
    case Drop(_) => DropReads(r, repr, c, text, e, cfg);
  }

  // ---------- all edits ----------

  /** The text behind a series of edits; None where one of them raises. */
  function EditAll(repr: Repr, c: string, text: string, changes: seq<Change>): Option<string> {
    if changes == [] then Some(text)
    else
      var s := EditAll(repr, c, text, Front(changes));
      if s.None? then None else EditText(repr, c, s.value, Last(changes))
  }

  function ChangeAll(r: Reader, repr: Repr, c: string, cfg: Merge.Config, changes: seq<Change>): (after: Merge.Config)
    requires c in cfg.providers && forall i :: 0 <= i < |changes| ==> changes[i] != Drop(c)
    ensures c in after.providers
  {
    if changes == [] then cfg else Changed(r, repr, c, ChangeAll(r, repr, c, cfg, Front(changes)), Last(changes))
  }

  predicate AllProper(r: Reader, repr: Repr, c: string, cfg: Merge.Config, changes: seq<Change>)
    requires c in cfg.providers && forall i :: 0 <= i < |changes| ==> changes[i] != Drop(c)
  {
    changes == [] || (AllProper(r, repr, c, cfg, Front(changes)) &&
                      Proper(c, ChangeAll(r, repr, c, cfg, Front(changes)), Last(changes)))
  }

  lemma {:induction false} EditAllMore(repr: Repr, c: string, text: string, a: seq<Change>, e: Change)
    ensures EditAll(repr, c, text, a + [e]) ==
            (var s := EditAll(repr, c, text, a); if s.None? then None else EditText(repr, c, s.value, e))
  {
    assert Front(a + [e]) == a && Last(a + [e]) == e;
  }

  lemma {:induction false} EditAllAppend(repr: Repr, c: string, text: string, a: seq<Change>, b: seq<Change>)
    ensures EditAll(repr, c, text, a + b) ==
            (var s := EditAll(repr, c, text, a); if s.None? then None else EditAll(repr, c, s.value, b))
  {
    if b == [] {
      assert a + b == a;
    } else {
      EditAllAppend(repr, c, text, a, Front(b));
      assert Front(a + b) == a + Front(b) && Last(a + b) == Last(b);
    }
  }

  /** What the edited text reads as. */
  lemma {:induction false} EditsRead(r: Reader, repr: Repr, c: string, text: string, changes: seq<Change>, cfg: Merge.Config)
    requires Parse(text).Some? && IsView(r, Parse(text).value, cfg) && EditAll(repr, c, text, changes).Some?
    requires c in cfg.providers && forall i :: 0 <= i < |changes| ==> changes[i] != Drop(c)
    requires AllProper(r, repr, c, cfg, changes)
    ensures var s := EditAll(repr, c, text, changes).value;
      Parse(s).Some? && IsView(r, Parse(s).value, ChangeAll(r, repr, c, cfg, changes))
  {
    if changes != [] {
      EditsRead(r, repr, c, text, Front(changes), cfg);
      ChangeReads(r, repr, c, EditAll(repr, c, text, Front(changes)).value, Last(changes), ChangeAll(r, repr, c, cfg, Front(changes)));
    }
  }

  // ---------- the source's function ----------

  /** A model to add, and a place of the source config with its stripped reference. */
  datatype Added = Added(key: string, values: seq<Item>)

  datatype Place = Place(site: Merge.Site, ref: string)

  function Adds(added: seq<Added>): seq<Change> {
    if added == [] then [] else Adds(Front(added)) + [Add(Last(added).key, Last(added).values)]
  }

  function Rewrites(places: seq<Place>, refs: Merge.RefMap): seq<Change> {
    if places == [] then []
    else
      var p := Last(places);
      Rewrites(Front(places), refs) + (if p.ref in refs then [Rewrite(p.site, p.ref, refs[p.ref])] else [])
  }

  function Drops(ids: seq<string>): seq<Change> {
    if ids == [] then [] else Drops(Front(ids)) + [Drop(Last(ids))]
  }

  function AllChanges(added: seq<Added>, places: seq<Place>, refs: Merge.RefMap, ids: seq<string>): seq<Change> {
    Adds(added) + Rewrites(places, refs) + Drops(ids)
  }

  /** An edit leaves a text that can be read. */
  lemma {:induction false} EditParses(repr: Repr, c: string, text: string, e: Change)
    requires EditText(repr, c, text, e).Some?
    ensures Parse(text).Some? && Parse(EditText(repr, c, text, e).value).Some?
  {
    match e
    case Add(key, values) => AddParses(repr, c, text, key, values);
    case Rewrite(site, was, now) => RewriteParses(repr, c, text, site, was, now);
    case Drop(id) => DropParses(repr, c, text, id);
  }

  lemma {:induction false} AddParses(repr: Repr, c: string, text: string, key: string, values: seq<Item>)
    requires EditText(repr, c, text, Add(key, values)).Some?
    ensures Parse(text).Some? && Parse(EditText(repr, c, text, Add(key, values)).value).Some?
  {
    LoweredAreShaped(repr, values);
    Append.AppendedReads(text, ModelPath(c, key), LoweredEntries(repr, values));
  }

  lemma {:induction false} DropParses(repr: Repr, c: string, text: string, id: string)
    requires EditText(repr, c, text, Drop(id)).Some?
    ensures Parse(text).Some? && Parse(EditText(repr, c, text, Drop(id)).value).Some?
  {
    Remove.LeftoverReads(text, ProviderPath(id));
  }

  lemma {:induction false} RewriteParses(repr: Repr, c: string, text: string, site: Merge.Site, was: string, now: string)
    requires EditText(repr, c, text, Rewrite(site, was, now)).Some?
    ensures Parse(text).Some? && Parse(EditText(repr, c, text, Rewrite(site, was, now)).value).Some?
  {
    RewriteIs(repr, c, text, site, was, now);
    var lines := SplitLines(text);
    var matches := Replace.MatchList(lines, SitePath(site), Replace.Assigns(SiteKey(site)), |lines|);
    Replace.MatchListIn(lines, SitePath(site), Replace.Assigns(SiteKey(site)), |lines|, matches[0]);
    Replace.ReplacementReads(text, matches[0], SitePath(site), SiteKey(site), Text(now));
  }

  lemma {:induction false} EditsParse(repr: Repr, c: string, text: string, changes: seq<Change>)
    requires EditAll(repr, c, text, changes).Some?
    ensures Parse(text).Some? <==> Parse(EditAll(repr, c, text, changes).value).Some?
  {
    if changes != [] {
      EditsParse(repr, c, text, Front(changes));
      EditParses(repr, c, EditAll(repr, c, text, Front(changes)).value, Last(changes));
    }
  }

  // ---------- its loops ----------

  lemma {:induction false} AddsStop(repr: Repr, c: string, text: string, added: seq<Added>, n: nat)
    requires n <= |added| && EditAll(repr, c, text, Adds(added[..n])).None?
    ensures EditAll(repr, c, text, Adds(added)).None?
    decreases |added|
  {
    if n == |added| {
      assert added[..n] == added;
    } else {
      assert Front(added)[..n] == added[..n];
      AddsStop(repr, c, text, Front(added), n);
      EditAllMore(repr, c, text, Adds(Front(added)), Add(Last(added).key, Last(added).values));
    }
  }

  lemma {:induction false} AddsMore(repr: Repr, c: string, text: string, added: seq<Added>, i: nat, candidate: string)
    requires i < |added| && EditAll(repr, c, text, Adds(added[..i])) == Some(candidate)
    ensures EditAll(repr, c, text, Adds(added[..i + 1])) == EditText(repr, c, candidate, Add(added[i].key, added[i].values))
  {
    Prefix(added, i);
    EditAllMore(repr, c, text, Adds(added[..i]), Add(added[i].key, added[i].values));
  }

  /** `_verification_text` */
  method VerificationText(repr: Repr, text: string, c: string, added: seq<Added>) returns (r: Result<string, Remove.PatchError>)
    ensures r.Ok? <==> Parse(text).Some? && EditAll(repr, c, text, Adds(added)).Some?
    ensures r.Ok? ==> r.value == EditAll(repr, c, text, Adds(added)).value && Parse(r.value).Some?
  {
    var candidate := text;
    for i := 0 to |added|
      invariant EditAll(repr, c, text, Adds(added[..i])) == Some(candidate)
    {
      AddsMore(repr, c, text, added, i, candidate);
      var s := Append.AppendTomlTable(repr, candidate, ModelPath(c, added[i].key), added[i].values);
      if s.Err? {
        AddsStop(repr, c, text, added, i + 1);
        return s;
      }
      candidate := s.value;
    }
    assert added[..|added|] == added;
    EditsParse(repr, c, text, Adds(added));
    if Parse(candidate).None? {
      return Err(Remove.NotToml);
    }
    return Ok(candidate);
  }

  lemma {:induction false} RewritesStop(repr: Repr, c: string, text: string, places: seq<Place>, refs: Merge.RefMap, n: nat)
    requires n <= |places| && EditAll(repr, c, text, Rewrites(places[..n], refs)).None?
    ensures EditAll(repr, c, text, Rewrites(places, refs)).None?
    decreases |places|
  {
    if n == |places| {
      assert places[..n] == places;
    } else {
      assert Front(places)[..n] == places[..n];
      RewritesStop(repr, c, text, Front(places), refs, n);
      var p := Last(places);
      if p.ref in refs {
        EditAllMore(repr, c, text, Rewrites(Front(places), refs), Rewrite(p.site, p.ref, refs[p.ref]));
      } else {
        assert Rewrites(places, refs) == Rewrites(Front(places), refs);
      }
    }
  }

  lemma {:induction false} RewritesMore(repr: Repr, c: string, text: string, places: seq<Place>, refs: Merge.RefMap, i: nat,
                                        candidate: string)
    requires i < |places| && EditAll(repr, c, text, Rewrites(places[..i], refs)) == Some(candidate)
    ensures EditAll(repr, c, text, Rewrites(places[..i + 1], refs)) ==
            if places[i].ref in refs then EditText(repr, c, candidate, Rewrite(places[i].site, places[i].ref, refs[places[i].ref]))
            else Some(candidate)
  {
    var p := places[i];
    Prefix(places, i);
    if p.ref in refs {
      EditAllMore(repr, c, text, Rewrites(places[..i], refs), Rewrite(p.site, p.ref, refs[p.ref]));
    } else {
      assert Rewrites(places[..i + 1], refs) == Rewrites(places[..i], refs);
    }
  }

  lemma {:induction false} RewriteIs(repr: Repr, c: string, text: string, site: Merge.Site, was: string, now: string)
    requires Parse(text).Some?
    ensures var lines := SplitLines(text);
      var matches := Replace.MatchList(lines, SitePath(site), Replace.Assigns(SiteKey(site)), |lines|);
      EditText(repr, c, text, Rewrite(site, was, now)) ==
      if !Replace.CanReplace(lines, matches, Reads(was), Text(now)) then None
      else Some(Concat(lines[matches[0] := Replace.NewLine(lines[matches[0]], Text(now))]))
  {
  }

  method RewriteOne(repr: Repr, text: string, ghost c: string, site: Merge.Site, was: string, now: string)
    returns (r: Result<string, Remove.PatchError>)
    requires Parse(text).Some?
    ensures r.Ok? <==> EditText(repr, c, text, Rewrite(site, was, now)).Some?
    ensures r.Ok? ==> r.value == EditText(repr, c, text, Rewrite(site, was, now)).value && Parse(r.value).Some?
  {
    r := Replace.ReplaceTomlScalar(repr, text, SitePath(site), SiteKey(site), Reads(was), String(now));
    RewriteIs(repr, c, text, site, was, now);
    if r.Ok? {
      SameCandidate(r.value);
    }
  }

  /** `_public_reference_patches` */
  method ReferencePatches(repr: Repr, text: string, ghost c: string, places: seq<Place>, refs: Merge.RefMap)
    returns (r: Result<string, Remove.PatchError>)
    requires Parse(text).Some?
    ensures r.Ok? <==> EditAll(repr, c, text, Rewrites(places, refs)).Some?
    ensures r.Ok? ==> r.value == EditAll(repr, c, text, Rewrites(places, refs)).value
  {
    var candidate := text;
    for i := 0 to |places|
      invariant EditAll(repr, c, text, Rewrites(places[..i], refs)) == Some(candidate) && Parse(candidate).Some?
    {
      RewritesMore(repr, c, text, places, refs, i, candidate);
      var current := places[i].ref;
      if current in refs {
        var s := RewriteOne(repr, candidate, c, places[i].site, current, refs[current]);
        if s.Err? {
          RewritesStop(repr, c, text, places, refs, i + 1);
          return s;
        }
        candidate := s.value;
      }
    }
    assert places[..|places|] == places;
    return Ok(candidate);
  }

  lemma {:induction false} SameCandidate(text: string)
    ensures Concat(SplitLines(text)) == text
  {
  }

  lemma {:induction false} DropsStop(repr: Repr, c: string, text: string, ids: seq<string>, n: nat)
    requires n <= |ids| && EditAll(repr, c, text, Drops(ids[..n])).None?
    ensures EditAll(repr, c, text, Drops(ids)).None?
    decreases |ids|
  {
    if n == |ids| {
      assert ids[..n] == ids;
    } else {
      assert Front(ids)[..n] == ids[..n];
      DropsStop(repr, c, text, Front(ids), n);
      EditAllMore(repr, c, text, Drops(Front(ids)), Drop(Last(ids)));
    }
  }

  lemma {:induction false} DropsMore(repr: Repr, c: string, text: string, ids: seq<string>, i: nat, candidate: string)
    requires i < |ids| && EditAll(repr, c, text, Drops(ids[..i])) == Some(candidate)
    ensures EditAll(repr, c, text, Drops(ids[..i + 1])) == EditText(repr, c, candidate, Drop(ids[i]))
  {
    Prefix(ids, i);
    EditAllMore(repr, c, text, Drops(ids[..i]), Drop(ids[i]));
  }

  method RemoveProvider(repr: Repr, text: string, ghost c: string, id: string) returns (r: Result<string, Remove.PatchError>)
    requires Parse(text).Some?
    ensures r.Ok? <==> EditText(repr, c, text, Drop(id)).Some?
    ensures r.Ok? ==> r.value == EditText(repr, c, text, Drop(id)).value && Parse(r.value).Some?
  {
    r := Remove.RemoveTomlTableTree(text, ProviderPath(id));
  }

  method DropDuplicates(repr: Repr, text: string, ghost c: string, ids: seq<string>) returns (r: Result<string, Remove.PatchError>)
    requires Parse(text).Some?
    ensures r.Ok? <==> EditAll(repr, c, text, Drops(ids)).Some?
    ensures r.Ok? ==> r.value == EditAll(repr, c, text, Drops(ids)).value
  {
    var candidate := text;
    for i := 0 to |ids|
      invariant EditAll(repr, c, text, Drops(ids[..i])) == Some(candidate) && Parse(candidate).Some?
    {
      DropsMore(repr, c, text, ids, i, candidate);
      var s := RemoveProvider(repr, candidate, c, ids[i]);
      if s.Err? {
        DropsStop(repr, c, text, ids, i + 1);
        return s;
      }
      candidate := s.value;
    }
    assert ids[..|ids|] == ids;
    return Ok(candidate);
  }

  /** `_final_text`: it raises exactly where one of its edits does, or where the document cannot be read. */
  method FinalText(repr: Repr, text: string, c: string, added: seq<Added>, places: seq<Place>, refs: Merge.RefMap, ids: seq<string>)
    returns (r: Result<string, Remove.PatchError>)
    ensures r.Ok? <==> Parse(text).Some? && EditAll(repr, c, text, AllChanges(added, places, refs, ids)).Some?
    ensures r.Ok? ==> r.value == EditAll(repr, c, text, AllChanges(added, places, refs, ids)).value && Parse(r.value).Some?
  {
    EditAllAppend(repr, c, text, Adds(added) + Rewrites(places, refs), Drops(ids));
    EditAllAppend(repr, c, text, Adds(added), Rewrites(places, refs));
    r := VerificationText(repr, text, c, added);
    if r.Err? {
      return;
    }
    var verified := r.value;
    r := ReferencePatches(repr, verified, c, places, refs);
    if r.Err? {
      return;
    }
    var patched := r.value;
    EditsParse(repr, c, verified, Rewrites(places, refs));
    r := DropDuplicates(repr, patched, c, ids);
    if r.Err? {
      return;
    }
    EditsParse(repr, c, patched, Drops(ids));
    if Parse(r.value).None? {
      return Err(Remove.NotToml);
    }
  }

  // ---------- the edited text reads as the merged config ----------

  lemma {:induction false} AddsOnly(added: seq<Added>)
    ensures forall i :: 0 <= i < |Adds(added)| ==> Adds(added)[i].Add?
  {
    if added != [] {
      AddsOnly(Front(added));
    }
  }

  lemma {:induction false} RewritesOnly(places: seq<Place>, refs: Merge.RefMap)
    ensures forall i :: 0 <= i < |Rewrites(places, refs)| ==> Rewrites(places, refs)[i].Rewrite?
  {
    if places != [] {
      RewritesOnly(Front(places), refs);
    }
  }

  lemma {:induction false} DropsOnly(ids: seq<string>)
    ensures forall i :: 0 <= i < |Drops(ids)| ==> Drops(ids)[i].Drop? && Drops(ids)[i].id in ids
  {
    if ids != [] {
      DropsOnly(Front(ids));
      assert Last(ids) in ids && forall id :: id in Front(ids) ==> id in ids;
    }
  }

  predicate NeverDrops(c: string, changes: seq<Change>) {
    forall i :: 0 <= i < |changes| ==> changes[i] != Drop(c)
  }

  lemma {:induction false} ChangesAppend(r: Reader, repr: Repr, c: string, cfg: Merge.Config, a: seq<Change>, b: seq<Change>)
    requires c in cfg.providers && NeverDrops(c, a) && NeverDrops(c, b)
    ensures NeverDrops(c, a + b)
    ensures ChangeAll(r, repr, c, cfg, a + b) == ChangeAll(r, repr, c, ChangeAll(r, repr, c, cfg, a), b)
    ensures AllProper(r, repr, c, cfg, a + b) <==>
            AllProper(r, repr, c, cfg, a) && AllProper(r, repr, c, ChangeAll(r, repr, c, cfg, a), b)
  {
    if b == [] {
      assert a + b == a;
    } else {
      ChangesAppend(r, repr, c, cfg, a, Front(b));
      assert Front(a + b) == a + Front(b) && Last(a + b) == Last(b);
    }
  }

  /** The models that are added. */
  function AddedModels(r: Reader, repr: Repr, added: seq<Added>): Merge.Models {
    if added == [] then map[]
    else AddedModels(r, repr, Front(added))[Last(added).key := ModelOf(r, WrittenNode(repr, Last(added).values))]
  }

  predicate ProperAdd(c: string, models: Merge.Models, a: Added) {
    a.key !in models && CleanPath(ModelPath(c, a.key)) && DictEntries(a.values) && PlainEntries(a.values)
  }

  /** New clean keys, each added once, with plain dictionaries. */
  predicate ProperAdds(c: string, models: Merge.Models, added: seq<Added>) {
    && (forall i :: 0 <= i < |added| ==> ProperAdd(c, models, added[i]))
    && forall i, j :: 0 <= i < j < |added| ==> added[i].key != added[j].key
  }

  lemma {:induction false} AddedKeys(r: Reader, repr: Repr, added: seq<Added>, k: string)
    requires k in AddedModels(r, repr, added)
    ensures exists i :: 0 <= i < |added| && added[i].key == k
  {
    if Last(added).key == k {
      assert added[|added| - 1].key == k;
    } else {
      AddedKeys(r, repr, Front(added), k);
      var i :| 0 <= i < |Front(added)| && Front(added)[i].key == k;
      assert added[i].key == k;
    }
  }

  lemma {:induction false} KeyIsNew(r: Reader, repr: Repr, added: seq<Added>)
    requires added != [] && forall i, j :: 0 <= i < j < |added| ==> added[i].key != added[j].key
    ensures Last(added).key !in AddedModels(r, repr, Front(added))
  {
    if Last(added).key in AddedModels(r, repr, Front(added)) {
      AddedKeys(r, repr, Front(added), Last(added).key);
    }
  }

  lemma {:induction false} AddsChange(r: Reader, repr: Repr, c: string, cfg: Merge.Config, added: seq<Added>)
    requires c in cfg.providers && ProperAdds(c, cfg.providers[c].models, added)
    ensures NeverDrops(c, Adds(added)) && AllProper(r, repr, c, cfg, Adds(added))
    ensures var p := cfg.providers[c];
      ChangeAll(r, repr, c, cfg, Adds(added)) ==
      cfg.(providers := cfg.providers[c := p.(models := p.models + AddedModels(r, repr, added))])
  {
    var p := cfg.providers[c];
    AddsOnly(added);
    if added == [] {
      assert p.models + map[] == p.models && cfg.providers[c := p] == cfg.providers;
    } else {
      var front, a := Front(added), Last(added);
      AddsOnly(front);
      AddsChange(r, repr, c, cfg, front);
      assert added[|added| - 1] == a;
      KeyIsNew(r, repr, added);
      OneMoreModel(r, repr, c, cfg, AddedModels(r, repr, front), a);
      assert Front(Adds(added)) == Adds(front) && Last(Adds(added)) == Add(a.key, a.values);
    }
  }

  lemma {:induction false} OneMoreModel(r: Reader, repr: Repr, c: string, cfg: Merge.Config, models: Merge.Models, a: Added)
    requires c in cfg.providers && ProperAdd(c, cfg.providers[c].models, a) && a.key !in models
    ensures var p := cfg.providers[c];
      var before := cfg.(providers := cfg.providers[c := p.(models := p.models + models)]);
      && Proper(c, before, Add(a.key, a.values))
      && Changed(r, repr, c, before, Add(a.key, a.values)) ==
         cfg.(providers := cfg.providers[c := p.(models := p.models + models[a.key := ModelOf(r, WrittenNode(repr, a.values))])])
  {
    var p := cfg.providers[c];
    var n := ModelOf(r, WrittenNode(repr, a.values));
    assert (p.models + models)[a.key := n] == p.models + models[a.key := n];
    OverwriteTwice(cfg.providers, c, p.(models := p.models + models), p.(models := p.models + models[a.key := n]));
  }

  lemma {:induction false} OverwriteTwice<K, V>(m: map<K, V>, k: K, x: V, y: V)
    ensures m[k := x][k := y] == m[k := y]
  {
  }

  /** These places have these references; the new references are stripped and clean. */
  predicate ProperPlaces(places: seq<Place>, sites: map<Merge.Site, string>, refs: Merge.RefMap) {
    && (forall i :: 0 <= i < |places| ==> places[i].site in sites && sites[places[i].site] == places[i].ref)
    && forall ref :: ref in refs ==> Strip(Folded(refs[ref])) == refs[ref]
  }

  /** The sites with the listed places rewritten. */
  function Rewritten(sites: map<Merge.Site, string>, places: seq<Place>, refs: Merge.RefMap): map<Merge.Site, string> {
    if places == [] then sites
    else
      var s, p := Rewritten(sites, Front(places), refs), Last(places);
      if p.ref in refs then s[p.site := refs[p.ref]] else s
  }

  lemma {:induction false} RewritesChange(r: Reader, repr: Repr, c: string, cfg: Merge.Config, places: seq<Place>, refs: Merge.RefMap)
    requires c in cfg.providers && ProperPlaces(places, cfg.sites, refs)
    ensures NeverDrops(c, Rewrites(places, refs)) && AllProper(r, repr, c, cfg, Rewrites(places, refs))
    ensures ChangeAll(r, repr, c, cfg, Rewrites(places, refs)) == cfg.(sites := Rewritten(cfg.sites, places, refs))
    ensures Rewritten(cfg.sites, places, refs).Keys == cfg.sites.Keys
  {
    RewritesOnly(places, refs);
    if places != [] {
      var front, p := Front(places), Last(places);
      RewritesOnly(front, refs);
      assert places[|places| - 1] == p;
      RewritesChange(r, repr, c, cfg, front, refs);
      RewritesLast(places, refs);
      if p.ref in refs {
        assert p.site in Rewritten(cfg.sites, front, refs).Keys;
      }
    }
  }

  lemma {:induction false} RewritesLast(places: seq<Place>, refs: Merge.RefMap)
    requires places != []
    ensures var p := Last(places); var all := Rewrites(places, refs);
      if p.ref in refs then all != [] && Front(all) == Rewrites(Front(places), refs) && Last(all) == Rewrite(p.site, p.ref, refs[p.ref])
      else all == Rewrites(Front(places), refs)
  {
  }

  lemma {:induction false} RewrittenAt(sites: map<Merge.Site, string>, places: seq<Place>, refs: Merge.RefMap, site: Merge.Site)
    requires ProperPlaces(places, sites, refs) && site in sites
    ensures site in Rewritten(sites, places, refs)
    ensures Rewritten(sites, places, refs)[site] ==
            if Place(site, sites[site]) in places && sites[site] in refs then refs[sites[site]] else sites[site]
  {
    if places != [] {
      var p := Last(places);
      assert places[|places| - 1] == p;
      RewrittenAt(sites, Front(places), refs, site);
      assert Place(site, sites[site]) in places <==> Place(site, sites[site]) in Front(places) || Place(site, sites[site]) == p;
    }
  }

  lemma {:induction false} DropsChange(r: Reader, repr: Repr, c: string, cfg: Merge.Config, ids: seq<string>)
    requires c in cfg.providers && c !in ids && forall i :: 0 <= i < |ids| ==> ids[i] in cfg.providers
    requires forall i, j :: 0 <= i < j < |ids| ==> ids[i] != ids[j]
    ensures NeverDrops(c, Drops(ids)) && AllProper(r, repr, c, cfg, Drops(ids))
    ensures ChangeAll(r, repr, c, cfg, Drops(ids)) == cfg.(providers := cfg.providers - (set id | id in ids))
  {
    DropsOnly(ids);
    if ids == [] {
      assert cfg.providers - (set id | id in ids) == cfg.providers;
    } else {
      var front, id := Front(ids), Last(ids);
      DropsOnly(front);
      FrontAndLast(ids);
      DropsChange(r, repr, c, cfg, front);
      DropOne(cfg.providers, front, id, ids);
      LastChange(r, repr, c, cfg, Drops(front), Drop(id));
    }
  }

  lemma {:induction false} FrontAndLast(ids: seq<string>)
    requires ids != [] && forall i, j :: 0 <= i < j < |ids| ==> ids[i] != ids[j]
    ensures ids == Front(ids) + [Last(ids)] && Last(ids) in ids && Last(ids) !in Front(ids)
    ensures forall i :: 0 <= i < |Front(ids)| ==> Front(ids)[i] == ids[i]
  {
  }

  lemma {:induction false} LastChange(r: Reader, repr: Repr, c: string, cfg: Merge.Config, front: seq<Change>, e: Change)
    requires c in cfg.providers && NeverDrops(c, front) && e != Drop(c) && AllProper(r, repr, c, cfg, front)
    requires Proper(c, ChangeAll(r, repr, c, cfg, front), e)
    ensures NeverDrops(c, front + [e]) && AllProper(r, repr, c, cfg, front + [e])
    ensures ChangeAll(r, repr, c, cfg, front + [e]) == Changed(r, repr, c, ChangeAll(r, repr, c, cfg, front), e)
  {
    assert Front(front + [e]) == front;
  }

  lemma {:induction false} DropOne(m: Merge.Registry, front: seq<string>, id: string, ids: seq<string>)
    requires ids == front + [id] && id !in front && id in m
    ensures m - (set x | x in ids) == (m - (set x | x in front)) - {id} && id in m - (set x | x in front)
  {
    assert (set x | x in ids) == (set x | x in front) + {id};
  }

  /** The preview, with the models that are added as the text holds them. */
  function Written(r: Reader, repr: Repr, p: Merge.Preview, added: seq<Added>): Merge.Preview {
    p.(added := AddedModels(r, repr, added))
  }

  /** The lists that `_final_text` goes through name the config's places and Providers. */
  ghost predicate Lists(cfg: Merge.Config, p: Merge.Preview, added: seq<Added>, places: seq<Place>, ids: seq<string>) {
    && p.canonicalId in cfg.providers && p.canonicalId !in ids
    && ProperAdds(p.canonicalId, cfg.providers[p.canonicalId].models, added)
    && ProperPlaces(places, cfg.sites, p.refs)
    && (forall site :: site in cfg.sites && cfg.sites[site] in p.refs ==> Place(site, cfg.sites[site]) in places)
    && p.duplicates == (set id | id in ids) && p.duplicates <= cfg.providers.Keys
    && forall i, j :: 0 <= i < j < |ids| ==> ids[i] != ids[j]
  }

  /** All edits together are the merge. */
  lemma {:induction false} ChangesAreMerged(r: Reader, repr: Repr, cfg: Merge.Config, p: Merge.Preview, added: seq<Added>,
                                            places: seq<Place>, ids: seq<string>)
    requires Lists(cfg, p, added, places, ids)
    ensures var changes := AllChanges(added, places, p.refs, ids);
      && NeverDrops(p.canonicalId, changes) && AllProper(r, repr, p.canonicalId, cfg, changes)
      && ChangeAll(r, repr, p.canonicalId, cfg, changes) == Merge.Merged(cfg, Written(r, repr, p, added))
  {
    var c := p.canonicalId;
    AddsChange(r, repr, c, cfg, added);
    var grown := ChangeAll(r, repr, c, cfg, Adds(added));
    RewritesChange(r, repr, c, grown, places, p.refs);
    var moved := ChangeAll(r, repr, c, grown, Rewrites(places, p.refs));
    assert forall i :: 0 <= i < |ids| ==> ids[i] in p.duplicates;
    DropsChange(r, repr, c, moved, ids);
    ChangesAppend(r, repr, c, cfg, Adds(added), Rewrites(places, p.refs));
    ChangesAppend(r, repr, c, cfg, Adds(added) + Rewrites(places, p.refs), Drops(ids));
    SitesAreMerged(cfg, p, places);
    DropOrChange(cfg.providers, c, grown.providers[c], p.duplicates);
  }

  lemma {:induction false} DropOrChange(m: Merge.Registry, c: string, x: Merge.Provider, ids: set<string>)
    requires c !in ids
    ensures m[c := x] - ids == (m - ids)[c := x]
  {
  }

  lemma {:induction false} SitesAreMerged(cfg: Merge.Config, p: Merge.Preview, places: seq<Place>)
    requires p.canonicalId in cfg.providers && ProperPlaces(places, cfg.sites, p.refs)
    requires forall site :: site in cfg.sites && cfg.sites[site] in p.refs ==> Place(site, cfg.sites[site]) in places
    requires Rewritten(cfg.sites, places, p.refs).Keys == cfg.sites.Keys
    ensures Rewritten(cfg.sites, places, p.refs) == Merge.Merged(cfg, p).sites
  {
    forall site | site in cfg.sites
      ensures site in Rewritten(cfg.sites, places, p.refs)
      ensures Rewritten(cfg.sites, places, p.refs)[site] == Merge.Merged(cfg, p).sites[site]
    {
      RewrittenAt(cfg.sites, places, p.refs, site);
    }
  }

  /** The text of a merge reads as the merged config, with the added models as they were written. */
  lemma {:induction false} FinalReads(r: Reader, repr: Repr, text: string, cfg: Merge.Config, p: Merge.Preview, added: seq<Added>,
                                      places: seq<Place>, ids: seq<string>, s: string)
    requires Parse(text).Some? && IsView(r, Parse(text).value, cfg) && Lists(cfg, p, added, places, ids)
    requires EditAll(repr, p.canonicalId, text, AllChanges(added, places, p.refs, ids)) == Some(s)
    ensures Parse(s).Some? && IsView(r, Parse(s).value, Merge.Merged(cfg, Written(r, repr, p, added)))
    ensures Merge.MergedFits(cfg, Written(r, repr, p, added), Merge.Merged(cfg, Written(r, repr, p, added)))
  {
    Merge.MergedExactly(cfg, Written(r, repr, p, added), Merge.Merged(cfg, Written(r, repr, p, added)));
    ChangesAreMerged(r, repr, cfg, p, added, places, ids);
    EditsRead(r, repr, p.canonicalId, text, AllChanges(added, places, p.refs, ids), cfg);
  }
}
