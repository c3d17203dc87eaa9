/**
  The models that a Provider merge moves, through the writer: each is read from the duplicate's table, written by
  `append_toml_table` and read again.  Which of them come back whole, and that their upstream ids do.
 */
module MergeModels {
  import opened Text
  import opened Wrappers
  import opened TomlLexer
  import opened TomlSyntax
  import opened TomlWriter
  import opened TomlScalars
  import opened TomlRoundTrip
  import opened TomlObjects
  import opened TomlFolded
  import opened TomlFaithful
  import opened MergeText
  import Append = TomlAppend
  import Merge = ProviderMerge

  // ---------- reading a table ----------

  /** Two nodes that stand for one object are read alike. */
  predicate ReadAlike(r: Reader, n: Node, k: Node, o: Object) {
    Stands(n, o) && Stands(k, o) ==> r.upstream(Some(n)) == r.upstream(Some(k)) && (n.Dict? && k.Dict? ==> r.body(n.m) == r.body(k.m))
  }

  /** The reader sees what `tomllib` returns, and an upstream id that is a string is stripped. */
  ghost predicate ReadsObjects(r: Reader) {
    (forall n, k, o :: ReadAlike(r, n, k, o)) && forall s :: r.upstream(Some(Leaf(Str(s)))) == Strip(s)
  }

  /** The table's `upstream_id` comes back: it is kept by the writer, or its line breaks are at its ends. */
  predicate UpstreamKept(values: seq<Item>) {
    exists i :: 0 <= i < |values| && values[i].key == "upstream_id" && FieldKept(values[i].value)
  }

  predicate FieldKept(o: Object) {
    Survives(o) || (o.String? && Strip(Folded(o.s)) == Strip(o.s))
  }

  lemma {:induction false} WrittenField(repr: Repr, values: seq<Item>, i: nat)
    requires i < |values| && DictEntries(values) && PlainEntries(values)
    requires LegibleEntries(FoldedEntries(LoweredEntries(repr, values)))
    ensures var m := WrittenNode(repr, values).m;
      values[i].key in m && m[values[i].key] == NodeOf(WrittenOf(repr, values[i].value)) && Legible(WrittenOf(repr, values[i].value))
  {
    var written := FoldedEntries(LoweredEntries(repr, values));
    LoweredAt(repr, values);
    FoldedAt(LoweredEntries(repr, values));
    SameKeysWritten(values, written);
    MapAt(written);
    assert Legible(written[i].value);
  }

  /** A model that the duplicate's table stands for, written and read again. */
  lemma {:induction false} ModelWritten(r: Reader, repr: Repr, n: Node, values: seq<Item>)
    requires ReadsObjects(r) && Stands(n, Mapping(values)) && DictEntries(values) && PlainEntries(values)
    requires LegibleEntries(FoldedEntries(LoweredEntries(repr, values)))
    ensures Stands(WrittenNode(repr, values), Mapping(values)) <==> KeptEntries(values)
    ensures KeptEntries(values) && UpstreamKept(values) ==> ModelOf(r, WrittenNode(repr, values)) == ModelOf(r, n)
    ensures UpstreamKept(values) ==> ModelOf(r, WrittenNode(repr, values)).upstreamId == ModelOf(r, n).upstreamId
  {
    var w := WrittenNode(repr, values);
    EntriesExactly(repr, values);
    if KeptEntries(values) {
      assert ReadAlike(r, w, n, Mapping(values));
    }
    if UpstreamKept(values) {
      var i :| 0 <= i < |values| && values[i].key == "upstream_id" && FieldKept(values[i].value);
      WrittenField(repr, values, i);
      FieldWritten(r, repr, n.m["upstream_id"], values[i].value);
    }
  }

  lemma {:induction false} FieldWritten(r: Reader, repr: Repr, n: Node, o: Object)
    requires ReadsObjects(r) && Stands(n, o) && Dicts(o) && PlainKeys(o) && Legible(WrittenOf(repr, o)) && FieldKept(o)
    ensures r.upstream(Some(NodeOf(WrittenOf(repr, o)))) == r.upstream(Some(n))
  {
    if Survives(o) {
      StandsExactly(repr, o);
      assert ReadAlike(r, NodeOf(WrittenOf(repr, o)), n, o);
    }
  }

  /** An upstream id that is a string comes back if and only if folding its line breaks changes at most its ends. */
  lemma {:induction false} UpstreamExactly(r: Reader, repr: Repr, n: Node, values: seq<Item>, i: nat)
    requires ReadsObjects(r) && Stands(n, Mapping(values)) && DictEntries(values) && PlainEntries(values)
    requires LegibleEntries(FoldedEntries(LoweredEntries(repr, values)))
    requires i < |values| && values[i].key == "upstream_id" && values[i].value.String?
    ensures ModelOf(r, WrittenNode(repr, values)).upstreamId == ModelOf(r, n).upstreamId <==>
            Strip(Folded(values[i].value.s)) == Strip(values[i].value.s)
  {
    WrittenField(repr, values, i);
    assert n.m["upstream_id"] == Leaf(Str(values[i].value.s));
  }

  // ---------- the models of a merge ----------

  /** Where an added model was: a model of a duplicate. */
  datatype Source = Source(id: string, key: string)

  /** The preview adds models of the duplicates, and `values` is what `tomllib` returns for their tables. */
  ghost predicate Sourced(t: Node, cfg: Merge.Config, p: Merge.Preview, added: seq<Added>, from: seq<Source>) {
    && |from| == |added| && (forall k :: k in p.added <==> exists i :: 0 <= i < |added| && added[i].key == k)
    && forall i :: 0 <= i < |added| ==> Comes(t, cfg, p, added[i], from[i])
  }

  predicate Comes(t: Node, cfg: Merge.Config, p: Merge.Preview, a: Added, s: Source) {
    && a.key in p.added && s.id in cfg.providers && s.key in cfg.providers[s.id].models
    && p.added[a.key] == cfg.providers[s.id].models[s.key]
    && var n := NodeAt(t, ModelPath(s.id, s.key)); n.Some? && Stands(n.value, Mapping(a.values))
  }

  /** Each model that a preview adds has such a place. */
  lemma {:induction false} SourceOf(r: Reader, t: Node, cfg: Merge.Config, p: Merge.Preview, k: string) returns (s: Source)
    requires IsView(r, t, cfg) && Merge.AllTaken(cfg.providers, p.duplicates, p.added) && k in p.added
    ensures s.id in p.duplicates && s.id in cfg.providers && s.key in cfg.providers[s.id].models
    ensures p.added[k] == cfg.providers[s.id].models[s.key] && NodeAt(t, ModelPath(s.id, s.key)).Some?
  {
    assert Merge.Taken(cfg.providers, p.duplicates, p.added[k]);
    var id :| id in p.duplicates && id in cfg.providers && Merge.From(p.added[k], cfg.providers[id].models);
    var key :| key in cfg.providers[id].models && cfg.providers[id].models[key] == p.added[k];
    s := Source(id, key);
    SourceRead(r, t, cfg, id, key);
  }

  lemma {:induction false} SourceRead(r: Reader, t: Node, cfg: Merge.Config, id: string, key: string)
    requires IsView(r, t, cfg) && id in cfg.providers && key in cfg.providers[id].models
    ensures NodeAt(t, ModelPath(id, key)).Some? && cfg.providers[id].models[key] == ModelOf(r, NodeAt(t, ModelPath(id, key)).value)
  {
    ProviderIsTabular(r, t, cfg, id, []);
    assert ModelPath(id, key) == ProviderPath(id) + ["models", key];
    NodeAtOn(t, ProviderPath(id), ["models", key]);
    InProvider(r, NodeAt(t, ProviderPath(id)).value, key);
  }

  lemma {:induction false} InProvider(r: Reader, p: Node, key: string)
    requires p.Dict? && key in ModelsIn(r, p.m)
    ensures NodeAt(p, ["models", key]).Some? && ModelsIn(r, p.m)[key] == ModelOf(r, NodeAt(p, ["models", key]).value)
  {
    var path := ["models", key];
    assert path[1..] == [key] && [key][1..] == [];
    assert NodeAt(p.m["models"], [key]) == NodeAt(p.m["models"].m[key], []);
  }

  lemma {:induction false} AddedAt(r: Reader, repr: Repr, added: seq<Added>, i: nat)
    requires i < |added| && forall i, j :: 0 <= i < j < |added| ==> added[i].key != added[j].key
    ensures added[i].key in AddedModels(r, repr, added)
    ensures AddedModels(r, repr, added)[added[i].key] == ModelOf(r, WrittenNode(repr, added[i].values))
  {
    if i < |added| - 1 {
      AddedAt(r, repr, Front(added), i);
    }
  }

  /** Every append that succeeds has written strings that can be read. */
  lemma {:induction false} AddsReadable(repr: Repr, c: string, text: string, added: seq<Added>, i: nat)
    requires i < |added| && EditAll(repr, c, text, Adds(added)).Some?
    ensures LegibleEntries(FoldedEntries(LoweredEntries(repr, added[i].values)))
  {
    var last := Last(added);
    EditAllMore(repr, c, text, Adds(Front(added)), Add(last.key, last.values));
    if i < |added| - 1 {
      AddsReadable(repr, c, text, Front(added), i);
    }
  }

  lemma {:induction false} AddsSucceed(repr: Repr, c: string, text: string, added: seq<Added>, places: seq<Place>, refs: Merge.RefMap,
                                       ids: seq<string>)
    requires EditAll(repr, c, text, AllChanges(added, places, refs, ids)).Some?
    ensures EditAll(repr, c, text, Adds(added)).Some?
  {
    EditAllAppend(repr, c, text, Adds(added) + Rewrites(places, refs), Drops(ids));
    EditAllAppend(repr, c, text, Adds(added), Rewrites(places, refs));
  }

  /**
    What becomes of the added models.  Each keeps its upstream id.  The new table stands for the old one if and only if the
    writer keeps all its values, and the model is then read whole.
   */
  lemma {:induction false} ModelsRead(r: Reader, repr: Repr, text: string, cfg: Merge.Config, p: Merge.Preview, added: seq<Added>,
                                      from: seq<Source>, i: nat)
    requires ReadsObjects(r) && Parse(text).Some? && IsView(r, Parse(text).value, cfg)
    requires p.canonicalId in cfg.providers && ProperAdds(p.canonicalId, cfg.providers[p.canonicalId].models, added)
    requires Sourced(Parse(text).value, cfg, p, added, from) && EditAll(repr, p.canonicalId, text, Adds(added)).Some?
    requires i < |added| && UpstreamKept(added[i].values)
    ensures added[i].key in Written(r, repr, p, added).added && added[i].key in p.added
    ensures var was, now := p.added[added[i].key], Written(r, repr, p, added).added[added[i].key];
      was.Model? && now.Model? && now.upstreamId == was.upstreamId && (KeptEntries(added[i].values) ==> now == was)
    ensures Stands(WrittenNode(repr, added[i].values), Mapping(added[i].values)) <==> KeptEntries(added[i].values)
  {
    AddsReadable(repr, p.canonicalId, text, added, i);
    assert ProperAdd(p.canonicalId, cfg.providers[p.canonicalId].models, added[i]);
    AddedRead(r, repr, Parse(text).value, cfg, p, added, i, from[i]);
  }

  lemma {:induction false} AddedRead(r: Reader, repr: Repr, t: Node, cfg: Merge.Config, p: Merge.Preview, added: seq<Added>, i: nat, s: Source)
    requires ReadsObjects(r) && IsView(r, t, cfg) && i < |added| && Comes(t, cfg, p, added[i], s)
    requires forall i, j :: 0 <= i < j < |added| ==> added[i].key != added[j].key
    requires DictEntries(added[i].values) && PlainEntries(added[i].values) && UpstreamKept(added[i].values)
    requires LegibleEntries(FoldedEntries(LoweredEntries(repr, added[i].values)))
    ensures added[i].key in AddedModels(r, repr, added)
    ensures var was, now := p.added[added[i].key], AddedModels(r, repr, added)[added[i].key];
      was.Model? && now.Model? && now.upstreamId == was.upstreamId && (KeptEntries(added[i].values) ==> now == was)
    ensures Stands(WrittenNode(repr, added[i].values), Mapping(added[i].values)) <==> KeptEntries(added[i].values)
  {
    SourceRead(r, t, cfg, s.id, s.key);
    AddedAt(r, repr, added, i);
    ModelWritten(r, repr, NodeAt(t, ModelPath(s.id, s.key)).value, added[i].values);
  }

  // ---------- the merged text ----------

  /** The same models under the same keys, as far as references see them. */
  predicate SameIds(a: Merge.Models, b: Merge.Models) {
    a.Keys == b.Keys && forall k :: k in a ==> a[k].Model? && b[k].Model? && a[k].upstreamId == b[k].upstreamId
  }

  lemma {:induction false} MapsStill(c: string, ref: string, u: string, models: Merge.Models, a: Merge.Models, b: Merge.Models)
    requires SameIds(a, b) && Merge.MapsTo(c, ref, u, models + a)
    ensures Merge.MapsTo(c, ref, u, models + b)
  {
    var k :| k in models + a && Merge.Names(models + a, k, u) && ref == Merge.RefTo(c, k);
    assert k in models + b && Merge.Names(models + b, k, u);
  }

  lemma {:induction false} EstablishedStill(cfg: Merge.Config, p: Merge.Preview, b: Merge.Models)
    requires Merge.Established(cfg, p) && SameIds(p.added, b)
    requires forall k :: k in b ==> k !in cfg.providers[p.canonicalId].models
    ensures Merge.Established(cfg, p.(added := b))
  {
    var c, models := p.canonicalId, cfg.providers[p.canonicalId].models;
    forall id, key | id in p.duplicates && id in cfg.providers && key in cfg.providers[id].models
      ensures Merge.Mapped(c, id, key, cfg.providers[id].models[key], models + b, p.refs)
    {
      var m := cfg.providers[id].models[key];
      assert Merge.Mapped(c, id, key, m, models + p.added, p.refs);
      if m.Model? {
        MapsStill(c, p.refs[Merge.RefTo(id, key)], m.upstreamId, models, p.added, b);
      }
    }
  }

  lemma {:induction false} WrittenSameIds(r: Reader, repr: Repr, text: string, cfg: Merge.Config, p: Merge.Preview, added: seq<Added>,
                                          from: seq<Source>)
    requires ReadsObjects(r) && Parse(text).Some? && IsView(r, Parse(text).value, cfg)
    requires p.canonicalId in cfg.providers && ProperAdds(p.canonicalId, cfg.providers[p.canonicalId].models, added)
    requires Sourced(Parse(text).value, cfg, p, added, from) && EditAll(repr, p.canonicalId, text, Adds(added)).Some?
    requires forall i :: 0 <= i < |added| ==> UpstreamKept(added[i].values)
    ensures SameIds(p.added, AddedModels(r, repr, added))
    ensures (forall i :: 0 <= i < |added| ==> KeptEntries(added[i].values)) ==> AddedModels(r, repr, added) == p.added
    ensures forall k :: k in AddedModels(r, repr, added) ==> k !in cfg.providers[p.canonicalId].models
  {
    forall i | 0 <= i < |added| ensures ReadBack(p.added, AddedModels(r, repr, added), added[i]) {
      ModelsRead(r, repr, text, cfg, p, added, from, i);
    }
    SameIdsOf(r, repr, p.added, added);
    NewKeys(r, repr, p.canonicalId, cfg.providers[p.canonicalId].models, added);
  }

  /** An added model comes back with its upstream id, and whole if the writer keeps it. */
  predicate ReadBack(was: Merge.Models, now: Merge.Models, a: Added) {
    && a.key in was && a.key in now && was[a.key].Model? && now[a.key].Model? && now[a.key].upstreamId == was[a.key].upstreamId
    && (KeptEntries(a.values) ==> now[a.key] == was[a.key])
  }

  lemma {:induction false} SameIdsOf(r: Reader, repr: Repr, was: Merge.Models, added: seq<Added>)
    requires forall i :: 0 <= i < |added| ==> ReadBack(was, AddedModels(r, repr, added), added[i])
    requires forall k :: k in was <==> exists i :: 0 <= i < |added| && added[i].key == k
    ensures SameIds(was, AddedModels(r, repr, added))
    ensures (forall i :: 0 <= i < |added| ==> KeptEntries(added[i].values)) ==> AddedModels(r, repr, added) == was
  {
    var now := AddedModels(r, repr, added);
    forall k | k in was ensures exists i :: 0 <= i < |added| && added[i].key == k && ReadBack(was, now, added[i]) {
      var i :| 0 <= i < |added| && added[i].key == k;
      assert ReadBack(was, now, added[i]);
    }
    forall k | k in now ensures k in was {
      AddedKeys(r, repr, added, k);
    }
    assert now.Keys == was.Keys;
  }

  lemma {:induction false} NewKeys(r: Reader, repr: Repr, c: string, models: Merge.Models, added: seq<Added>)
    requires ProperAdds(c, models, added)
    ensures forall k :: k in AddedModels(r, repr, added) ==> k !in models
  {
    forall k | k in AddedModels(r, repr, added) ensures k !in models {
      AddedKeys(r, repr, added, k);
      var i :| 0 <= i < |added| && added[i].key == k;
      assert ProperAdd(c, models, added[i]);
    }
  }

  /**
    A READY merge carried out on the text, with the models that `tomllib` returned for the duplicates: every reference that
    resolved before is read, from the new text, as one to a model with the same upstream id under a Provider with the same
    contract, and none of these is a removed duplicate.
   */
  lemma {:induction false} FinalKeepsMeaning(r: Reader, repr: Repr, text: string, cfg: Merge.Config, p: Merge.Preview,
                                             added: seq<Added>, from: seq<Source>, places: seq<Place>, ids: seq<string>, s: string,
                                             site: Merge.Site, id: string, key: string)
    requires ReadsObjects(r) && Parse(text).Some? && IsView(r, Parse(text).value, cfg) && Lists(cfg, p, added, places, ids)
    requires Sourced(Parse(text).value, cfg, p, added, from) && forall i :: 0 <= i < |added| ==> UpstreamKept(added[i].values)
    requires EditAll(repr, p.canonicalId, text, AllChanges(added, places, p.refs, ids)) == Some(s)
    requires Merge.Established(cfg, p) && site in cfg.sites && Merge.Resolves(cfg.providers, cfg.sites[site], id, key)
    ensures var after := Merge.Merged(cfg, Written(r, repr, p, added)).providers;
      && Parse(s).Some? && RefAt(Parse(s).value, site).Some?
      && Merge.KeepsMeaning(cfg.providers, id, key, after, RefAt(Parse(s).value, site).value, p.duplicates)
      && forall other :: ProviderAt(r, Parse(s).value, other) == Lookup(after, other)
  {
    var q := Written(r, repr, p, added);
    AddsSucceed(repr, p.canonicalId, text, added, places, p.refs, ids);
    WrittenSameIds(r, repr, text, cfg, p, added, from);
    EstablishedStill(cfg, p, q.added);
    FinalReads(r, repr, text, cfg, p, added, places, ids, s);
    Merge.MergeKeepsMeaning(cfg, q, site, id, key);
    assert RefAt(Parse(s).value, site) == Lookup(Merge.Merged(cfg, q).sites, site);
  }

  /** And when the writer keeps all values of the added models, the new text reads as the merged config itself. */
  lemma {:induction false} FinalReadsWhole(r: Reader, repr: Repr, text: string, cfg: Merge.Config, p: Merge.Preview,
                                           added: seq<Added>, from: seq<Source>, places: seq<Place>, ids: seq<string>, s: string)
    requires ReadsObjects(r) && Parse(text).Some? && IsView(r, Parse(text).value, cfg) && Lists(cfg, p, added, places, ids)
    requires Sourced(Parse(text).value, cfg, p, added, from)
    requires forall i :: 0 <= i < |added| ==> UpstreamKept(added[i].values) && KeptEntries(added[i].values)
    requires EditAll(repr, p.canonicalId, text, AllChanges(added, places, p.refs, ids)) == Some(s)
    ensures Parse(s).Some? && IsView(r, Parse(s).value, Merge.Merged(cfg, p))
  {
    AddsSucceed(repr, p.canonicalId, text, added, places, p.refs, ids);
    WrittenSameIds(r, repr, text, cfg, p, added, from);
    FinalReads(r, repr, text, cfg, p, added, places, ids, s);
    assert Written(r, repr, p, added) == p;
  }
}
