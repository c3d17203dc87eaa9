/**
  `preview_provider_merge` and what its result does to the config: the duplicates' models join the canonical Provider,
  every reference to one of them is rewritten, and the duplicates go.

  The config is taken apart into Providers and the places that name a model; names and references are stripped, aliases
  are not part of it.
 */
module ProviderMerge {
  import opened Wrappers
  import opened Collections
  import opened Identity

  /** `_provider_contract` */
  datatype Contract = Contract(baseUrl: string, driver: string, serviceClass: string, authKind: string, requiresCredential: bool,
                               protocols: string, discoveryAdapter: string)

  /** A pinned model, or an entry that is no table. */
  datatype Model = NotTable | Model(upstreamId: string, body: string)

  type Models = map<string, Model>

  datatype Provider = Provider(contract: Contract, credentialRef: string, models: Models)

  type Registry = map<string, Provider>

  /** The places of the public config that name a model. */
  datatype Site = Profile(id: string) | Image2 | Git

  datatype Config = Config(providers: Registry, sites: map<Site, string>)

  type RefMap = map<string, string>

  datatype Conflict =
    | ProviderMissing(id: string)
    | ContractMismatch(id: string)
    | CredentialDecisionRequired(id: string)
    | ModelKeyCollision(id: string, key: string)
    | RequiredModelMissing

  const REQUIRED := "gpt-5.6-luna"

  // ---------- choosing the key ----------

  predicate Names(models: Models, key: string, upstreamId: string) {
    key in models && models[key].Model? && models[key].upstreamId == upstreamId
  }

  predicate Has(models: Models, upstreamId: string) {
    exists k :: k in models && Names(models, k, upstreamId)
  }

  /** Names are stripped, so only the empty one has no key. */
  predicate Named(m: Model, keyOf: string -> Option<string>) {
    m.NotTable? || (m.upstreamId != "" ==> keyOf(m.upstreamId).Some?)
  }

  /** A model of the duplicate can be taken over: it names an upstream id, and a new key for it is free. */
  predicate Fits(models: Models, m: Model, keyOf: string -> Option<string>)
    requires Named(m, keyOf)
  {
    m.NotTable? || (m.upstreamId != "" && (Has(models, m.upstreamId) || keyOf(m.upstreamId).value !in models))
  }

  /** `_target_model_key`; the source's loop takes the first model with that upstream id. */
  method TargetModelKey(staged: Models, m: Model, keyOf: string -> Option<string>) returns (r: Option<(string, bool)>)
    requires m.Model? && Named(m, keyOf)
    ensures r.Some? <==> Fits(staged, m, keyOf)
    ensures r.Some? ==> if r.value.1 then r.value.0 !in staged && keyOf(m.upstreamId) == Some(r.value.0) && !Has(staged, m.upstreamId)
                        else Names(staged, r.value.0, m.upstreamId)
  {
    if m.upstreamId == "" {
      return None;
    }
    var rest := staged.Keys;
    while rest != {}
      invariant rest <= staged.Keys
      invariant forall k :: k in staged && k !in rest ==> !Names(staged, k, m.upstreamId)
      decreases rest
    {
      var k :| k in rest;
      if staged[k].Model? && staged[k].upstreamId == m.upstreamId {
        assert Names(staged, k, m.upstreamId);
        return Some((k, false));
      }
      rest := rest - {k};
    }
    var candidate := keyOf(m.upstreamId).value;
    if candidate in staged {
      return None;
    }
    r := Some((candidate, true));
  }

  /** The staged models: the canonical ones, and added ones with new upstream ids under the keys made for these. */
  ghost predicate Staged(canonical: Models, staged: Models, keyOf: string -> Option<string>) {
    && (forall k :: k in canonical ==> k in staged && staged[k] == canonical[k])
    && (forall k :: k in staged && k !in canonical ==>
          staged[k].Model? && keyOf(staged[k].upstreamId) == Some(k) && !Has(canonical, staged[k].upstreamId))
  }

  /** They hold the upstream ids asked for so far. */
  ghost predicate Holds(canonical: Models, staged: Models, asked: set<string>) {
    forall u :: Has(staged, u) <==> Has(canonical, u) || u in asked
  }

  /** Nothing else that is new and has been asked for has the key of this upstream id. */
  predicate KeyFree(canonical: Models, keyOf: string -> Option<string>, asked: set<string>, u: string) {
    forall v :: v in asked && !Has(canonical, u) && !Has(canonical, v) && keyOf(v) == keyOf(u) ==> v == u
  }

  /** No two new upstream ids share a key. */
  predicate NewKeysApart(canonical: Models, keyOf: string -> Option<string>, asked: set<string>) {
    forall u :: u in asked ==> KeyFree(canonical, keyOf, asked, u)
  }

  lemma {:induction false} ApartMore(canonical: Models, keyOf: string -> Option<string>, asked: set<string>, u: string)
    ensures NewKeysApart(canonical, keyOf, asked + {u}) <==> NewKeysApart(canonical, keyOf, asked) && KeyFree(canonical, keyOf, asked, u)
  {
    var all := asked + {u};
    if NewKeysApart(canonical, keyOf, all) {
      assert KeyFree(canonical, keyOf, all, u);
      forall v | v in asked ensures KeyFree(canonical, keyOf, asked, v) {
        assert v in all && KeyFree(canonical, keyOf, all, v);
      }
    } else if NewKeysApart(canonical, keyOf, asked) && KeyFree(canonical, keyOf, asked, u) {
      forall v | v in all ensures KeyFree(canonical, keyOf, all, v) {
        assert v in asked ==> KeyFree(canonical, keyOf, asked, v);
      }
    }
  }

  lemma {:induction false} ApartLess(canonical: Models, keyOf: string -> Option<string>, asked: set<string>, more: set<string>)
    requires asked <= more && NewKeysApart(canonical, keyOf, more)
    ensures NewKeysApart(canonical, keyOf, asked)
  {
    forall v | v in asked ensures KeyFree(canonical, keyOf, asked, v) {
      assert KeyFree(canonical, keyOf, more, v);
    }
  }

  /** What has been asked for and is new is staged under its own key. */
  lemma {:induction false} AskedIsStaged(canonical: Models, staged: Models, asked: set<string>, keyOf: string -> Option<string>, v: string)
    requires Staged(canonical, staged, keyOf) && Holds(canonical, staged, asked) && v in asked && !Has(canonical, v)
    ensures keyOf(v).Some? && keyOf(v).value in staged && keyOf(v).value !in canonical && staged[keyOf(v).value].Model? &&
            staged[keyOf(v).value].upstreamId == v
  {
    assert Has(staged, v);
    var k :| k in staged && Names(staged, k, v);
    assert k in canonical ==> Names(canonical, k, v);
  }

  /** A model fits the staged ones exactly if it fits the canonical ones and its key is free. */
  lemma {:induction false} FitsStaged(canonical: Models, staged: Models, asked: set<string>, m: Model, keyOf: string -> Option<string>)
    requires Staged(canonical, staged, keyOf) && Holds(canonical, staged, asked)
    requires m.Model? && m.upstreamId != "" && Named(m, keyOf)
    ensures Fits(staged, m, keyOf) <==> Fits(canonical, m, keyOf) && KeyFree(canonical, keyOf, asked, m.upstreamId)
  {
    var u := m.upstreamId;
    var key := keyOf(u).value;
    assert Has(staged, u) <==> Has(canonical, u) || u in asked;
    if !Has(canonical, u) {
      forall v | v in asked && !Has(canonical, v) && keyOf(v) == keyOf(u)
        ensures key in staged && key !in canonical && staged[key].Model? && staged[key].upstreamId == v
      {
        AskedIsStaged(canonical, staged, asked, keyOf, v);
      }
      if u !in asked && key in staged && key !in canonical {
        var v := staged[key].upstreamId;
        assert Names(staged, key, v) && Has(staged, v);
        assert v in asked && !KeyFree(canonical, keyOf, asked, u);
      }
    }
  }

  // ---------- the reference map ----------

  function RefTo(id: string, key: string): string {
    id + "/" + key
  }

  lemma {:induction false} RefToInjective(p: string, k: string, q: string, l: string)
    requires '/' !in p && '/' !in q && RefTo(p, k) == RefTo(q, l)
    ensures p == q && k == l
  {
    SlashIs(p, k);
    SlashIs(q, l);
  }

  ghost predicate MapsTo(canonicalId: string, ref: string, upstreamId: string, staged: Models) {
    exists t :: t in staged && Names(staged, t, upstreamId) && ref == RefTo(canonicalId, t)
  }

  /** The duplicate's model is mapped to a staged model with its upstream id. */
  ghost predicate Mapped(canonicalId: string, id: string, key: string, m: Model, staged: Models, refs: RefMap) {
    m.Model? ==> RefTo(id, key) in refs && MapsTo(canonicalId, refs[RefTo(id, key)], m.upstreamId, staged)
  }

  /** All models of one duplicate whose keys are in `done`. */
  ghost predicate MappedKeys(canonicalId: string, id: string, models: Models, done: set<string>, staged: Models, refs: RefMap) {
    forall key :: key in done && key in models ==> Mapped(canonicalId, id, key, models[key], staged, refs)
  }

  /** The map leads from the duplicates to the canonical Provider. */
  ghost predicate Leads(canonicalId: string, duplicates: set<string>, refs: RefMap) {
    forall ref :: ref in refs ==>
      (exists id, key :: id in duplicates && ref == RefTo(id, key)) && (exists t :: refs[ref] == RefTo(canonicalId, t))
  }

  ghost predicate Grows(a: Models, b: Models) {
    forall k :: k in a ==> k in b && b[k] == a[k]
  }

  lemma {:induction false} MappedKept(canonicalId: string, id: string, key: string, m: Model, staged: Models, refs: RefMap,
                                      more: Models, ref: string, target: string)
    requires Mapped(canonicalId, id, key, m, staged, refs) && Grows(staged, more) && ref != RefTo(id, key)
    ensures Mapped(canonicalId, id, key, m, more, refs[ref := target])
  {
    if m.Model? {
      var t :| t in staged && Names(staged, t, m.upstreamId) && refs[RefTo(id, key)] == RefTo(canonicalId, t);
      assert Names(more, t, m.upstreamId);
    }
  }

  /** One more model of the duplicate. */
  lemma {:induction false} MapOne(canonicalId: string, id: string, models: Models, done: set<string>, key: string,
                                  staged: Models, refs: RefMap, more: Models, target: string)
    requires MappedKeys(canonicalId, id, models, done, staged, refs)
    requires '/' !in id && key in models && models[key].Model? && key !in done
    requires Grows(staged, more) && target in more && Names(more, target, models[key].upstreamId)
    ensures MappedKeys(canonicalId, id, models, done + {key}, more, refs[RefTo(id, key) := RefTo(canonicalId, target)])
  {
    var all := refs[RefTo(id, key) := RefTo(canonicalId, target)];
    forall k | k in done + {key} && k in models ensures Mapped(canonicalId, id, k, models[k], more, all) {
      if k != key {
        if RefTo(id, k) == RefTo(id, key) {
          RefToInjective(id, k, id, key);
        }
        MappedKept(canonicalId, id, k, models[k], staged, refs, more, RefTo(id, key), RefTo(canonicalId, target));
      }
    }
  }

  lemma {:induction false} LeadsMore(canonicalId: string, duplicates: set<string>, id: string, key: string, refs: RefMap, target: string)
    requires Leads(canonicalId, duplicates, refs) && id in duplicates
    ensures Leads(canonicalId, duplicates, refs[RefTo(id, key) := RefTo(canonicalId, target)])
  {
    var all := refs[RefTo(id, key) := RefTo(canonicalId, target)];
    forall ref | ref in all
      ensures (exists i, k :: i in duplicates && ref == RefTo(i, k)) && (exists t :: all[ref] == RefTo(canonicalId, t))
    {
      if ref != RefTo(id, key) {
        assert ref in refs && all[ref] == refs[ref];
      }
    }
  }

  // ---------- the models of one duplicate ----------

  predicate AllNamed(models: Models, keyOf: string -> Option<string>) {
    forall k :: k in models ==> Named(models[k], keyOf)
  }

  predicate AllFit(canonical: Models, models: Models, done: set<string>, keyOf: string -> Option<string>)
    requires AllNamed(models, keyOf)
  {
    forall k :: k in done && k in models ==> Fits(canonical, models[k], keyOf)
  }

  /** Where the preview has got to. */
  datatype Merge = Merge(staged: Models, refs: RefMap, added: Models, conflicts: seq<Conflict>)

  ghost predicate MergeOk(canonicalId: string, canonical: Models, duplicates: set<string>, keyOf: string -> Option<string>, s: Merge) {
    Staged(canonical, s.staged, keyOf) && Leads(canonicalId, duplicates, s.refs) && s.staged == canonical + s.added
  }

  /** The upstream id a model asks for. */
  function Asks(m: Model): set<string> {
    if m.Model? then {m.upstreamId} else {}
  }

  /** The model can be taken over next to the canonical ones and those that have been asked for. */
  predicate FitsWith(canonical: Models, asked: set<string>, m: Model, keyOf: string -> Option<string>)
    requires Named(m, keyOf)
  {
    Fits(canonical, m, keyOf) && (m.Model? ==> KeyFree(canonical, keyOf, asked, m.upstreamId))
  }

  /** The model is one of these. */
  predicate From(m: Model, models: Models) {
    exists key :: key in models && models[key] == m
  }

  /** Only models from these were added. */
  predicate AddsFrom(was: Models, now: Models, models: Models) {
    forall k :: k in now ==> (k in was && now[k] == was[k]) || From(now[k], models)
  }

  lemma {:induction false} AddsFromTwice(a: Models, b: Models, c: Models, models: Models)
    requires AddsFrom(a, b, models) && AddsFrom(b, c, models)
    ensures AddsFrom(a, c, models)
  {
  }

  /** It cannot be taken over: it names no upstream id, or it is new and its key belongs to another one. */
  predicate Collides(canonical: Models, staged: Models, m: Model, keyOf: string -> Option<string>) {
    && m.Model?
    && (m.upstreamId != "" ==>
          && !Has(canonical, m.upstreamId) && keyOf(m.upstreamId).Some? && keyOf(m.upstreamId).value in staged
          && !Names(staged, keyOf(m.upstreamId).value, m.upstreamId))
  }

  /** Each new conflict names a model of this duplicate that collides. */
  ghost predicate Collisions(canonical: Models, staged: Models, id: string, models: Models, keyOf: string -> Option<string>,
                             was: seq<Conflict>, now: seq<Conflict>) {
    && was <= now
    && forall c :: c in now && c !in was ==>
         c.ModelKeyCollision? && c.id == id && c.key in models && Collides(canonical, staged, models[c.key], keyOf)
  }

  lemma {:induction false} CollisionsMore(canonical: Models, staged: Models, more: Models, id: string, models: Models,
                                          keyOf: string -> Option<string>, a: seq<Conflict>, b: seq<Conflict>, c: seq<Conflict>)
    requires Collisions(canonical, staged, id, models, keyOf, a, b) && Collisions(canonical, more, id, models, keyOf, b, c)
    requires Grows(staged, more)
    ensures Collisions(canonical, more, id, models, keyOf, a, c)
  {
  }

  /** One model of a duplicate. */
  method MergeModel(canonicalId: string, ghost canonical: Models, ghost duplicates: set<string>, id: string, ghost models: Models,
                    ghost done: set<string>, ghost asked: set<string>, key: string, m: Model, keyOf: string -> Option<string>, s: Merge)
    returns (t: Merge)
    requires MergeOk(canonicalId, canonical, duplicates, keyOf, s) && id in duplicates && '/' !in id
    requires key in models && models[key] == m && key !in done && Named(m, keyOf)
    requires s.conflicts == [] ==> Holds(canonical, s.staged, asked) && MappedKeys(canonicalId, id, models, done, s.staged, s.refs)
    ensures MergeOk(canonicalId, canonical, duplicates, keyOf, t) && Grows(s.staged, t.staged) && OnlyAdds(id, s.refs, t.refs)
    ensures AddsFrom(s.added, t.added, models) && Collisions(canonical, t.staged, id, models, keyOf, s.conflicts, t.conflicts)
    ensures t.conflicts == [] <==> s.conflicts == [] && FitsWith(canonical, asked, m, keyOf)
    ensures t.conflicts == [] ==>
      Holds(canonical, t.staged, asked + Asks(m)) && MappedKeys(canonicalId, id, models, done + {key}, t.staged, t.refs)
  {
    t := s;
    if m.NotTable? {
      return;
    }
    var r := TargetModelKey(s.staged, m, keyOf);
    if s.conflicts == [] && m.upstreamId != "" {
      FitsStaged(canonical, s.staged, asked, m, keyOf);
    }
    if r.None? {
      CollidesHere(canonical, s.staged, m, keyOf);
      return s.(conflicts := s.conflicts + [ModelKeyCollision(id, key)]);
    }
    var (target, isNew) := r.value;
    var staged := if isNew then s.staged[target := m] else s.staged;
    var added := if isNew then s.added[target := m] else s.added;
    t := Merge(staged, s.refs[RefTo(id, key) := RefTo(canonicalId, target)], added, s.conflicts);
    StagedMore(canonical, s.staged, s.added, staged, added, target, m, keyOf);
    LeadsMore(canonicalId, duplicates, id, key, s.refs, target);
    HasMore(s.staged, staged, target, m);
    if s.conflicts == [] {
      MapOne(canonicalId, id, models, done, key, s.staged, s.refs, staged, target);
    }
  }

  lemma {:induction false} CollidesHere(canonical: Models, staged: Models, m: Model, keyOf: string -> Option<string>)
    requires Grows(canonical, staged) && m.Model? && Named(m, keyOf) && !Fits(staged, m, keyOf)
    ensures Collides(canonical, staged, m, keyOf)
  {
    HasGrows(canonical, staged, m.upstreamId);
  }

  lemma {:induction false} HasGrows(models: Models, more: Models, upstreamId: string)
    requires Grows(models, more)
    ensures Has(models, upstreamId) ==> Has(more, upstreamId)
  {
    if Has(models, upstreamId) {
      var k :| k in models && Names(models, k, upstreamId);
      assert Names(more, k, upstreamId);
    }
  }

  lemma {:induction false} StagedMore(canonical: Models, staged: Models, added: Models, more: Models, all: Models, target: string,
                                      m: Model, keyOf: string -> Option<string>)
    requires Staged(canonical, staged, keyOf) && staged == canonical + added && m.Model?
    requires if target in staged then more == staged && all == added && Names(staged, target, m.upstreamId)
             else more == staged[target := m] && all == added[target := m] && keyOf(m.upstreamId) == Some(target) &&
                  !Has(staged, m.upstreamId)
    ensures Staged(canonical, more, keyOf) && more == canonical + all && Grows(staged, more) && Names(more, target, m.upstreamId)
  {
    if Has(canonical, m.upstreamId) {
      var k :| k in canonical && Names(canonical, k, m.upstreamId);
      assert Names(staged, k, m.upstreamId);
    }
  }

  /** References that do not start with the duplicate's id keep their targets. */
  ghost predicate OnlyAdds(id: string, refs: RefMap, more: RefMap) {
    forall ref :: (forall key :: ref != RefTo(id, key)) ==> (ref in refs <==> ref in more) && (ref in refs ==> more[ref] == refs[ref])
  }

  lemma {:induction false} HasMore(staged: Models, more: Models, target: string, m: Model)
    requires m.Model? && (more == staged || (target !in staged && more == staged[target := m])) && Names(more, target, m.upstreamId)
    ensures forall u :: Has(more, u) <==> Has(staged, u) || u == m.upstreamId
  {
    forall u ensures Has(more, u) <==> Has(staged, u) || u == m.upstreamId {
      if Has(staged, u) {
        var k :| k in staged && Names(staged, k, u);
        assert Names(more, k, u);
      }
      if Has(more, u) {
        var k :| k in more && Names(more, k, u);
        if k in staged && more[k] == staged[k] {
          assert Names(staged, k, u);
        }
      }
    }
  }

  /** All models of one duplicate; the source takes them in the order of their keys. */
  method MergeModels(canonicalId: string, ghost canonical: Models, ghost duplicates: set<string>, id: string, models: Models,
                     ghost asked: set<string>, keyOf: string -> Option<string>, s: Merge) returns (t: Merge)
    requires MergeOk(canonicalId, canonical, duplicates, keyOf, s) && id in duplicates && '/' !in id
    requires AllNamed(models, keyOf)
    requires s.conflicts == [] ==> Holds(canonical, s.staged, asked) && NewKeysApart(canonical, keyOf, asked)
    ensures MergeOk(canonicalId, canonical, duplicates, keyOf, t) && Grows(s.staged, t.staged) && OnlyAdds(id, s.refs, t.refs)
    ensures AddsFrom(s.added, t.added, models) && Collisions(canonical, t.staged, id, models, keyOf, s.conflicts, t.conflicts)
    ensures t.conflicts == [] <==> s.conflicts == [] && AllFit(canonical, models, models.Keys, keyOf) &&
                                   NewKeysApart(canonical, keyOf, asked + AskedBy(models, models.Keys))
    ensures t.conflicts == [] ==> Holds(canonical, t.staged, asked + AskedBy(models, models.Keys)) &&
                                  MappedKeys(canonicalId, id, models, models.Keys, t.staged, t.refs)
  {
    t := s;
    var rest := models.Keys;
    AskedByNone(models, asked);
    while rest != {}
      invariant rest <= models.Keys && MergeOk(canonicalId, canonical, duplicates, keyOf, t)
      invariant Grows(s.staged, t.staged) && OnlyAdds(id, s.refs, t.refs) && AddsFrom(s.added, t.added, models)
      invariant Collisions(canonical, t.staged, id, models, keyOf, s.conflicts, t.conflicts)
      invariant t.conflicts == [] <==> s.conflicts == [] && AllFit(canonical, models, models.Keys - rest, keyOf) &&
                                       NewKeysApart(canonical, keyOf, asked + AskedBy(models, models.Keys - rest))
      invariant t.conflicts == [] ==> Holds(canonical, t.staged, asked + AskedBy(models, models.Keys - rest)) &&
                                      MappedKeys(canonicalId, id, models, models.Keys - rest, t.staged, t.refs)
      decreases rest
    {
      var key :| key in rest;
      ghost var done := models.Keys - rest;
      ghost var was := t;
      t := MergeModel(canonicalId, canonical, duplicates, id, models, done, asked + AskedBy(models, done), key, models[key], keyOf, t);
      AddsFromTwice(s.added, was.added, t.added, models);
      CollisionsMore(canonical, was.staged, t.staged, id, models, keyOf, s.conflicts, was.conflicts, t.conflicts);
      OneLess(models.Keys, rest, key);
      FitsMore(canonical, models, done, asked, key, keyOf);
      rest := rest - {key};
    }
    NoneLess(models.Keys);
  }

  /** The upstream ids of the models whose keys are in `done`. */
  function AskedBy(models: Models, done: set<string>): set<string> {
    set k | k in done && k in models && models[k].Model? :: models[k].upstreamId
  }

  lemma {:induction false} AskedByNone(models: Models, asked: set<string>)
    ensures asked + AskedBy(models, models.Keys - models.Keys) == asked
  {
  }

  lemma {:induction false} AskedByMore(models: Models, done: set<string>, asked: set<string>, key: string)
    requires key in models
    ensures asked + AskedBy(models, done + {key}) == asked + AskedBy(models, done) + Asks(models[key])
  {
    var more := AskedBy(models, done + {key});
    assert more == AskedBy(models, done) + Asks(models[key]) by {
      forall u | u in more ensures u in AskedBy(models, done) + Asks(models[key]) {
        var k :| k in done + {key} && k in models && models[k].Model? && models[k].upstreamId == u;
        assert k != key ==> k in done;
      }
      forall u | u in AskedBy(models, done) + Asks(models[key]) ensures u in more {
        if u in AskedBy(models, done) {
          var k :| k in done && k in models && models[k].Model? && models[k].upstreamId == u;
          assert k in done + {key};
        } else {
          assert key in done + {key} && models[key].Model? && models[key].upstreamId == u;
        }
      }
    }
  }

  lemma {:induction false} FitsMore(canonical: Models, models: Models, done: set<string>, asked: set<string>, key: string,
                                    keyOf: string -> Option<string>)
    requires AllNamed(models, keyOf) && key in models
    ensures asked + AskedBy(models, done + {key}) == asked + AskedBy(models, done) + Asks(models[key])
    ensures AllFit(canonical, models, done + {key}, keyOf) && NewKeysApart(canonical, keyOf, asked + AskedBy(models, done + {key})) <==>
      AllFit(canonical, models, done, keyOf) && NewKeysApart(canonical, keyOf, asked + AskedBy(models, done)) &&
      FitsWith(canonical, asked + AskedBy(models, done), models[key], keyOf)
  {
    var all := asked + AskedBy(models, done);
    AskedByMore(models, done, asked, key);
    FitMore(canonical, models, done, key, keyOf);
    if models[key].Model? {
      ApartMore(canonical, keyOf, all, models[key].upstreamId);
    } else {
      assert all + Asks(models[key]) == all;
    }
  }

  lemma {:induction false} FitMore(canonical: Models, models: Models, done: set<string>, key: string, keyOf: string -> Option<string>)
    requires AllNamed(models, keyOf) && key in models
    ensures AllFit(canonical, models, done + {key}, keyOf) <==> AllFit(canonical, models, done, keyOf) && Fits(canonical, models[key], keyOf)
  {
  }

  // ---------- all duplicates ----------

  /** The duplicate exists, has the canonical contract, and its credential is the same or given up. */
  predicate Acceptable(providers: Registry, canonical: Provider, id: string, decisions: set<string>, canonicalRef: string -> string) {
    && id in providers && providers[id].contract == canonical.contract
    && (canonicalRef(providers[id].credentialRef) == canonicalRef(canonical.credentialRef) || id in decisions)
  }

  predicate Mergeable(providers: Registry, canonical: Provider, id: string, decisions: set<string>, canonicalRef: string -> string,
                      keyOf: string -> Option<string>)
    requires id in providers ==> AllNamed(providers[id].models, keyOf)
  {
    && Acceptable(providers, canonical, id, decisions, canonicalRef)
    && AllFit(canonical.models, providers[id].models, providers[id].models.Keys, keyOf)
  }

  /** What each conflict says, of the duplicates in `ids`: which they are, and why they cannot be merged. */
  ghost predicate Reason(providers: Registry, canonical: Provider, decisions: set<string>, canonicalRef: string -> string,
                         keyOf: string -> Option<string>, staged: Models, ids: set<string>, c: Conflict) {
    match c
    case ProviderMissing(id) => id in ids && id !in providers
    case ContractMismatch(id) => id in ids && id in providers && providers[id].contract != canonical.contract
    case CredentialDecisionRequired(id) =>
      && id in ids && id in providers && providers[id].contract == canonical.contract && id !in decisions
      && canonicalRef(providers[id].credentialRef) != canonicalRef(canonical.credentialRef)
    case ModelKeyCollision(id, key) =>
      id in ids && id in providers && key in providers[id].models && Collides(canonical.models, staged, providers[id].models[key], keyOf)
    case RequiredModelMissing => false
  }

  /** Every conflict has its reason, and a reason to refuse a whole duplicate is a conflict. */
  ghost predicate Reasons(providers: Registry, canonical: Provider, decisions: set<string>, canonicalRef: string -> string,
                          keyOf: string -> Option<string>, staged: Models, ids: set<string>, conflicts: seq<Conflict>) {
    && (forall c :: c in conflicts ==> Reason(providers, canonical, decisions, canonicalRef, keyOf, staged, ids, c))
    && (forall c: Conflict :: !c.ModelKeyCollision? && Reason(providers, canonical, decisions, canonicalRef, keyOf, staged, ids, c) ==> c in conflicts)
  }

  /** The conflicts of one duplicate: the one reason to refuse it as a whole, else its collisions. */
  ghost predicate ReasonsOf(providers: Registry, canonical: Provider, decisions: set<string>, canonicalRef: string -> string,
                            keyOf: string -> Option<string>, staged: Models, id: string, was: seq<Conflict>, now: seq<Conflict>) {
    if id !in providers then now == was + [ProviderMissing(id)]
    else if providers[id].contract != canonical.contract then now == was + [ContractMismatch(id)]
    else if canonicalRef(providers[id].credentialRef) != canonicalRef(canonical.credentialRef) && id !in decisions then
      now == was + [CredentialDecisionRequired(id)]
    else Collisions(canonical.models, staged, id, providers[id].models, keyOf, was, now)
  }

  lemma {:induction false} ReasonsMore(providers: Registry, canonical: Provider, decisions: set<string>, canonicalRef: string -> string,
                                       keyOf: string -> Option<string>, staged: Models, ids: set<string>, was: seq<Conflict>,
                                       more: Models, id: string, now: seq<Conflict>)
    requires Reasons(providers, canonical, decisions, canonicalRef, keyOf, staged, ids, was) && Grows(staged, more)
    requires ReasonsOf(providers, canonical, decisions, canonicalRef, keyOf, more, id, was, now)
    ensures Reasons(providers, canonical, decisions, canonicalRef, keyOf, more, ids + {id}, now)
  {
    forall c | c in now ensures Reason(providers, canonical, decisions, canonicalRef, keyOf, more, ids + {id}, c) {
      if c in was {
        assert Reason(providers, canonical, decisions, canonicalRef, keyOf, staged, ids, c);
      }
    }
    forall c: Conflict | !c.ModelKeyCollision? && Reason(providers, canonical, decisions, canonicalRef, keyOf, more, ids + {id}, c)
      ensures c in now
    {
      if c.id != id {
        assert Reason(providers, canonical, decisions, canonicalRef, keyOf, staged, ids, c);
        assert c in was;
      }
    }
  }

  /** Every model of the duplicates in `done` is mapped. */
  ghost predicate MappedAll(canonicalId: string, providers: Registry, done: set<string>, staged: Models, refs: RefMap) {
    forall id :: id in done ==> id in providers && MappedKeys(canonicalId, id, providers[id].models, providers[id].models.Keys, staged, refs)
  }

  lemma {:induction false} MappedAllKept(canonicalId: string, providers: Registry, done: set<string>, staged: Models, refs: RefMap,
                                         id: string, more: Models, all: RefMap)
    requires MappedAll(canonicalId, providers, done, staged, refs) && Grows(staged, more) && OnlyAdds(id, refs, all)
    requires id !in done && '/' !in id && forall d :: d in done ==> '/' !in d
    ensures MappedAll(canonicalId, providers, done, more, all)
  {
    forall d, key | d in done && key in providers[d].models ensures Mapped(canonicalId, d, key, providers[d].models[key], more, all) {
      var m := providers[d].models[key];
      assert Mapped(canonicalId, d, key, m, staged, refs);
      forall k ensures RefTo(d, key) != RefTo(id, k) {
        if RefTo(d, key) == RefTo(id, k) {
          RefToInjective(d, key, id, k);
        }
      }
      if m.Model? {
        var t :| t in staged && Names(staged, t, m.upstreamId) && refs[RefTo(d, key)] == RefTo(canonicalId, t);
        assert Names(more, t, m.upstreamId);
      }
    }
  }

  /** One duplicate. */
  method MergeDuplicate(canonicalId: string, providers: Registry, canonical: Provider, ghost duplicates: set<string>, id: string,
                        ghost asked: set<string>, decisions: set<string>, canonicalRef: string -> string,
                        keyOf: string -> Option<string>, s: Merge)
    returns (t: Merge)
    requires MergeOk(canonicalId, canonical.models, duplicates, keyOf, s) && id in duplicates && '/' !in id
    requires id in providers ==> AllNamed(providers[id].models, keyOf)
    requires s.conflicts == [] ==> Holds(canonical.models, s.staged, asked) && NewKeysApart(canonical.models, keyOf, asked)
    ensures MergeOk(canonicalId, canonical.models, duplicates, keyOf, t) && Grows(s.staged, t.staged) && OnlyAdds(id, s.refs, t.refs)
    ensures AddsFrom(s.added, t.added, if id in providers then providers[id].models else map[])
    ensures ReasonsOf(providers, canonical, decisions, canonicalRef, keyOf, t.staged, id, s.conflicts, t.conflicts)
    ensures t.conflicts == [] <==> s.conflicts == [] && Mergeable(providers, canonical, id, decisions, canonicalRef, keyOf) &&
                                   NewKeysApart(canonical.models, keyOf, asked + AskedOf(providers, id))
    ensures t.conflicts == [] ==>
      && id in providers && MappedKeys(canonicalId, id, providers[id].models, providers[id].models.Keys, t.staged, t.refs)
      && Holds(canonical.models, t.staged, asked + AskedOf(providers, id))
  {
    if id !in providers {
      return s.(conflicts := s.conflicts + [ProviderMissing(id)]);
    }
    var duplicate := providers[id];
    if duplicate.contract != canonical.contract {
      return s.(conflicts := s.conflicts + [ContractMismatch(id)]);
    }
    if canonicalRef(duplicate.credentialRef) != canonicalRef(canonical.credentialRef) && id !in decisions {
      return s.(conflicts := s.conflicts + [CredentialDecisionRequired(id)]);
    }
    t := MergeModels(canonicalId, canonical.models, duplicates, id, duplicate.models, asked, keyOf, s);
  }

  predicate AllMergeable(providers: Registry, canonical: Provider, ids: set<string>, decisions: set<string>,
                         canonicalRef: string -> string, keyOf: string -> Option<string>)
    requires AllProvidersNamed(providers, keyOf)
  {
    forall id :: id in ids ==> Mergeable(providers, canonical, id, decisions, canonicalRef, keyOf)
  }

  predicate AllProvidersNamed(providers: Registry, keyOf: string -> Option<string>) {
    forall id :: id in providers ==> AllNamed(providers[id].models, keyOf)
  }

  /** The upstream ids of the models of a Provider, and of all that are listed. */
  function AskedOf(providers: Registry, id: string): set<string> {
    if id in providers then AskedBy(providers[id].models, providers[id].models.Keys) else {}
  }

  function AskedIn(providers: Registry, done: set<string>): set<string> {
    set id, u | id in done && u in AskedOf(providers, id) :: u
  }

  lemma {:induction false} AskedInMore(providers: Registry, done: set<string>, id: string)
    ensures AskedIn(providers, done + {id}) == AskedIn(providers, done) + AskedOf(providers, id)
  {
    var more := AskedIn(providers, done + {id});
    forall u | u in AskedIn(providers, done) ensures u in more {
      var d :| d in done && u in AskedOf(providers, d);
      assert d in done + {id};
    }
    forall u | u in AskedOf(providers, id) ensures u in more {
      assert id in done + {id};
    }
  }

  /** Every duplicate can be merged, and no two new upstream ids among their models share a key. */
  predicate Joinable(providers: Registry, canonical: Provider, ids: set<string>, decisions: set<string>,
                     canonicalRef: string -> string, keyOf: string -> Option<string>)
    requires AllProvidersNamed(providers, keyOf)
  {
    && AllMergeable(providers, canonical, ids, decisions, canonicalRef, keyOf)
    && NewKeysApart(canonical.models, keyOf, AskedIn(providers, ids))
  }

  lemma {:induction false} JoinableMore(providers: Registry, canonical: Provider, ids: set<string>, decisions: set<string>,
                                        canonicalRef: string -> string, keyOf: string -> Option<string>, id: string)
    requires AllProvidersNamed(providers, keyOf)
    ensures Joinable(providers, canonical, ids + {id}, decisions, canonicalRef, keyOf) <==>
      && Joinable(providers, canonical, ids, decisions, canonicalRef, keyOf)
      && Mergeable(providers, canonical, id, decisions, canonicalRef, keyOf)
      && NewKeysApart(canonical.models, keyOf, AskedIn(providers, ids) + AskedOf(providers, id))
  {
    var all := AskedIn(providers, ids) + AskedOf(providers, id);
    AskedInMore(providers, ids, id);
    if NewKeysApart(canonical.models, keyOf, all) {
      ApartLess(canonical.models, keyOf, AskedIn(providers, ids), all);
    }
    assert id in ids + {id};
  }

  /** The model is one of a duplicate. */
  predicate Taken(providers: Registry, ids: set<string>, m: Model) {
    exists id :: id in ids && id in providers && From(m, providers[id].models)
  }

  predicate AllTaken(providers: Registry, ids: set<string>, added: Models) {
    forall k :: k in added ==> Taken(providers, ids, added[k])
  }

  lemma {:induction false} TakenMore(providers: Registry, ids: set<string>, id: string, was: Models, now: Models)
    requires AllTaken(providers, ids, was) && id in ids
    requires AddsFrom(was, now, if id in providers then providers[id].models else map[])
    ensures AllTaken(providers, ids, now)
  {
    forall k | k in now ensures Taken(providers, ids, now[k]) {
      if k in was && now[k] == was[k] {
        assert Taken(providers, ids, was[k]);
      }
    }
  }

  method MergeDuplicates(canonicalId: string, providers: Registry, canonical: Provider, duplicates: set<string>,
                         decisions: set<string>, canonicalRef: string -> string, keyOf: string -> Option<string>)
    returns (t: Merge)
    requires AllProvidersNamed(providers, keyOf) && forall id :: id in duplicates ==> '/' !in id
    ensures MergeOk(canonicalId, canonical.models, duplicates, keyOf, t) && AllTaken(providers, duplicates, t.added)
    ensures t.conflicts == [] <==> Joinable(providers, canonical, duplicates, decisions, canonicalRef, keyOf)
    ensures t.conflicts == [] ==> MappedAll(canonicalId, providers, duplicates, t.staged, t.refs)
    ensures t.conflicts == [] ==> Holds(canonical.models, t.staged, AskedIn(providers, duplicates))
    ensures Reasons(providers, canonical, decisions, canonicalRef, keyOf, t.staged, duplicates, t.conflicts)
  {
    t := Merge(canonical.models, map[], map[], []);
    var rest := duplicates;
    while rest != {}
      invariant rest <= duplicates && MergeOk(canonicalId, canonical.models, duplicates, keyOf, t)
      invariant AllTaken(providers, duplicates, t.added)
      invariant t.conflicts == [] <==> Joinable(providers, canonical, duplicates - rest, decisions, canonicalRef, keyOf)
      invariant t.conflicts == [] ==> MappedAll(canonicalId, providers, duplicates - rest, t.staged, t.refs)
      invariant t.conflicts == [] ==> Holds(canonical.models, t.staged, AskedIn(providers, duplicates - rest))
      invariant Reasons(providers, canonical, decisions, canonicalRef, keyOf, t.staged, duplicates - rest, t.conflicts)
      decreases rest
    {
      var id :| id in rest;
      ghost var done := duplicates - rest;
      var next := MergeDuplicate(canonicalId, providers, canonical, duplicates, id, AskedIn(providers, done), decisions, canonicalRef,
                                 keyOf, t);
      OneLess(duplicates, rest, id);
      TakenMore(providers, duplicates, id, t.added, next.added);
      AskedInMore(providers, done, id);
      JoinableMore(providers, canonical, done, decisions, canonicalRef, keyOf, id);
      ReasonsMore(providers, canonical, decisions, canonicalRef, keyOf, t.staged, done, t.conflicts, next.staged, id, next.conflicts);
      if next.conflicts == [] {
        MappedAllKept(canonicalId, providers, done, t.staged, t.refs, id, next.staged, next.refs);
      }
      rest := rest - {id};
      t := next;
    }
    NoneLess(duplicates);
  }

  // ---------- the preview ----------

  datatype Preview = Preview(canonicalId: string, duplicates: set<string>, refs: RefMap, added: Models, conflicts: seq<Conflict>)

  predicate Ready(p: Preview) {
    p.conflicts == []
  }

  /** What the preview raises on. */
  predicate Refused(providers: Registry, canonicalId: string, duplicates: set<string>) {
    || !ValidProviderId(canonicalId) || (exists id :: id in duplicates && !ValidProviderId(id))
    || duplicates == {} || canonicalId in duplicates || canonicalId !in providers
  }

  /** What a READY preview has established. */
  ghost predicate Established(cfg: Config, p: Preview) {
    && !Refused(cfg.providers, p.canonicalId, p.duplicates)
    && (var canonical := cfg.providers[p.canonicalId];
        && Leads(p.canonicalId, p.duplicates, p.refs) && Grows(canonical.models, canonical.models + p.added)
        && MappedAll(p.canonicalId, cfg.providers, p.duplicates, canonical.models + p.added, p.refs)
        && (forall id :: id in p.duplicates ==> id in cfg.providers && cfg.providers[id].contract == canonical.contract))
  }

  /** The preview's conflicts: those of the duplicates, and the missing model of the probe. */
  ghost predicate ConflictsAre(cfg: Config, p: Preview, decisions: set<string>, canonicalRef: string -> string,
                               keyOf: string -> Option<string>)
    requires p.canonicalId in cfg.providers
  {
    var canonical := cfg.providers[p.canonicalId];
    var staged := canonical.models + p.added;
    && (forall c :: c in p.conflicts && c != RequiredModelMissing ==>
          Reason(cfg.providers, canonical, decisions, canonicalRef, keyOf, staged, p.duplicates, c))
    && (forall c: Conflict :: !c.ModelKeyCollision? && Reason(cfg.providers, canonical, decisions, canonicalRef, keyOf, staged, p.duplicates, c) ==>
          c in p.conflicts)
    && (RequiredModelMissing in p.conflicts <==> !Has(staged, REQUIRED))
  }

  /**
    `preview_provider_merge`: READY exactly when every duplicate has the canonical contract and an agreed credential,
    every model of a duplicate can be taken over, no two of their new upstream ids share a key, and the model the probe needs
    will be there.
   */
  method PreviewProviderMerge(cfg: Config, canonicalId: string, duplicates: set<string>, decisions: set<string>,
                              canonicalRef: string -> string, keyOf: string -> Option<string>) returns (r: Option<Preview>)
    requires AllProvidersNamed(cfg.providers, keyOf)
    ensures r.None? <==> Refused(cfg.providers, canonicalId, duplicates)
    ensures r.Some? ==> r.value.canonicalId == canonicalId && r.value.duplicates == duplicates
    ensures r.Some? ==> AllTaken(cfg.providers, duplicates, r.value.added)
    ensures r.Some? ==> (Ready(r.value) <==>
      && Joinable(cfg.providers, cfg.providers[canonicalId], duplicates, decisions, canonicalRef, keyOf)
      && (Has(cfg.providers[canonicalId].models, REQUIRED) || REQUIRED in AskedIn(cfg.providers, duplicates)))
    ensures r.Some? && Ready(r.value) ==> Established(cfg, r.value)
    ensures r.Some? && Ready(r.value) ==> forall id :: id in duplicates ==>
      id in decisions || canonicalRef(cfg.providers[id].credentialRef) == canonicalRef(cfg.providers[canonicalId].credentialRef)
    ensures r.Some? ==> ConflictsAre(cfg, r.value, decisions, canonicalRef, keyOf)
  {
    if !ValidProviderId(canonicalId) || exists id :: id in duplicates && !ValidProviderId(id) {
      return None;
    }
    if duplicates == {} || canonicalId in duplicates {
      return None;
    }
    if canonicalId !in cfg.providers {
      return None;
    }
    var canonical := cfg.providers[canonicalId];
    forall id | id in duplicates ensures '/' !in id {
      ProviderStripped(id);
    }
    var s := MergeDuplicates(canonicalId, cfg.providers, canonical, duplicates, decisions, canonicalRef, keyOf);
    var conflicts := s.conflicts;
    if !(exists k :: k in s.staged && Names(s.staged, k, REQUIRED)) {
      conflicts := conflicts + [RequiredModelMissing];
    }
    r := Some(Preview(canonicalId, duplicates, s.refs, s.added, conflicts));
  }

  // ---------- what the merged config means ----------

  function Rewrite(refs: RefMap, ref: string): string {
    if ref in refs then refs[ref] else ref
  }

  /** What the text of `_final_text` reads as (`MergeText.FinalReads`): added models, rewritten references, no duplicates. */
  function Merged(cfg: Config, p: Preview): Config
    requires p.canonicalId in cfg.providers
  {
    var canonical := cfg.providers[p.canonicalId];
    Config((cfg.providers - p.duplicates)[p.canonicalId := canonical.(models := canonical.models + p.added)],
           map site | site in cfg.sites :: Rewrite(p.refs, cfg.sites[site]))
  }

  /** The config after a merge, part by part. */
  ghost predicate MergedFits(cfg: Config, p: Preview, after: Config)
    requires p.canonicalId in cfg.providers && p.canonicalId !in p.duplicates
  {
    var c := p.canonicalId;
    && (forall id :: id in after.providers <==> id in cfg.providers && id !in p.duplicates)
    && (forall id :: id in after.providers && id != c ==> after.providers[id] == cfg.providers[id])
    && after.providers[c].contract == cfg.providers[c].contract && after.providers[c].credentialRef == cfg.providers[c].credentialRef
    && (forall k :: k in after.providers[c].models <==> k in cfg.providers[c].models || k in p.added)
    && (forall k :: k in p.added ==> after.providers[c].models[k] == p.added[k])
    && (forall k :: k in cfg.providers[c].models && k !in p.added ==> after.providers[c].models[k] == cfg.providers[c].models[k])
    && (forall site :: site in after.sites <==> site in cfg.sites)
    && (forall site :: site in cfg.sites && cfg.sites[site] in p.refs ==> after.sites[site] == p.refs[cfg.sites[site]])
    && (forall site :: site in cfg.sites && cfg.sites[site] !in p.refs ==> after.sites[site] == cfg.sites[site])
  }

  /** The merged config is the only one that fits. */
  lemma {:induction false} MergedExactly(cfg: Config, p: Preview, after: Config)
    requires p.canonicalId in cfg.providers && p.canonicalId !in p.duplicates
    ensures MergedFits(cfg, p, after) <==> after == Merged(cfg, p)
  {
    var merged := Merged(cfg, p);
    assert MergedFits(cfg, p, merged);
    if MergedFits(cfg, p, after) {
      var c := p.canonicalId;
      assert after.providers[c].models == merged.providers[c].models;
      assert after.providers[c] == merged.providers[c];
      assert after.providers == merged.providers;
      assert after.sites == merged.sites;
    }
  }

  /** The reference names this pinned model. */
  predicate Resolves(providers: Registry, ref: string, id: string, key: string) {
    && ref == RefTo(id, key) && ValidProviderId(id) && ValidModelKey(key)
    && id in providers && key in providers[id].models && providers[id].models[key].Model?
  }

  /** It names a model with the same upstream id, under a Provider with the same contract that is no duplicate. */
  ghost predicate KeepsMeaning(before: Registry, id: string, key: string, after: Registry, ref: string, duplicates: set<string>)
    requires id in before && key in before[id].models && before[id].models[key].Model?
  {
    exists i, k :: ref == RefTo(i, k) && i in after && i !in duplicates && after[i].contract == before[id].contract &&
                   Names(after[i].models, k, before[id].models[key].upstreamId)
  }

  lemma {:induction false} RewrittenKeepsMeaning(cfg: Config, p: Preview, ref: string, id: string, key: string)
    requires Established(cfg, p) && Resolves(cfg.providers, ref, id, key)
    ensures KeepsMeaning(cfg.providers, id, key, Merged(cfg, p).providers, Rewrite(p.refs, ref), p.duplicates)
  {
    var after := Merged(cfg, p).providers;
    var m := cfg.providers[id].models[key];
    if id in p.duplicates {
      assert Mapped(p.canonicalId, id, key, m, cfg.providers[p.canonicalId].models + p.added, p.refs);
      var t :| t in after[p.canonicalId].models && Names(after[p.canonicalId].models, t, m.upstreamId) &&
               p.refs[ref] == RefTo(p.canonicalId, t);
    } else {
      NotMapped(cfg, p, id, key);
      assert Names(after[id].models, key, m.upstreamId);
    }
  }

  /** A reference to a Provider that is no duplicate is not in the map. */
  lemma {:induction false} NotMapped(cfg: Config, p: Preview, id: string, key: string)
    requires Established(cfg, p) && '/' !in id && id !in p.duplicates
    ensures RefTo(id, key) !in p.refs
  {
    if RefTo(id, key) in p.refs {
      var d, k :| d in p.duplicates && RefTo(id, key) == RefTo(d, k);
      ProviderStripped(d);
      RefToInjective(id, key, d, k);
    }
  }

  /** Rewriting again changes nothing. */
  lemma {:induction false} RewriteTwice(cfg: Config, p: Preview, ref: string)
    requires Established(cfg, p)
    ensures Rewrite(p.refs, Rewrite(p.refs, ref)) == Rewrite(p.refs, ref)
  {
    if ref in p.refs {
      var t :| p.refs[ref] == RefTo(p.canonicalId, t);
      ProviderStripped(p.canonicalId);
      NotMapped(cfg, p, p.canonicalId, t);
    }
  }

  /**
    A READY merge keeps meaning: every profile, image2 and git reference that resolved before names, after the merge, a
    model with the same upstream id under a Provider with the same contract, and none of them a removed duplicate.
   */
  lemma {:induction false} MergeKeepsMeaning(cfg: Config, p: Preview, site: Site, id: string, key: string)
    requires Established(cfg, p) && site in cfg.sites && Resolves(cfg.providers, cfg.sites[site], id, key)
    ensures var after := Merged(cfg, p);
      site in after.sites && KeepsMeaning(cfg.providers, id, key, after.providers, after.sites[site], p.duplicates)
  {
    RewrittenKeepsMeaning(cfg, p, cfg.sites[site], id, key);
  }
}
