/** `preview_v1_to_v2`: what a READY preview promises about every legacy model id. */
module Migration {
  import opened Wrappers
  import opened Collections
  import opened Identity
  import opened Aliases
  import opened MigrationTypes
  import opened LegacyModels
  import opened LegacyMeaning
  import opened MigrationGroups
  import opened MigrationProviders

  function KeyOf(env: Env): string -> Option<string> {
    DefaultKeys(env.fold, env.digest)
  }

  datatype Preview = Preview(registry: Registry, refs: map<string, string>, aliases: AliasMap, conflicts: seq<Conflict>)

  predicate Ready(p: Preview) {
    p.conflicts == []
  }

  /** `proposed_llm["model_aliases"]` */
  function AliasesOf(refs: map<string, string>): AliasMap {
    map id | id in refs && refs[id] != id :: refs[id]
  }

  // ---------- what becomes of one entry ----------

  /**
    What the migration promises about one legacy entry: its id refers to a pinned model with the same upstream id (after
    artifact resolution) and the same behaviour, under a Provider with the same endpoint, credential, service class,
    vendor, adapter, driver and artifact path, each of them as the fields of the entry say.
   */
  ghost predicate Preserved(env: Env, resolutions: map<string, Resolution>, item: Item, registry: Registry, refs: map<string, string>) {
    item.entry.Some? &&
    exists pid, mk :: pid in registry && mk in registry[pid].models && PreservedAs(env, resolutions, item, registry[pid], refs, pid, mk)
  }

  ghost predicate PreservedAs(env: Env, resolutions: map<string, Resolution>, item: Item, p: Provider, refs: map<string, string>,
                              pid: string, mk: string)
    requires item.entry.Some? && mk in p.models
  {
    var e := item.entry.value;
    && item.id in refs && refs[item.id] == pid + "/" + mk && SplitModelRef(refs[item.id]) == Some((pid, mk))
    && UpstreamFits(p.models[mk].upstreamId, e, Find(resolutions, item.id)) && BehaviorFits(p.models[mk].behavior, e)
    && env.root(e.provider.baseUrl, p.classification.adapter, p.models[mk].behavior.wireProtocol) == Some(p.baseUrl)
    && CredentialFits(p.credentialRef, e.provider, env.canonical) && ClassFits(p.classification, env, e.provider, p.baseUrl)
    && (ArtifactPathSuspected(e.model) ==> p.artifact == e.model)
  }

  /** The same of its row. */
  predicate KeptAs(registry: Registry, key: Key, row: Row, pid: string, mk: string) {
    && pid in registry && mk in registry[pid].models && registry[pid].models[mk] == PinnedOf(row)
    && (registry[pid].baseUrl, registry[pid].credentialRef) == key && registry[pid].classification == row.classification
    && (row.artifactPath != "" ==> registry[pid].artifact == row.artifactPath)
  }

  lemma {:induction false} ModelFits(e: Entry, r: Option<Resolution>, p: Pinned, row: Row)
    requires UpstreamFits(row.upstreamId, e, r) && BehaviorFits(row.behavior, e)
    ensures UpstreamFits(p.upstreamId, e, r) && BehaviorFits(p.behavior, e) <==> p == PinnedOf(row)
  {
    UpstreamExactly(row.upstreamId, e, r);
    UpstreamExactly(p.upstreamId, e, r);
    BehaviorExactly(row.behavior, e);
    BehaviorExactly(p.behavior, e);
  }

  lemma {:induction false} ProviderFits(env: Env, e: Entry, p: Provider, key: Key, row: Row)
    requires KeyFits(key, env, e, row) && ClassFits(row.classification, env, e.provider, key.0)
    ensures (&& env.root(e.provider.baseUrl, p.classification.adapter, row.behavior.wireProtocol) == Some(p.baseUrl)
             && CredentialFits(p.credentialRef, e.provider, env.canonical) && ClassFits(p.classification, env, e.provider, p.baseUrl))
            <==> (p.baseUrl, p.credentialRef) == key && p.classification == row.classification
  {
    CredentialExactly(key.1, env, e);
    CredentialExactly(p.credentialRef, env, e);
    ClassExactly(row.classification, env, e.provider, key.0);
    ClassExactly(p.classification, env, e.provider, p.baseUrl);
  }

  lemma {:induction false} RowIsEntry(env: Env, resolutions: map<string, Resolution>, item: Item, key: Key, row: Row)
    requires Belongs(PlaceWith(env, resolutions), item, key, row)
    ensures item.entry.Some? && RowFits(row, env, item, item.entry.value, Find(resolutions, item.id), key.0)
    ensures KeyFits(key, env, item.entry.value, row)
    ensures row.artifactPath != "" <==> ArtifactPathSuspected(item.entry.value.model)
  {
    PlacedExactly(env, resolutions, item);
    NoEmptyPath();
  }

  lemma {:induction false} NoEmptyPath()
    ensures !ArtifactPathSuspected("")
  {
  }

  lemma {:induction false} PreservedRow(env: Env, resolutions: map<string, Resolution>, item: Item, p: Provider,
                                        refs: map<string, string>, key: Key, row: Row, pid: string, mk: string)
    requires Belongs(PlaceWith(env, resolutions), item, key, row) && ValidProviderId(pid) && ValidModelKey(mk) && mk in p.models
    requires row.id in refs && refs[row.id] == pid + "/" + mk && item.entry.Some?
    ensures PreservedAs(env, resolutions, item, p, refs, pid, mk) <==>
      && p.models[mk] == PinnedOf(row) && (p.baseUrl, p.credentialRef) == key && p.classification == row.classification
      && (row.artifactPath != "" ==> p.artifact == row.artifactPath)
  {
    RefRoundTrip(pid, mk);
    RowIsEntry(env, resolutions, item, key, row);
    ModelFits(item.entry.value, Find(resolutions, item.id), p.models[mk], row);
    ProviderFits(env, item.entry.value, p, key, row);
  }

  lemma {:induction false} PreservedExactly(env: Env, resolutions: map<string, Resolution>, item: Item, registry: Registry,
                                            refs: map<string, string>, key: Key, row: Row, pid: string, mk: string)
    requires Belongs(PlaceWith(env, resolutions), item, key, row) && ValidProviderId(pid) && ValidModelKey(mk)
    requires row.id in refs && refs[row.id] == pid + "/" + mk
    ensures Preserved(env, resolutions, item, registry, refs) <==> KeptAs(registry, key, row, pid, mk)
  {
    RowIsEntry(env, resolutions, item, key, row);
    if pid in registry && mk in registry[pid].models {
      PreservedRow(env, resolutions, item, registry[pid], refs, key, row, pid, mk);
    }
    if Preserved(env, resolutions, item, registry, refs) {
      OnlyThere(env, resolutions, item, registry, refs, pid, mk);
    }
  }

  /** An entry can only be preserved where its reference leads. */
  lemma {:induction false} OnlyThere(env: Env, resolutions: map<string, Resolution>, item: Item, registry: Registry,
                                     refs: map<string, string>, pid: string, mk: string)
    requires ValidProviderId(pid) && ValidModelKey(mk) && item.id in refs && refs[item.id] == pid + "/" + mk
    requires Preserved(env, resolutions, item, registry, refs)
    ensures pid in registry && mk in registry[pid].models && PreservedAs(env, resolutions, item, registry[pid], refs, pid, mk)
  {
    RefRoundTrip(pid, mk);
    var p, k :| p in registry && k in registry[p].models && PreservedAs(env, resolutions, item, registry[p], refs, p, k);
    assert (p, k) == (pid, mk);
  }

  // ---------- what becomes of the rows ----------

  ghost predicate RowKept(keyOf: string -> Option<string>, registry: Registry, key: Key, row: Row, pid: string) {
    keyOf(row.upstreamId).Some? && KeptAs(registry, key, row, pid, keyOf(row.upstreamId).value)
  }

  /** All rows of a group are kept under its id. */
  ghost predicate GroupKept(keyOf: string -> Option<string>, registry: Registry, key: Key, rows: seq<Row>, pid: string) {
    forall row :: row in rows ==> RowKept(keyOf, registry, key, row, pid)
  }

  /** No two different upstream ids of the group share a key. */
  ghost predicate KeysApart(keyOf: string -> Option<string>, rows: seq<Row>) {
    forall r, t {:trigger KeyApart(keyOf, r, t)} :: r in rows && t in rows ==> KeyApart(keyOf, r, t)
  }

  ghost predicate KeyApart(keyOf: string -> Option<string>, r: Row, t: Row) {
    keyOf(r.upstreamId) == keyOf(t.upstreamId) ==> r.upstreamId == t.upstreamId
  }

  lemma {:induction false} UseOf(pid: string, wanted: seq<Wanted>, w: Wanted)
    requires w in wanted
    ensures Use(pid, w.pinned) in UsesOf(pid, wanted)
  {
    var n := |wanted| - 1;
    if w in wanted[..n] {
      UseOf(pid, wanted[..n], w);
    }
  }

  lemma {:induction false} UseListed(groups: Groups, order: seq<Key>, ids: seq<string>, i: nat, w: Wanted)
    requires Filled(groups, order) && |ids| == |order| && i < |order| && w in WantedBy(groups[order[i]])
    ensures Use(ids[i], w.pinned) in AllUses(groups, order, ids)
  {
    var n := |order| - 1;
    AllUsesLast(groups, order, ids, n);
    var front, last := AllUses(groups, order[..n], ids[..n]), UsesOf(ids[n], WantedBy(groups[order[n]]));
    if i < n {
      assert ids[..n][i] == ids[i] && order[..n][i] == order[i];
      UseListed(groups, order[..n], ids[..n], i, w);
    } else {
      UseOf(ids[i], WantedBy(groups[order[i]]), w);
    }
    InParts(AllUses(groups, order, ids), front, last, Use(ids[i], w.pinned));
  }

  lemma {:induction false} InParts<T>(s: seq<T>, a: seq<T>, b: seq<T>, x: T)
    requires s == a + b && (x in a || x in b)
    ensures x in s
  {
  }

  lemma {:induction false} AllUsesLast(groups: Groups, order: seq<Key>, ids: seq<string>, n: nat)
    requires Filled(groups, order) && |ids| == |order| == n + 1
    ensures Filled(groups, order[..n])
    ensures AllUses(groups, order, ids) == AllUses(groups, order[..n], ids[..n]) + UsesOf(ids[n], WantedBy(groups[order[n]]))
  {
  }

  /** The last group of an id keeps its rows exactly when its keys are apart. */
  lemma {:induction false} KeptWhenApart(keyOf: string -> Option<string>, groups: Groups, order: seq<Key>, b: Build, i: nat, row: Row)
    requires Filled(groups, order) && BuildOk(keyOf, groups, order, b) && b.conflicts == [] && i < |order|
    requires IsLast(b.existing, i) && KeysApart(keyOf, groups[order[i]]) && row in groups[order[i]]
    ensures RowKept(keyOf, b.registry, order[i], row, b.existing[i])
  {
    var rows, pid := groups[order[i]], b.existing[i];
    var p := b.registry[pid];
    assert MadeFor(keyOf, order[i], rows, p);
    WantedRow(rows, row);
    assert Referred(keyOf, b.refs, pid, WantedBy(rows));
    var mk := keyOf(row.upstreamId).value;
    PinnedIsWanted(keyOf, rows, p.models, row, mk);
    var w :| w in WantedBy(rows) && keyOf(w.pinned.upstreamId) == Some(mk) && w.pinned == p.models[mk];
    var other := RowWanting(rows, w);
    assert KeyApart(keyOf, row, other);
    UseListed(groups, order, b.existing, i, w);
    UseListed(groups, order, b.existing, i, Wanted(row.id, PinnedOf(row)));
    assert Agree(Use(pid, w.pinned), Use(pid, PinnedOf(row)));
    assert OneProvider(rows);
  }

  lemma {:induction false} PinnedIsWanted(keyOf: string -> Option<string>, rows: seq<Row>, models: map<string, Pinned>, row: Row, mk: string)
    requires PinnedFor(keyOf, WantedBy(rows), models) && row in rows && keyOf(row.upstreamId) == Some(mk)
    ensures mk in models && exists w :: w in WantedBy(rows) && keyOf(w.pinned.upstreamId) == Some(mk) && w.pinned == models[mk]
  {
    WantedRow(rows, row);
  }

  lemma {:induction false} ApartWhenKept(keyOf: string -> Option<string>, registry: Registry, key: Key, rows: seq<Row>, pid: string)
    requires GroupKept(keyOf, registry, key, rows, pid)
    ensures KeysApart(keyOf, rows)
  {
    forall r, t | r in rows && t in rows ensures KeyApart(keyOf, r, t) {
      assert RowKept(keyOf, registry, key, r, pid) && RowKept(keyOf, registry, key, t, pid);
    }
  }

  lemma {:induction false} LastOf(ids: seq<string>, i: nat) returns (l: nat)
    requires i < |ids|
    ensures i <= l < |ids| && ids[l] == ids[i] && IsLast(ids, l)
    decreases |ids| - i
  {
    if IsLast(ids, i) {
      l := i;
    } else {
      var j :| i < j < |ids| && ids[j] == ids[i];
      l := LastOf(ids, j);
    }
  }

  /** A group whose id is taken again later keeps none of its rows. */
  lemma {:induction false} OverwrittenIsLost(keyOf: string -> Option<string>, groups: Groups, order: seq<Key>, b: Build, i: nat, row: Row)
    requires Filled(groups, order) && BuildOk(keyOf, groups, order, b) && Different(order) && i < |order|
    requires !IsLast(b.existing, i)
    ensures !RowKept(keyOf, b.registry, order[i], row, b.existing[i])
  {
    var l := LastOf(b.existing, i);
    assert MadeFor(keyOf, order[l], groups[order[l]], b.registry[b.existing[l]]);
    assert order[l] != order[i];
  }

  /** Every row of every group is kept. */
  ghost predicate AllKept(keyOf: string -> Option<string>, groups: Groups, order: seq<Key>, ids: seq<string>, registry: Registry)
    requires Filled(groups, order) && |ids| == |order|
  {
    forall i :: 0 <= i < |order| ==> GroupKept(keyOf, registry, order[i], groups[order[i]], ids[i])
  }

  ghost predicate AllApart(keyOf: string -> Option<string>, groups: Groups) {
    forall k :: k in groups ==> KeysApart(keyOf, groups[k])
  }

  ghost predicate Listed(groups: Groups, order: seq<Key>) {
    Different(order) && forall k :: k in order <==> k in groups
  }

  lemma {:induction false} DifferentWhenKept(keyOf: string -> Option<string>, groups: Groups, order: seq<Key>, b: Build)
    requires Filled(groups, order) && Different(order) && BuildOk(keyOf, groups, order, b)
    requires AllKept(keyOf, groups, order, b.existing, b.registry)
    ensures Different(b.existing)
  {
    forall i, j | 0 <= i < j < |order| ensures b.existing[i] != b.existing[j] {
      assert GroupKept(keyOf, b.registry, order[i], groups[order[i]], b.existing[i]);
      if !IsLast(b.existing, i) {
        OverwrittenIsLost(keyOf, groups, order, b, i, groups[order[i]][0]);
      }
    }
  }

  lemma {:induction false} AllApartWhenKept(keyOf: string -> Option<string>, groups: Groups, order: seq<Key>, ids: seq<string>,
                                            registry: Registry)
    requires Filled(groups, order) && Listed(groups, order) && |ids| == |order| && AllKept(keyOf, groups, order, ids, registry)
    ensures AllApart(keyOf, groups)
  {
    forall k | k in groups ensures KeysApart(keyOf, groups[k]) {
      var i :| 0 <= i < |order| && order[i] == k;
      ApartWhenKept(keyOf, registry, k, groups[k], ids[i]);
    }
  }

  lemma {:induction false} AllKeptWhenApart(keyOf: string -> Option<string>, groups: Groups, order: seq<Key>, b: Build)
    requires Filled(groups, order) && BuildOk(keyOf, groups, order, b) && b.conflicts == []
    requires Different(b.existing) && AllApart(keyOf, groups)
    ensures AllKept(keyOf, groups, order, b.existing, b.registry)
  {
    forall i, row | 0 <= i < |order| && row in groups[order[i]] ensures RowKept(keyOf, b.registry, order[i], row, b.existing[i]) {
      KeptWhenApart(keyOf, groups, order, b, i, row);
    }
  }

  lemma {:induction false} KeptExactly(keyOf: string -> Option<string>, groups: Groups, order: seq<Key>, b: Build)
    requires Filled(groups, order) && Listed(groups, order) && BuildOk(keyOf, groups, order, b) && b.conflicts == []
    ensures AllKept(keyOf, groups, order, b.existing, b.registry) <==> Different(b.existing) && AllApart(keyOf, groups)
  {
    if AllKept(keyOf, groups, order, b.existing, b.registry) {
      DifferentWhenKept(keyOf, groups, order, b);
      AllApartWhenKept(keyOf, groups, order, b.existing, b.registry);
    } else if Different(b.existing) && AllApart(keyOf, groups) {
      AllKeptWhenApart(keyOf, groups, order, b);
    }
  }

  // ---------- the preview ----------

  predicate NoneFails(place: Item -> Placement, library: seq<Item>) {
    forall n :: 0 <= n < |library| ==> !Fails(place, library[n])
  }

  predicate AllClean(place: Item -> Placement, library: seq<Item>) {
    forall n :: 0 <= n < |library| ==> Clean(place, library[n])
  }

  lemma {:induction false} LibraryFills(place: Item -> Placement, library: seq<Item>)
    ensures Filled(GroupsOf(place, library), OrderOf(place, library)) && Listed(GroupsOf(place, library), OrderOf(place, library))
  {
    OrderListsGroups(place, library);
  }

  /** The ids of the library's groups, in order. */
  function LibraryIds(naming: Naming, place: Item -> Placement, library: seq<Item>): (ids: seq<string>)
    ensures |ids| == |OrderOf(place, library)|
  {
    LibraryFills(place, library);
    IdsOf(naming, GroupsOf(place, library), OrderOf(place, library))
  }

  /** Every group can become one Provider, and no two uses of one of its models differ. */
  predicate LibraryFits(naming: Naming, place: Item -> Placement, library: seq<Item>) {
    LibraryFills(place, library);
    && AllFit(GroupsOf(place, library), OrderOf(place, library))
    && Agreeing(AllUses(GroupsOf(place, library), OrderOf(place, library), LibraryIds(naming, place, library)))
  }

  /** No upstream id is blank. */
  ghost predicate LibraryUsable(keyOf: string -> Option<string>, place: Item -> Placement, library: seq<Item>) {
    LibraryFills(place, library);
    AllUsable(keyOf, GroupsOf(place, library), OrderOf(place, library))
  }

  ghost predicate LibraryKept(keyOf: string -> Option<string>, naming: Naming, place: Item -> Placement, library: seq<Item>,
                              registry: Registry) {
    LibraryFills(place, library);
    AllKept(keyOf, GroupsOf(place, library), OrderOf(place, library), LibraryIds(naming, place, library), registry)
  }

  ghost predicate LibraryReferred(keyOf: string -> Option<string>, naming: Naming, place: Item -> Placement, library: seq<Item>,
                                  refs: map<string, string>) {
    LibraryFills(place, library);
    AllReferred(keyOf, GroupsOf(place, library), OrderOf(place, library), LibraryIds(naming, place, library), refs)
  }

  /** The legacy ids of the entries that are placed. */
  function PlacedIds(place: Item -> Placement, library: seq<Item>): set<string> {
    set n | 0 <= n < |library| && place(library[n]).Joined? :: library[n].id
  }

  lemma {:induction false} RefersToPlaced(keyOf: string -> Option<string>, naming: Naming, place: Item -> Placement, library: seq<Item>,
                                          refs: map<string, string>)
    requires Faithful(place) && LibraryReferred(keyOf, naming, place, library, refs)
    requires Filled(GroupsOf(place, library), OrderOf(place, library)) && Listed(GroupsOf(place, library), OrderOf(place, library))
    requires OnlyReferred(GroupsOf(place, library), OrderOf(place, library), refs)
    ensures refs.Keys == PlacedIds(place, library) && forall id :: id in refs ==> '/' in refs[id]
  {
    AllHaveSlashes(keyOf, GroupsOf(place, library), OrderOf(place, library), LibraryIds(naming, place, library), refs);
    AllArePlaced(place, library, refs);
    PlacedAreReferred(keyOf, naming, place, library, refs);
  }

  lemma {:induction false} AllHaveSlashes(keyOf: string -> Option<string>, groups: Groups, order: seq<Key>, ids: seq<string>,
                                          refs: map<string, string>)
    requires Filled(groups, order) && |ids| == |order| && AllReferred(keyOf, groups, order, ids, refs)
    requires OnlyReferred(groups, order, refs)
    ensures forall id :: id in refs ==> '/' in refs[id]
  {
    forall id | id in refs ensures '/' in refs[id] {
      ReferencesHaveSlashes(keyOf, groups, order, ids, refs, id);
    }
  }

  lemma {:induction false} AllArePlaced(place: Item -> Placement, library: seq<Item>, refs: map<string, string>)
    requires Faithful(place) && Filled(GroupsOf(place, library), OrderOf(place, library))
    requires OnlyReferred(GroupsOf(place, library), OrderOf(place, library), refs)
    ensures refs.Keys <= PlacedIds(place, library)
  {
    forall id | id in refs ensures id in PlacedIds(place, library) {
      ReferredIsPlaced(place, library, refs, id);
    }
  }

  lemma {:induction false} PlacedAreReferred(keyOf: string -> Option<string>, naming: Naming, place: Item -> Placement,
                                             library: seq<Item>, refs: map<string, string>)
    requires Faithful(place) && LibraryReferred(keyOf, naming, place, library, refs)
    ensures PlacedIds(place, library) <= refs.Keys
  {
    forall id | id in PlacedIds(place, library) ensures id in refs {
      var n :| 0 <= n < |library| && place(library[n]).Joined? && library[n].id == id;
      PlacedIsReferred(keyOf, naming, place, library, refs, n);
    }
  }

  lemma {:induction false} ReferredIsPlaced(place: Item -> Placement, library: seq<Item>, refs: map<string, string>, id: string)
    requires Faithful(place) && Filled(GroupsOf(place, library), OrderOf(place, library))
    requires OnlyReferred(GroupsOf(place, library), OrderOf(place, library), refs) && id in refs
    ensures id in PlacedIds(place, library)
  {
    var groups, order := GroupsOf(place, library), OrderOf(place, library);
    assert HasGroup(groups, order, id);
    var i :| 0 <= i < |order| && HasId(groups[order[i]], id);
    var j :| 0 <= j < |groups[order[i]]| && groups[order[i]][j].id == id;
    RowsBelong(place, library, order[i], groups[order[i]][j]);
    var n :| 0 <= n < |library| && Belongs(place, library[n], order[i], groups[order[i]][j]);
    assert place(library[n]).Joined? && library[n].id == id;
  }

  lemma {:induction false} PlacedIsReferred(keyOf: string -> Option<string>, naming: Naming, place: Item -> Placement,
                                            library: seq<Item>, refs: map<string, string>, n: nat)
    requires Faithful(place) && LibraryReferred(keyOf, naming, place, library, refs) && n < |library| && place(library[n]).Joined?
    ensures library[n].id in refs
  {
    var groups, order := GroupsOf(place, library), OrderOf(place, library);
    LibraryFills(place, library);
    PlacedAreGrouped(place, library, n);
    var key, row :| key in groups && row in groups[key] && Belongs(place, library[n], key, row);
    var i :| 0 <= i < |order| && order[i] == key;
    WantedRow(groups[key], row);
    assert Referred(keyOf, refs, LibraryIds(naming, place, library)[i], WantedBy(groups[order[i]]));
  }

  function Elements<T>(s: seq<T>): set<T> {
    set x | x in s
  }

  lemma {:induction false} ElementsSize<T>(s: seq<T>)
    ensures |Elements(s)| <= |s|
    ensures |Elements(s)| == |s| <==> Different(s)
  {
    if s == [] {
      assert Elements(s) == {};
    } else {
      var front, x := s[..|s| - 1], s[|s| - 1];
      ElementsSize(front);
      assert s == front + [x];
      assert Elements(s) == Elements(front) + {x};
    }
  }

  /** Both loops. */
  method GroupAndBuild(naming: Naming, keyOf: string -> Option<string>, place: Item -> Placement, library: seq<Item>,
                       resolutions: map<string, Resolution>)
    returns (r: Result<Preview, PreviewError>)
    requires Marks(naming) && ValidKeys(keyOf) && Faithful(place) && Complaining(place) && DistinctItems(library)
    ensures r.Ok? <==> NoneFails(place, library) && resolutions.Keys == Consumed(place, library) && LibraryUsable(keyOf, place, library)
    ensures r.Ok? ==> (Ready(r.value) <==> AllClean(place, library) && LibraryFits(naming, place, library))
    ensures r.Ok? ==> LibraryReferred(keyOf, naming, place, library, r.value.refs)
    ensures r.Ok? ==> r.value.refs.Keys == PlacedIds(place, library) && forall id :: id in r.value.refs ==> '/' in r.value.refs[id]
    ensures r.Ok? && Ready(r.value) ==>
      (LibraryKept(keyOf, naming, place, library, r.value.registry) <==>
       Different(LibraryIds(naming, place, library)) && AllApart(keyOf, GroupsOf(place, library)))
    ensures r.Ok? ==> r.value.registry.Keys == Elements(LibraryIds(naming, place, library))
    ensures r.Ok? ==> r.value.aliases == AliasesOf(r.value.refs)
    ensures r.Ok? ==> ConflictsAre(naming, place, library, r.value.conflicts)
    ensures r.Err? ==> Raises(keyOf, place, library, r.error)
  {
    var error, keys, groups, conflicts := GroupEntries(place, library, resolutions);
    if error.Some? {
      return Err(error.value);
    }
    var ok, b := BuildLibrary(naming, keyOf, place, library, keys, groups);
    if !ok {
      return Err(BadModelId);
    }
    BothEmpty(conflicts, b.conflicts);
    assert forall c :: c in conflicts + b.conflicts <==> c in conflicts || c in b.conflicts;
    r := Ok(Preview(b.registry, b.refs, AliasesOf(b.refs), conflicts + b.conflicts));
  }

  /** What the second loop complains of. */
  ghost predicate LibraryBlamed(naming: Naming, place: Item -> Placement, library: seq<Item>, conflicts: seq<Conflict>) {
    LibraryFills(place, library);
    var groups, order := GroupsOf(place, library), OrderOf(place, library);
    Blamed(groups, order, conflicts, Agreeing(AllUses(groups, order, LibraryIds(naming, place, library))))
  }

  /** The conflicts of a preview are those of the entries and those of the groups. */
  ghost predicate ConflictsAre(naming: Naming, place: Item -> Placement, library: seq<Item>, conflicts: seq<Conflict>) {
    exists more :: LibraryBlamed(naming, place, library, more) &&
                   forall c :: c in conflicts <==> Complained(place, library, c) || c in more
  }

  /** What is raised: the error of the first entry that cannot be placed, then an unused resolution, then a blank upstream id. */
  ghost predicate Raises(keyOf: string -> Option<string>, place: Item -> Placement, library: seq<Item>, e: PreviewError) {
    FirstError(place, library, e) || (NoneFails(place, library) && !LibraryUsable(keyOf, place, library) && e == BadModelId)
  }

  /** The second loop over the groups of a library. */
  method BuildLibrary(naming: Naming, keyOf: string -> Option<string>, place: Item -> Placement, library: seq<Item>, keys: seq<Key>,
                      groups: Groups) returns (ok: bool, b: Build)
    requires Marks(naming) && ValidKeys(keyOf) && Faithful(place) && DistinctItems(library)
    requires keys == KeysOf(place, library) && groups == GroupsOf(place, library)
    ensures ok <==> LibraryUsable(keyOf, place, library)
    ensures ok ==> (b.conflicts == [] <==> LibraryFits(naming, place, library))
    ensures ok ==> LibraryReferred(keyOf, naming, place, library, b.refs)
    ensures ok ==> b.refs.Keys == PlacedIds(place, library) && forall id :: id in b.refs ==> '/' in b.refs[id]
    ensures ok && b.conflicts == [] ==>
      (LibraryKept(keyOf, naming, place, library, b.registry) <==>
       Different(LibraryIds(naming, place, library)) && AllApart(keyOf, groups))
    ensures ok ==> b.registry.Keys == Elements(LibraryIds(naming, place, library))
    ensures ok ==> LibraryBlamed(naming, place, library, b.conflicts)
  {
    LibraryFills(place, library);
    LibraryDetermines(place, library);
    ok, b := BuildProviders(naming, keyOf, groups, Sorted(keys));
    if ok {
      RefersToPlaced(keyOf, naming, place, library, b.refs);
      RegistryIds(keyOf, groups, Sorted(keys), b.existing, b.registry);
      if b.conflicts == [] {
        KeptExactly(keyOf, groups, Sorted(keys), b);
      }
    }
  }

  lemma {:induction false} RegistryIds(keyOf: string -> Option<string>, groups: Groups, order: seq<Key>, ids: seq<string>, registry: Registry)
    requires Filled(groups, order) && |ids| == |order| && AllMade(keyOf, groups, order, ids, registry)
    ensures registry.Keys == Elements(ids)
  {
  }

  /** There are as many Providers as groups exactly when the ids differ. */
  lemma {:induction false} OnePerGroup(groups: Groups, order: seq<Key>, ids: seq<string>, registry: Registry)
    requires Listed(groups, order) && |ids| == |order| && registry.Keys == Elements(ids)
    ensures |registry| == |groups| <==> Different(ids)
  {
    assert Elements(order) == groups.Keys;
    ElementsSize(order);
    ElementsSize(ids);
    assert |registry| == |registry.Keys| && |groups| == |groups.Keys|;
  }

  lemma {:induction false} PlacesComplain(env: Env, resolutions: map<string, Resolution>)
    ensures Complaining(PlaceWith(env, resolutions))
  {
    forall item: Item ensures PlaceWith(env, resolutions)(item).Skipped? ==> PlaceWith(env, resolutions)(item).more != [] {
    }
  }

  lemma {:induction false} RowsAreFaithful(env: Env, resolutions: map<string, Resolution>)
    ensures Faithful(PlaceWith(env, resolutions))
  {
  }

  ghost predicate AllPreserved(env: Env, library: seq<Item>, resolutions: map<string, Resolution>, registry: Registry,
                               refs: map<string, string>) {
    forall n :: 0 <= n < |library| ==> Preserved(env, resolutions, library[n], registry, refs)
  }

  /** A row of the `i`th group. */
  predicate RowAt(place: Item -> Placement, library: seq<Item>, i: nat, row: Row)
    requires i < |OrderOf(place, library)|
  {
    LibraryFills(place, library);
    row in GroupsOf(place, library)[OrderOf(place, library)[i]]
  }

  lemma {:induction false} ItemPreserved(env: Env, library: seq<Item>, resolutions: map<string, Resolution>, registry: Registry,
                                         refs: map<string, string>, n: nat, i: nat, row: Row)
    requires Marks(env.naming) && IsDigest(env.digest) && n < |library|
    requires LibraryReferred(KeyOf(env), env.naming, PlaceWith(env, resolutions), library, refs)
    requires i < |OrderOf(PlaceWith(env, resolutions), library)|
    requires RowAt(PlaceWith(env, resolutions), library, i, row)
    requires Belongs(PlaceWith(env, resolutions), library[n], OrderOf(PlaceWith(env, resolutions), library)[i], row)
    ensures var place := PlaceWith(env, resolutions);
      Preserved(env, resolutions, library[n], registry, refs) <==>
      RowKept(KeyOf(env), registry, OrderOf(place, library)[i], row, LibraryIds(env.naming, place, library)[i])
  {
    var place := PlaceWith(env, resolutions);
    var groups, order := GroupsOf(place, library), OrderOf(place, library);
    LibraryFills(place, library);
    IdsAreValid(env.naming, groups, order);
    KeysAreValid(env.fold, env.digest);
    var pid := LibraryIds(env.naming, place, library)[i];
    WantedRow(groups[order[i]], row);
    assert Referred(KeyOf(env), refs, pid, WantedBy(groups[order[i]]));
    PreservedExactly(env, resolutions, library[n], registry, refs, order[i], row, pid, KeyOf(env)(row.upstreamId).value);
  }

  /** Preserving every entry is keeping every row. */
  lemma {:induction false} LibraryPreserved(env: Env, library: seq<Item>, resolutions: map<string, Resolution>, registry: Registry,
                                            refs: map<string, string>)
    requires Marks(env.naming) && IsDigest(env.digest) && AllClean(PlaceWith(env, resolutions), library)
    requires LibraryReferred(KeyOf(env), env.naming, PlaceWith(env, resolutions), library, refs)
    ensures AllPreserved(env, library, resolutions, registry, refs) <==>
            LibraryKept(KeyOf(env), env.naming, PlaceWith(env, resolutions), library, registry)
  {
    var place := PlaceWith(env, resolutions);
    var groups, order := GroupsOf(place, library), OrderOf(place, library);
    var ids := LibraryIds(env.naming, place, library);
    LibraryFills(place, library);
    if AllPreserved(env, library, resolutions, registry, refs) {
      forall i, row | 0 <= i < |order| && row in groups[order[i]] ensures RowKept(KeyOf(env), registry, order[i], row, ids[i]) {
        RowsBelong(place, library, order[i], row);
        var n :| 0 <= n < |library| && Belongs(place, library[n], order[i], row);
        ItemPreserved(env, library, resolutions, registry, refs, n, i, row);
      }
    }
    if LibraryKept(KeyOf(env), env.naming, place, library, registry) {
      forall n | 0 <= n < |library| ensures Preserved(env, resolutions, library[n], registry, refs) {
        assert Clean(place, library[n]);
        PlacedAreGrouped(place, library, n);
        var key, row :| key in groups && row in groups[key] && Belongs(place, library[n], key, row);
        var i :| 0 <= i < |order| && order[i] == key;
        assert GroupKept(KeyOf(env), registry, order[i], groups[order[i]], ids[i]);
        ItemPreserved(env, library, resolutions, registry, refs, n, i, row);
      }
    }
  }

  /** Two entries placed together with one upstream id do not name different transports. */
  predicate SameTransport(place: Item -> Placement, a: Item, b: Item) {
    var (p, q) := (place(a), place(b));
    p.Joined? && q.Joined? && p.key == q.key && p.row.upstreamId == q.row.upstreamId && a.entry.Some? && b.entry.Some? ==>
      a.entry.value.transport == "" || b.entry.value.transport == "" || a.entry.value.transport == b.entry.value.transport
  }

  ghost predicate SameTransports(place: Item -> Placement, library: seq<Item>) {
    forall m, n :: 0 <= m < |library| && 0 <= n < |library| ==> SameTransport(place, library[m], library[n])
  }

  lemma {:induction false} TransportsAgree(env: Env, resolutions: map<string, Resolution>, library: seq<Item>)
    requires LibraryFits(env.naming, PlaceWith(env, resolutions), library)
    ensures SameTransports(PlaceWith(env, resolutions), library)
  {
    var place := PlaceWith(env, resolutions);
    forall m, n | 0 <= m < |library| && 0 <= n < |library| ensures SameTransport(place, library[m], library[n]) {
      var p, q := place(library[m]), place(library[n]);
      if p.Joined? && q.Joined? && p.key == q.key && p.row.upstreamId == q.row.upstreamId {
        SameBehavior(env.naming, place, library, m, n);
        RowIsEntry(env, resolutions, library[m], p.key, p.row);
        RowIsEntry(env, resolutions, library[n], q.key, q.row);
        BehaviorExactly(p.row.behavior, library[m].entry.value);
        BehaviorExactly(q.row.behavior, library[n].entry.value);
        TransportsTell(library[m].entry.value, library[n].entry.value);
      }
    }
  }

  lemma {:induction false} SameBehavior(naming: Naming, place: Item -> Placement, library: seq<Item>, m: nat, n: nat)
    requires m < |library| && n < |library| && LibraryFits(naming, place, library)
    requires place(library[m]).Joined? && place(library[n]).Joined? && place(library[m]).key == place(library[n]).key
    requires place(library[m]).row.upstreamId == place(library[n]).row.upstreamId
    ensures place(library[m]).row.behavior == place(library[n]).row.behavior
  {
    LibraryFills(place, library);
    var groups, order, ids := GroupsOf(place, library), OrderOf(place, library), LibraryIds(naming, place, library);
    var i := PlacedUse(naming, place, library, m);
    var j := PlacedUse(naming, place, library, n);
    assert order[i] == order[j] && i == j;
    assert Agree(Use(ids[i], PinnedOf(place(library[m]).row)), Use(ids[j], PinnedOf(place(library[n]).row)));
  }

  /** The model that a placed entry asks for is listed under the id of its group. */
  lemma {:induction false} PlacedUse(naming: Naming, place: Item -> Placement, library: seq<Item>, n: nat) returns (i: nat)
    requires n < |library| && place(library[n]).Joined?
    requires Filled(GroupsOf(place, library), OrderOf(place, library))
    ensures i < |OrderOf(place, library)| && OrderOf(place, library)[i] == place(library[n]).key
    ensures Use(LibraryIds(naming, place, library)[i], PinnedOf(place(library[n]).row)) in
            AllUses(GroupsOf(place, library), OrderOf(place, library), LibraryIds(naming, place, library))
  {
    LibraryFills(place, library);
    var groups, order := GroupsOf(place, library), OrderOf(place, library);
    PlacedAreGrouped(place, library, n);
    var key, row :| key in groups && row in groups[key] && Belongs(place, library[n], key, row);
    i :| 0 <= i < |order| && order[i] == key;
    WantedRow(groups[key], row);
    UseListed(groups, order, LibraryIds(naming, place, library), i, Wanted(row.id, PinnedOf(row)));
  }

  /**
    `preview_v1_to_v2`.  It raises exactly when an entry cannot be placed, an artifact resolution is not used or an
    upstream id is blank.  It is READY exactly when every entry is placed without a conflict, every group can be one
    Provider and no two uses of a model differ.  And then all legacy entries are preserved if and only if no two groups
    were given the same id and no two upstream ids of a group have the same key.
   */
  method PreviewV1ToV2(env: Env, library: seq<Item>, resolutions: map<string, Resolution>)
    returns (r: Result<Preview, PreviewError>)
    requires IsDigest(env.digest) && Marks(env.naming) && DistinctItems(library)
    ensures r.Ok? <==> NoneFails(PlaceWith(env, resolutions), library) &&
                       resolutions.Keys == Consumed(PlaceWith(env, resolutions), library) &&
                       LibraryUsable(KeyOf(env), PlaceWith(env, resolutions), library)
    ensures r.Ok? ==> (Ready(r.value) <==> AllClean(PlaceWith(env, resolutions), library) &&
                                           LibraryFits(env.naming, PlaceWith(env, resolutions), library))
    ensures r.Ok? && Ready(r.value) ==>
      (AllPreserved(env, library, resolutions, r.value.registry, r.value.refs) <==>
       Different(LibraryIds(env.naming, PlaceWith(env, resolutions), library)) &&
       AllApart(KeyOf(env), GroupsOf(PlaceWith(env, resolutions), library)))
    ensures r.Ok? ==> r.value.registry.Keys == Elements(LibraryIds(env.naming, PlaceWith(env, resolutions), library))
    ensures r.Ok? ==>
      (|r.value.registry| == |GroupsOf(PlaceWith(env, resolutions), library)| <==>
       Different(LibraryIds(env.naming, PlaceWith(env, resolutions), library)))
    ensures r.Ok? ==> r.value.aliases == AliasesOf(r.value.refs)
    ensures r.Ok? ==> forall id :: id in r.value.aliases <==> id in r.value.refs && r.value.refs[id] != id
    ensures r.Ok? ==> forall id :: id in r.value.aliases ==> r.value.aliases[id] == r.value.refs[id]
    ensures r.Ok? ==> ConflictsAre(env.naming, PlaceWith(env, resolutions), library, r.value.conflicts)
    ensures r.Err? ==> Raises(KeyOf(env), PlaceWith(env, resolutions), library, r.error)
    ensures r.Ok? && Ready(r.value) ==> SameTransports(PlaceWith(env, resolutions), library)
    ensures r.Ok? ==> LibraryReferred(KeyOf(env), env.naming, PlaceWith(env, resolutions), library, r.value.refs)
    ensures r.Ok? ==> r.value.refs.Keys == PlacedIds(PlaceWith(env, resolutions), library)
    ensures r.Ok? ==> forall id :: id in r.value.refs ==> '/' in r.value.refs[id]
    ensures r.Ok? && (forall n :: 0 <= n < |library| ==> '/' !in library[n].id) ==>
      forall id :: id in r.value.refs ==> Leaves(r.value.aliases, id) && End(r.value.aliases, id) == r.value.refs[id]
  {
    KeysAreValid(env.fold, env.digest);
    RowsAreFaithful(env, resolutions);
    PlacesComplain(env, resolutions);
    r := GroupAndBuild(env.naming, KeyOf(env), PlaceWith(env, resolutions), library, resolutions);
    if r.Ok? {
      var place := PlaceWith(env, resolutions);
      LibraryFills(place, library);
      OnePerGroup(GroupsOf(place, library), OrderOf(place, library), LibraryIds(env.naming, place, library), r.value.registry);
    }
    if r.Ok? && forall n :: 0 <= n < |library| ==> '/' !in library[n].id {
      forall id | id in r.value.refs ensures Leaves(r.value.aliases, id) && End(r.value.aliases, id) == r.value.refs[id] {
        PlainIdsFollow(r.value.refs, id);
      }
    }
    if r.Ok? && Ready(r.value) {
      TransportsAgree(env, resolutions, library);
      LibraryPreserved(env, library, resolutions, r.value.registry, r.value.refs);
    }
  }

  /**
    Following the new alias map from an old id ends at the id's new reference if and only if that reference is not
    itself an old id that moved.
   */
  lemma {:induction false} AliasFollows(refs: map<string, string>, id: string)
    requires id in refs
    ensures var m := AliasesOf(refs);
      (Leaves(m, id) && End(m, id) == refs[id]) <==> refs[id] !in m
  {
    var m := AliasesOf(refs);
    if refs[id] !in m {
      var hops := if id in m then 1 else 0;
      assert Hop(m, refs[id], 0) == refs[id];
      assert Hop(m, id, hops) == refs[id];
      EndIs(m, id, hops);
    } else if Leaves(m, id) {
      var n: nat :| Hop(m, id, n) !in m && End(m, id) == Hop(m, id, n);
    }
  }

  /** In particular if no legacy id contains a slash: every new reference does. */
  lemma {:induction false} PlainIdsFollow(refs: map<string, string>, id: string)
    requires id in refs && forall x :: x in refs ==> '/' !in x && '/' in refs[x]
    ensures Leaves(AliasesOf(refs), id) && End(AliasesOf(refs), id) == refs[id]
  {
    AliasFollows(refs, id);
  }
}
