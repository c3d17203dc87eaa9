/** The second loop of `preview_v1_to_v2`: one Provider per group, one pinned model per key. */
module MigrationProviders {
  import opened Wrappers
  import opened Collections
  import opened Identity
  import opened MigrationTypes

  // ---------- ids of the groups ----------

  ghost predicate Marks(naming: Naming) {
    forall key: Key :: IsMark(naming.mark(key))
  }

  function NameOf(naming: Naming, key: Key, row: Row, existing: seq<string>): string {
    SuggestProviderId(naming.source(key, row), naming.mark(key), existing)
  }

  predicate Filled(groups: Groups, order: seq<Key>) {
    forall i :: 0 <= i < |order| ==> order[i] in groups && groups[order[i]] != []
  }

  /** The ids of groups taken in this order: each is suggested with those in front of it in use. */
  function IdsOf(naming: Naming, groups: Groups, order: seq<Key>): (ids: seq<string>)
    requires Filled(groups, order)
    ensures |ids| == |order|
  {
    if order == [] then []
    else
      var last := order[|order| - 1];
      var front := IdsOf(naming, groups, order[..|order| - 1]);
      front + [NameOf(naming, last, groups[last][0], front)]
  }

  lemma {:induction false} IdsAreValid(naming: Naming, groups: Groups, order: seq<Key>)
    requires Filled(groups, order) && Marks(naming)
    ensures forall i :: 0 <= i < |order| ==> ValidProviderId(IdsOf(naming, groups, order)[i])
  {
    if order != [] {
      var last, front := order[|order| - 1], order[..|order| - 1];
      IdsAreValid(naming, groups, front);
      SuggestedIsValid(naming.source(last, groups[last][0]), naming.mark(last), IdsOf(naming, groups, front));
    }
  }

  // ---------- the rows of one group ----------

  /** A legacy id with the model its row asks for. */
  datatype Wanted = Wanted(id: string, pinned: Pinned)

  function PinnedOf(row: Row): Pinned {
    Pinned(row.upstreamId, row.behavior)
  }

  function WantedBy(rows: seq<Row>): (r: seq<Wanted>)
    ensures |r| == |rows| && forall i :: 0 <= i < |rows| ==> r[i] == Wanted(rows[i].id, PinnedOf(rows[i]))
  {
    if rows == [] then [] else WantedBy(rows[..|rows| - 1]) + [Wanted(rows[|rows| - 1].id, PinnedOf(rows[|rows| - 1]))]
  }

  lemma {:induction false} WantedRow(rows: seq<Row>, row: Row)
    requires row in rows
    ensures Wanted(row.id, PinnedOf(row)) in WantedBy(rows)
  {
    var i :| 0 <= i < |rows| && rows[i] == row;
    assert WantedBy(rows)[i] == Wanted(row.id, PinnedOf(row));
  }

  lemma {:induction false} RowWanting(rows: seq<Row>, w: Wanted) returns (row: Row)
    requires w in WantedBy(rows)
    ensures row in rows && w == Wanted(row.id, PinnedOf(row))
  {
    var i :| 0 <= i < |rows| && WantedBy(rows)[i] == w;
    row := rows[i];
  }

  /** A model asked for under a Provider. */
  datatype Use = Use(pid: string, pinned: Pinned)

  function UsesOf(pid: string, wanted: seq<Wanted>): seq<Use> {
    if wanted == [] then [] else UsesOf(pid, wanted[..|wanted| - 1]) + [Use(pid, wanted[|wanted| - 1].pinned)]
  }

  /** What one row does to the pinned models of its Provider: `setdefault` keeps the first model under a key. */
  function Pin(models: map<string, Pinned>, key: string, p: Pinned): map<string, Pinned> {
    if key in models then models else models[key := p]
  }

  /** What it does to `model_defaults_seen`. */
  function See(seen: map<Key, Behavior>, u: Use): map<Key, Behavior> {
    if Agrees(seen, u) then seen[(u.pid, u.pinned.upstreamId) := u.pinned.behavior] else seen
  }

  predicate Agrees(seen: map<Key, Behavior>, u: Use) {
    (u.pid, u.pinned.upstreamId) in seen ==> seen[(u.pid, u.pinned.upstreamId)] == u.pinned.behavior
  }

  /** No upstream id is blank. */
  ghost predicate AllKeyed(keyOf: string -> Option<string>, wanted: seq<Wanted>) {
    forall w :: w in wanted ==> keyOf(w.pinned.upstreamId).Some?
  }

  /** Where the Providers and the upstream ids are the same, so are the behaviours. */
  predicate Agreeing(uses: seq<Use>) {
    forall u, v {:trigger Agree(u, v)} :: u in uses && v in uses ==> Agree(u, v)
  }

  predicate Agree(u: Use, v: Use) {
    u.pid == v.pid && u.pinned.upstreamId == v.pinned.upstreamId ==> u.pinned.behavior == v.pinned.behavior
  }

  /** The same id always wants the same model. */
  predicate Steady(wanted: seq<Wanted>) {
    forall n :: 0 <= n < |wanted| ==> Settled(wanted[..n], wanted[n])
  }

  predicate Settled(done: seq<Wanted>, w: Wanted) {
    forall v :: v in done && v.id == w.id ==> v == w
  }

  /** The models pinned for these rows: under each key one that asked for it. */
  ghost predicate PinnedFor(keyOf: string -> Option<string>, wanted: seq<Wanted>, models: map<string, Pinned>) {
    && (forall w :: w in wanted && keyOf(w.pinned.upstreamId).Some? ==> keyOf(w.pinned.upstreamId).value in models)
    && (forall mk :: mk in models ==> exists w :: w in wanted && keyOf(w.pinned.upstreamId) == Some(mk) && w.pinned == models[mk])
  }

  lemma {:induction false} PinnedMore(keyOf: string -> Option<string>, done: seq<Wanted>, models: map<string, Pinned>, w: Wanted,
                                      key: string)
    requires PinnedFor(keyOf, done, models) && keyOf(w.pinned.upstreamId) == Some(key)
    ensures PinnedFor(keyOf, done + [w], Pin(models, key, w.pinned))
  {
    var all, more := done + [w], Pin(models, key, w.pinned);
    assert w in all && forall v :: v in done ==> v in all;
    forall mk | mk in more ensures exists v :: v in all && keyOf(v.pinned.upstreamId) == Some(mk) && v.pinned == more[mk] {
      if mk in models {
        var v :| v in done && keyOf(v.pinned.upstreamId) == Some(mk) && v.pinned == models[mk];
        assert v in all;
      } else {
        assert more[mk] == w.pinned;
      }
    }
  }

  /** Each of these ids refers to the key of its upstream id. */
  ghost predicate Referred(keyOf: string -> Option<string>, refs: map<string, string>, pid: string, wanted: seq<Wanted>) {
    forall w :: w in wanted ==>
      && keyOf(w.pinned.upstreamId).Some?
      && w.id in refs && refs[w.id] == pid + "/" + keyOf(w.pinned.upstreamId).value
  }

  /** Other ids keep what they had. */
  ghost predicate SameElsewhere(wanted: seq<Wanted>, refs0: map<string, string>, refs: map<string, string>) {
    forall id :: (forall w :: w in wanted ==> w.id != id) ==>
      (id in refs <==> id in refs0) && (id in refs0 ==> refs[id] == refs0[id])
  }

  lemma {:induction false} ReferredMore(keyOf: string -> Option<string>, refs0: map<string, string>, refs: map<string, string>,
                                        pid: string, done: seq<Wanted>, w: Wanted, key: string)
    requires Referred(keyOf, refs, pid, done) && SameElsewhere(done, refs0, refs)
    requires Settled(done, w) && keyOf(w.pinned.upstreamId) == Some(key)
    ensures Referred(keyOf, refs[w.id := pid + "/" + key], pid, done + [w])
    ensures SameElsewhere(done + [w], refs0, refs[w.id := pid + "/" + key])
  {
    var all, more := done + [w], refs[w.id := pid + "/" + key];
    assert w in all && forall v :: v in done ==> v in all;
    forall v | v in all
      ensures keyOf(v.pinned.upstreamId).Some? && v.id in more && more[v.id] == pid + "/" + keyOf(v.pinned.upstreamId).value
    {
      if v != w {
        assert v in done;
      }
    }
  }

  /** `seen` knows the Provider and upstream id of every use, with the behaviour of one of them. */
  ghost predicate Knows(seen: map<Key, Behavior>, uses: seq<Use>) {
    && (forall u :: u in uses ==> (u.pid, u.pinned.upstreamId) in seen)
    && (forall k :: k in seen ==> exists u :: u in uses && (u.pid, u.pinned.upstreamId) == k && seen[k] == u.pinned.behavior)
  }

  lemma {:induction false} KnowsMore(seen: map<Key, Behavior>, uses: seq<Use>, u: Use)
    requires Knows(seen, uses)
    ensures Knows(See(seen, u), uses + [u])
  {
    var all, more := uses + [u], See(seen, u);
    assert u in all && forall v :: v in uses ==> v in all;
    forall k | k in more ensures exists v :: v in all && (v.pid, v.pinned.upstreamId) == k && more[k] == v.pinned.behavior {
      if k == (u.pid, u.pinned.upstreamId) && Agrees(seen, u) {
        assert more[k] == u.pinned.behavior;
      } else {
        var v :| v in uses && (v.pid, v.pinned.upstreamId) == k && seen[k] == v.pinned.behavior;
        assert v in all;
      }
    }
  }

  lemma {:induction false} AgreeingMore(seen: map<Key, Behavior>, uses: seq<Use>, u: Use)
    requires Knows(seen, uses)
    ensures Agreeing(uses + [u]) <==> Agreeing(uses) && Agrees(seen, u)
  {
    var all, k := uses + [u], (u.pid, u.pinned.upstreamId);
    assert u in all && forall v :: v in uses ==> v in all;
    if k in seen {
      var x :| x in uses && (x.pid, x.pinned.upstreamId) == k && seen[k] == x.pinned.behavior;
      assert x in all;
      if Agreeing(all) {
        assert Agree(x, u);
      }
      forall v, y | v in all && y in all && Agreeing(uses) && Agrees(seen, u) ensures Agree(v, y) {
        assert v in uses && y in uses ==> Agree(v, y);
        assert v in uses ==> Agree(v, x);
        assert y in uses ==> Agree(x, y);
      }
    }
  }

  /** What the rows so far have come to. */
  ghost predicate Pinning(keyOf: string -> Option<string>, pid: string, uses0: seq<Use>, done: seq<Wanted>,
                          models: map<string, Pinned>, seen: map<Key, Behavior>, refs: map<string, string>,
                          refs0: map<string, string>, clean: bool) {
    && PinnedFor(keyOf, done, models) && Knows(seen, uses0 + UsesOf(pid, done))
    && Referred(keyOf, refs, pid, done) && SameElsewhere(done, refs0, refs)
    && (Agreeing(uses0 + UsesOf(pid, done)) <==> Agreeing(uses0) && clean)
  }

  lemma {:induction false} UsesMore(pid: string, uses0: seq<Use>, done: seq<Wanted>, w: Wanted)
    ensures uses0 + UsesOf(pid, done + [w]) == uses0 + UsesOf(pid, done) + [Use(pid, w.pinned)]
  {
    var more := done + [w];
    assert more[..|more| - 1] == done;
  }

  lemma {:induction false} PinNext(keyOf: string -> Option<string>, pid: string, uses0: seq<Use>, done: seq<Wanted>,
                                   models: map<string, Pinned>, seen: map<Key, Behavior>, refs: map<string, string>,
                                   refs0: map<string, string>, clean: bool, w: Wanted, key: string)
    requires Pinning(keyOf, pid, uses0, done, models, seen, refs, refs0, clean)
    requires Settled(done, w) && keyOf(w.pinned.upstreamId) == Some(key)
    ensures var u := Use(pid, w.pinned);
      Pinning(keyOf, pid, uses0, done + [w], Pin(models, key, w.pinned), See(seen, u), refs[w.id := pid + "/" + key], refs0,
              clean && Agrees(seen, u))
  {
    PinnedMore(keyOf, done, models, w, key);
    UsesMore(pid, uses0, done, w);
    KnowsMore(seen, uses0 + UsesOf(pid, done), Use(pid, w.pinned));
    AgreeingMore(seen, uses0 + UsesOf(pid, done), Use(pid, w.pinned));
    ReferredMore(keyOf, refs0, refs, pid, done, w, key);
  }

  method RefFor(pid: string, key: string) returns (ref: string)
    requires ValidProviderId(pid) && ValidModelKey(key)
    ensures ref == pid + "/" + key
  {
    RefRoundTrip(pid, key);
    ref := MakeModelRef(pid, key).value;
  }

  lemma {:induction false} Unkeyed(keyOf: string -> Option<string>, wanted: seq<Wanted>, w: Wanted)
    requires w in wanted && keyOf(w.pinned.upstreamId).None?
    ensures !AllKeyed(keyOf, wanted)
  {
  }

  lemma {:induction false} ReferredAreKeyed(keyOf: string -> Option<string>, refs: map<string, string>, pid: string, wanted: seq<Wanted>)
    requires Referred(keyOf, refs, pid, wanted)
    ensures AllKeyed(keyOf, wanted)
  {
  }

  /** The rows of one group, in order; `ok` is false when an upstream id is blank. */
  method PinRows(keyOf: string -> Option<string>, pid: string, wanted: seq<Wanted>, ghost uses0: seq<Use>,
                 seen0: map<Key, Behavior>, refs0: map<string, string>)
    returns (ok: bool, models: map<string, Pinned>, seen: map<Key, Behavior>, refs: map<string, string>, conflicts: seq<Conflict>)
    requires ValidKeys(keyOf) && ValidProviderId(pid) && Steady(wanted) && Knows(seen0, uses0)
    ensures ok <==> AllKeyed(keyOf, wanted)
    ensures ok ==> Pinning(keyOf, pid, uses0, wanted, models, seen, refs, refs0, conflicts == [])
    ensures OfModels(wanted, conflicts)
  {
    ok, models, seen, refs, conflicts := true, map[], seen0, refs0, [];
    assert uses0 + UsesOf(pid, []) == uses0;
    for n := 0 to |wanted|
      invariant Pinning(keyOf, pid, uses0, wanted[..n], models, seen, refs, refs0, conflicts == []) && OfModels(wanted, conflicts)
    {
      var w := wanted[n];
      var key := keyOf(w.pinned.upstreamId);
      if key.None? {
        Unkeyed(keyOf, wanted, w);
        ok := false;
        return;
      }
      var ref := RefFor(pid, key.value);
      TakeMore(wanted, n);
      PinNext(keyOf, pid, uses0, wanted[..n], models, seen, refs, refs0, conflicts == [], w, key.value);
      OfModelsMore(wanted, conflicts, w);
      if !Agrees(seen, Use(pid, w.pinned)) {
        conflicts := conflicts + [ModelDefaults(w.id)];
      }
      models, seen := Pin(models, key.value, w.pinned), See(seen, Use(pid, w.pinned));
      refs := refs[w.id := ref];
    }
    TakeAll(wanted);
    ReferredAreKeyed(keyOf, refs, pid, wanted);
  }

  // ---------- one Provider for one group ----------

  /** `classification_fields` is empty. */
  predicate OneClass(rows: seq<Row>)
    requires rows != []
  {
    forall i :: 0 <= i < |rows| ==> rows[i].classification == rows[0].classification
  }

  predicate OneArtifact(rows: seq<Row>) {
    forall i, j :: 0 <= i < |rows| && 0 <= j < |rows| && rows[i].artifactPath != "" && rows[j].artifactPath != "" ==>
      rows[i].artifactPath == rows[j].artifactPath
  }

  /** The rows agree about the fields of their Provider. */
  predicate OneProvider(rows: seq<Row>)
    requires rows != []
  {
    OneClass(rows) && OneArtifact(rows)
  }

  lemma {:induction false} WantedSteady(rows: seq<Row>)
    requires forall r, t :: r in rows && t in rows && r.id == t.id ==> r == t
    ensures Steady(WantedBy(rows))
  {
    var wanted := WantedBy(rows);
    forall n | 0 <= n < |wanted| ensures Settled(wanted[..n], wanted[n]) {
      forall v | v in wanted[..n] && v.id == wanted[n].id ensures v == wanted[n] {
        var row := RowWanting(rows, v);
        assert rows[n] in rows && row.id == rows[n].id;
      }
    }
  }

  lemma {:induction false} WantedElsewhere(rows: seq<Row>, id: string, refs0: map<string, string>, refs: map<string, string>)
    requires SameElsewhere(WantedBy(rows), refs0, refs) && forall r :: r in rows ==> r.id != id
    ensures id in refs0 ==> id in refs && refs[id] == refs0[id]
  {
    forall w | w in WantedBy(rows) ensures w.id != id {
      var row := RowWanting(rows, w);
    }
  }

  function FirstArtifact(rows: seq<Row>): string {
    if rows == [] then "" else if rows[0].artifactPath != "" then rows[0].artifactPath else FirstArtifact(rows[1..])
  }

  /** The path under `deployment`: the only one the rows name. */
  function ArtifactOf(rows: seq<Row>): string {
    if OneArtifact(rows) then FirstArtifact(rows) else ""
  }

  ghost predicate ArtifactFits(artifact: string, rows: seq<Row>) {
    && (forall r :: r in rows && r.artifactPath != "" && OneArtifact(rows) ==> artifact == r.artifactPath)
    && (artifact != "" ==> exists r :: r in rows && r.artifactPath == artifact)
  }

  lemma {:induction false} FirstIsNamed(rows: seq<Row>)
    ensures FirstArtifact(rows) != "" ==> exists r :: r in rows && r.artifactPath == FirstArtifact(rows)
    ensures FirstArtifact(rows) == "" ==> forall r :: r in rows ==> r.artifactPath == ""
  {
    if rows != [] && rows[0].artifactPath == "" {
      FirstIsNamed(rows[1..]);
      assert forall r :: r in rows <==> r == rows[0] || r in rows[1..];
    }
  }

  lemma {:induction false} ArtifactIs(rows: seq<Row>)
    ensures ArtifactFits(ArtifactOf(rows), rows)
  {
    FirstIsNamed(rows);
  }

  /** What a group becomes: a Provider with its endpoint, credential and the first row's classification, and its models. */
  ghost predicate MadeFor(keyOf: string -> Option<string>, key: Key, rows: seq<Row>, p: Provider) {
    && rows != [] && p.baseUrl == key.0 && p.credentialRef == key.1 && p.classification == rows[0].classification
    && ArtifactFits(p.artifact, rows) && PinnedFor(keyOf, WantedBy(rows), p.models)
  }

  // ---------- all groups ----------

  /** The second loop's variables. */
  datatype Build = Build(existing: seq<string>, seen: map<Key, Behavior>, registry: Registry, refs: map<string, string>,
                         conflicts: seq<Conflict>)

  /** All models asked for, under the ids of their groups. */
  function AllUses(groups: Groups, order: seq<Key>, ids: seq<string>): seq<Use>
    requires Filled(groups, order) && |ids| == |order|
  {
    if order == [] then []
    else
      var n := |order| - 1;
      AllUses(groups, order[..n], ids[..n]) + UsesOf(ids[n], WantedBy(groups[order[n]]))
  }

  /** No later group has the same id. */
  predicate IsLast(ids: seq<string>, i: nat)
    requires i < |ids|
  {
    forall j :: i < j < |ids| ==> ids[j] != ids[i]
  }

  /** Each group has a Provider; what it holds was made for the last group of its id. */
  ghost predicate AllMade(keyOf: string -> Option<string>, groups: Groups, order: seq<Key>, ids: seq<string>, registry: Registry)
    requires Filled(groups, order) && |ids| == |order|
  {
    && (forall i :: 0 <= i < |ids| ==> ids[i] in registry)
    && (forall p :: p in registry ==> p in ids)
    && (forall i :: 0 <= i < |ids| && IsLast(ids, i) ==>
          ids[i] in registry && MadeFor(keyOf, order[i], groups[order[i]], registry[ids[i]]))
  }

  /** The legacy ids of each group refer to its id. */
  ghost predicate AllReferred(keyOf: string -> Option<string>, groups: Groups, order: seq<Key>, ids: seq<string>,
                              refs: map<string, string>)
    requires Filled(groups, order) && |ids| == |order|
  {
    forall i :: 0 <= i < |ids| ==> Referred(keyOf, refs, ids[i], WantedBy(groups[order[i]]))
  }

  predicate HasId(rows: seq<Row>, id: string) {
    exists i :: 0 <= i < |rows| && rows[i].id == id
  }

  /** A legacy id of one of these groups. */
  predicate HasGroup(groups: Groups, order: seq<Key>, id: string)
    requires Filled(groups, order)
  {
    exists i :: 0 <= i < |order| && HasId(groups[order[i]], id)
  }

  /** No other id refers to anything. */
  predicate OnlyReferred(groups: Groups, order: seq<Key>, refs: map<string, string>)
    requires Filled(groups, order)
  {
    forall id :: id in refs ==> HasGroup(groups, order, id)
  }

  lemma {:induction false} OnlyReferredMore(groups: Groups, order: seq<Key>, key: Key, refs: map<string, string>, more: map<string, string>)
    requires Filled(groups, order) && Filled(groups, order + [key]) && key in groups
    requires OnlyReferred(groups, order, refs) && SameElsewhere(WantedBy(groups[key]), refs, more)
    ensures OnlyReferred(groups, order + [key], more)
  {
    var all := order + [key];
    assert all[|order|] == key && forall i :: 0 <= i < |order| ==> all[i] == order[i];
    forall id | id in more ensures HasGroup(groups, all, id) {
      if id in refs && HasGroup(groups, order, id) {
        var i :| 0 <= i < |order| && HasId(groups[order[i]], id);
        assert HasId(groups[all[i]], id);
      } else {
        var w :| w in WantedBy(groups[key]) && w.id == id;
        var row := RowWanting(groups[key], w);
        var i :| 0 <= i < |groups[key]| && groups[key][i] == row;
        assert HasId(groups[all[|order|]], id);
      }
    }
  }

  /** Every reference is made of a Provider id and a key. */
  lemma {:induction false} ReferencesHaveSlashes(keyOf: string -> Option<string>, groups: Groups, order: seq<Key>, ids: seq<string>,
                                                 refs: map<string, string>, id: string)
    requires Filled(groups, order) && |ids| == |order| && AllReferred(keyOf, groups, order, ids, refs)
    requires OnlyReferred(groups, order, refs) && id in refs
    ensures '/' in refs[id]
  {
    assert HasGroup(groups, order, id);
    var i :| 0 <= i < |order| && HasId(groups[order[i]], id);
    var j :| 0 <= j < |groups[order[i]]| && groups[order[i]][j].id == id;
    var row := groups[order[i]][j];
    WantedRow(groups[order[i]], row);
    assert Referred(keyOf, refs, ids[i], WantedBy(groups[order[i]]));
    var pid := ids[i];
    assert (pid + "/")[|pid|] == '/';
    assert refs[id][|pid|] == '/';
  }

  predicate AllFit(groups: Groups, order: seq<Key>)
    requires Filled(groups, order)
  {
    forall i :: 0 <= i < |order| ==> OneProvider(groups[order[i]])
  }

  ghost predicate AllUsable(keyOf: string -> Option<string>, groups: Groups, order: seq<Key>)
    requires Filled(groups, order)
  {
    forall i :: 0 <= i < |order| ==> AllKeyed(keyOf, WantedBy(groups[order[i]]))
  }

  ghost predicate BuildOk(keyOf: string -> Option<string>, groups: Groups, order: seq<Key>, b: Build)
    requires Filled(groups, order)
  {
    && |b.existing| == |order| && AllMade(keyOf, groups, order, b.existing, b.registry)
    && AllReferred(keyOf, groups, order, b.existing, b.refs) && OnlyReferred(groups, order, b.refs)
    && Knows(b.seen, AllUses(groups, order, b.existing))
    && (b.conflicts == [] <==> AllFit(groups, order) && Agreeing(AllUses(groups, order, b.existing)))
    && Blamed(groups, order, b.conflicts, Agreeing(AllUses(groups, order, b.existing)))
  }

  /** A group is named for each disagreement about its Provider, and a legacy id only if two uses of a model differ. */
  ghost predicate Blamed(groups: Groups, order: seq<Key>, conflicts: seq<Conflict>, agreeing: bool)
    requires Filled(groups, order)
  {
    && (forall k :: MixedClasses(k) in conflicts <==> k in order && !OneClass(groups[k]))
    && (forall k :: MixedArtifacts(k) in conflicts <==> k in order && !OneArtifact(groups[k]))
    && (forall c :: c in conflicts && c.ModelDefaults? ==> HasGroup(groups, order, c.id))
    && (forall c :: c in conflicts ==> c.MixedClasses? || c.MixedArtifacts? || c.ModelDefaults?)
    && ((exists c :: c in conflicts && c.ModelDefaults?) <==> !agreeing)
  }

  /** The same of one group. */
  ghost predicate Faults(key: Key, rows: seq<Row>, conflicts: seq<Conflict>, clean: bool)
    requires rows != []
  {
    && (forall k :: MixedClasses(k) in conflicts <==> k == key && !OneClass(rows))
    && (forall k :: MixedArtifacts(k) in conflicts <==> k == key && !OneArtifact(rows))
    && (forall c :: c in conflicts && c.ModelDefaults? ==> HasId(rows, c.id))
    && (forall c :: c in conflicts ==> c.MixedClasses? || c.MixedArtifacts? || c.ModelDefaults?)
    && ((exists c :: c in conflicts && c.ModelDefaults?) <==> !clean)
  }

  lemma {:induction false} BlamedMore(groups: Groups, order: seq<Key>, conflicts: seq<Conflict>, agreeing: bool, key: Key,
                                      more: seq<Conflict>, clean: bool)
    requires Filled(groups, order) && Filled(groups, order + [key]) && key in groups && key !in order
    requires Blamed(groups, order, conflicts, agreeing) && groups[key] != [] && Faults(key, groups[key], more, clean)
    ensures Blamed(groups, order + [key], conflicts + more, agreeing && clean)
  {
    var all, keys := conflicts + more, order + [key];
    assert keys[|order|] == key && forall i :: 0 <= i < |order| ==> keys[i] == order[i];
    assert forall k :: k in keys <==> k in order || k == key;
    assert forall c :: c in all <==> c in conflicts || c in more;
    forall c | c in all && c.ModelDefaults? ensures HasGroup(groups, keys, c.id) {
      if c in conflicts {
        var i :| 0 <= i < |order| && HasId(groups[order[i]], c.id);
        assert HasId(groups[keys[i]], c.id);
      } else {
        assert HasId(groups[keys[|order|]], c.id);
      }
    }
  }

  lemma {:induction false} OneMoreMade(keyOf: string -> Option<string>, groups: Groups, order: seq<Key>, ids: seq<string>,
                                       registry: Registry, key: Key, pid: string, provider: Provider)
    requires Filled(groups, order + [key]) && Filled(groups, order) && |ids| == |order| && key in groups
    requires AllMade(keyOf, groups, order, ids, registry) && MadeFor(keyOf, key, groups[key], provider)
    ensures AllMade(keyOf, groups, order + [key], ids + [pid], registry[pid := provider])
  {
    var all, more := ids + [pid], registry[pid := provider];
    assert all[|ids|] == pid;
    forall p | p in more ensures p in all {
      assert p != pid ==> p in ids;
    }
    forall i | 0 <= i < |all| && IsLast(all, i)
      ensures all[i] in more && MadeFor(keyOf, (order + [key])[i], groups[(order + [key])[i]], more[all[i]])
    {
      if i < |ids| {
        assert all[|ids|] != all[i];
        assert forall j :: i < j < |ids| ==> all[j] == ids[j];
        assert IsLast(ids, i);
      }
    }
  }

  /** The references of another group stay. */
  lemma {:induction false} StillReferred(keyOf: string -> Option<string>, groups: Groups, k: Key, key: Key, pid: string,
                                         refs: map<string, string>, more: map<string, string>)
    requires k in groups && key in groups && k != key && Determined(groups)
    requires Referred(keyOf, refs, pid, WantedBy(groups[k])) && SameElsewhere(WantedBy(groups[key]), refs, more)
    ensures Referred(keyOf, more, pid, WantedBy(groups[k]))
  {
    forall w | w in WantedBy(groups[k])
      ensures keyOf(w.pinned.upstreamId).Some? && w.id in more && more[w.id] == pid + "/" + keyOf(w.pinned.upstreamId).value
    {
      var row := RowWanting(groups[k], w);
      assert Apart(groups, k, key);
      WantedElsewhere(groups[key], w.id, refs, more);
    }
  }

  lemma {:induction false} OneMoreReferred(keyOf: string -> Option<string>, groups: Groups, order: seq<Key>, ids: seq<string>,
                                           refs: map<string, string>, key: Key, pid: string, more: map<string, string>)
    requires Filled(groups, order + [key]) && Filled(groups, order) && |ids| == |order| && Determined(groups) && key !in order
    requires AllReferred(keyOf, groups, order, ids, refs) && key in groups
    requires Referred(keyOf, more, pid, WantedBy(groups[key])) && SameElsewhere(WantedBy(groups[key]), refs, more)
    ensures AllReferred(keyOf, groups, order + [key], ids + [pid], more)
  {
    forall i | 0 <= i < |ids| ensures Referred(keyOf, more, ids[i], WantedBy(groups[order[i]])) {
      StillReferred(keyOf, groups, order[i], key, ids[i], refs, more);
    }
  }

  lemma {:induction false} OneMoreUse(groups: Groups, order: seq<Key>, ids: seq<string>, key: Key, pid: string)
    requires Filled(groups, order + [key]) && Filled(groups, order) && |ids| == |order| && key in groups
    ensures AllUses(groups, order + [key], ids + [pid]) == AllUses(groups, order, ids) + UsesOf(pid, WantedBy(groups[key]))
  {
    var keys, all := order + [key], ids + [pid];
    assert keys[..|order|] == order && all[..|order|] == ids;
    assert keys[|order|] == key && all[|order|] == pid;
  }

  lemma {:induction false} FitMore(groups: Groups, order: seq<Key>, key: Key)
    requires Filled(groups, order + [key]) && Filled(groups, order) && key in groups && groups[key] != []
    ensures AllFit(groups, order + [key]) <==> AllFit(groups, order) && OneProvider(groups[key])
  {
    var keys := order + [key];
    assert keys[|order|] == key && forall i :: 0 <= i < |order| ==> keys[i] == order[i];
  }

  lemma {:induction false} OneMoreOk(keyOf: string -> Option<string>, groups: Groups, order: seq<Key>, b: Build, key: Key,
                                     pid: string, provider: Provider, seen: map<Key, Behavior>, refs: map<string, string>,
                                     more: seq<Conflict>, clean: bool)
    requires Filled(groups, order + [key]) && Filled(groups, order) && Determined(groups) && key in groups && key !in order
    requires BuildOk(keyOf, groups, order, b) && MadeFor(keyOf, key, groups[key], provider)
    requires Pinning(keyOf, pid, AllUses(groups, order, b.existing), WantedBy(groups[key]), provider.models, seen, refs, b.refs, clean)
    requires (more == [] <==> OneProvider(groups[key]) && clean) && groups[key] != [] && Faults(key, groups[key], more, clean)
    ensures BuildOk(keyOf, groups, order + [key],
                    Build(b.existing + [pid], seen, b.registry[pid := provider], refs, b.conflicts + more))
  {
    OneMoreMade(keyOf, groups, order, b.existing, b.registry, key, pid, provider);
    OneMoreReferred(keyOf, groups, order, b.existing, b.refs, key, pid, refs);
    OnlyReferredMore(groups, order, key, b.refs, refs);
    OneMoreUse(groups, order, b.existing, key, pid);
    FitMore(groups, order, key);
    BothEmpty(b.conflicts, more);
    BlamedMore(groups, order, b.conflicts, Agreeing(AllUses(groups, order, b.existing)), key, more, clean);
  }

  method Mixed(key: Key, rows: seq<Row>) returns (conflicts: seq<Conflict>)
    requires rows != []
    ensures conflicts == [] <==> OneProvider(rows)
    ensures Faults(key, rows, conflicts, true)
  {
    conflicts := if OneClass(rows) then [] else [MixedClasses(key)];
    if !OneArtifact(rows) {
      conflicts := conflicts + [MixedArtifacts(key)];
    }
  }

  /** Conflicts about models only, each with the id of a row. */
  ghost predicate OfModels(wanted: seq<Wanted>, conflicts: seq<Conflict>) {
    forall c :: c in conflicts ==> c.ModelDefaults? && exists w :: w in wanted && w.id == c.id
  }

  lemma {:induction false} OfModelsMore(wanted: seq<Wanted>, conflicts: seq<Conflict>, w: Wanted)
    requires OfModels(wanted, conflicts) && w in wanted
    ensures OfModels(wanted, conflicts + [ModelDefaults(w.id)])
  {
  }

  lemma {:induction false} FaultsMore(key: Key, rows: seq<Row>, mixed: seq<Conflict>, more: seq<Conflict>)
    requires rows != [] && Faults(key, rows, mixed, true) && OfModels(WantedBy(rows), more)
    ensures Faults(key, rows, mixed + more, more == [])
  {
    var all := mixed + more;
    forall c | c in more ensures HasId(rows, c.id) {
      var w :| w in WantedBy(rows) && w.id == c.id;
      var row := RowWanting(rows, w);
      var i :| 0 <= i < |rows| && rows[i] == row;
    }
    assert forall c :: c in all <==> c in mixed || c in more;
    if more != [] {
      assert more[0] in all;
    }
  }

  /** The Provider of one group. */
  method BuildGroup(keyOf: string -> Option<string>, key: Key, rows: seq<Row>, pid: string, ghost uses0: seq<Use>,
                    seen0: map<Key, Behavior>, refs0: map<string, string>)
    returns (ok: bool, provider: Provider, seen: map<Key, Behavior>, refs: map<string, string>, conflicts: seq<Conflict>,
             ghost clean: bool)
    requires rows != [] && ValidKeys(keyOf) && ValidProviderId(pid) && Steady(WantedBy(rows)) && Knows(seen0, uses0)
    ensures ok <==> AllKeyed(keyOf, WantedBy(rows))
    ensures ok ==> MadeFor(keyOf, key, rows, provider)
    ensures ok ==> Pinning(keyOf, pid, uses0, WantedBy(rows), provider.models, seen, refs, refs0, clean)
    ensures conflicts == [] <==> OneProvider(rows) && clean
    ensures ok ==> Faults(key, rows, conflicts, clean)
  {
    conflicts := Mixed(key, rows);
    var models, more;
    ok, models, seen, refs, more := PinRows(keyOf, pid, WantedBy(rows), uses0, seen0, refs0);
    provider := Provider(key.0, key.1, rows[0].classification, ArtifactOf(rows), models);
    ArtifactIs(rows);
    clean := more == [];
    if ok {
      FaultsMore(key, rows, conflicts, more);
    }
    conflicts := conflicts + more;
  }

  /** The body of the second loop. */
  method BuildOne(naming: Naming, keyOf: string -> Option<string>, groups: Groups, ghost order: seq<Key>, key: Key, b: Build)
    returns (ok: bool, next: Build)
    requires ValidKeys(keyOf) && Marks(naming) && Determined(groups) && Filled(groups, order) && BuildOk(keyOf, groups, order, b)
    requires key in groups && key !in order && Filled(groups, order + [key]) && groups[key] != []
    ensures ok <==> AllKeyed(keyOf, WantedBy(groups[key]))
    ensures ok ==> BuildOk(keyOf, groups, order + [key], next)
    ensures ok ==> next.existing == b.existing + [NameOf(naming, key, groups[key][0], b.existing)]
  {
    var pid := NameOf(naming, key, groups[key][0], b.existing);
    SuggestedIsValid(naming.source(key, groups[key][0]), naming.mark(key), b.existing);
    assert Apart(groups, key, key);
    WantedSteady(groups[key]);
    ghost var clean;
    var provider, seen, refs, more;
    ok, provider, seen, refs, more, clean :=
      BuildGroup(keyOf, key, groups[key], pid, AllUses(groups, order, b.existing), b.seen, b.refs);
    next := Build(b.existing + [pid], seen, b.registry[pid := provider], refs, b.conflicts + more);
    if ok {
      OneMoreOk(keyOf, groups, order, b, key, pid, provider, seen, refs, more, clean);
    }
  }

  lemma {:induction false} Unusable(keyOf: string -> Option<string>, groups: Groups, order: seq<Key>, n: nat)
    requires Filled(groups, order) && n < |order| && !AllKeyed(keyOf, WantedBy(groups[order[n]]))
    ensures !AllUsable(keyOf, groups, order)
  {
  }

  lemma {:induction false} UsableWhenReferred(keyOf: string -> Option<string>, groups: Groups, order: seq<Key>, ids: seq<string>,
                                             refs: map<string, string>)
    requires Filled(groups, order) && |ids| == |order| && AllReferred(keyOf, groups, order, ids, refs)
    ensures AllUsable(keyOf, groups, order)
  {
    forall i | 0 <= i < |order| ensures AllKeyed(keyOf, WantedBy(groups[order[i]])) {
      ReferredAreKeyed(keyOf, refs, ids[i], WantedBy(groups[order[i]]));
    }
  }

  lemma {:induction false} FrontMore(groups: Groups, order: seq<Key>, n: nat)
    requires Filled(groups, order) && n < |order| && Different(order)
    ensures Filled(groups, order[..n]) && order[n] !in order[..n]
    ensures Filled(groups, order[..n + 1]) && order[..n + 1] == order[..n] + [order[n]]
  {
  }

  lemma {:induction false} IdsMore(naming: Naming, groups: Groups, order: seq<Key>, n: nat)
    requires Filled(groups, order) && n < |order| && Filled(groups, order[..n]) && Filled(groups, order[..n + 1])
    ensures IdsOf(naming, groups, order[..n + 1]) ==
            IdsOf(naming, groups, order[..n]) + [NameOf(naming, order[n], groups[order[n]][0], IdsOf(naming, groups, order[..n]))]
  {
    var more := order[..n + 1];
    assert more[..n] == order[..n] && more[n] == order[n];
  }

  /** The second loop. */
  method BuildProviders(naming: Naming, keyOf: string -> Option<string>, groups: Groups, order: seq<Key>) returns (ok: bool, b: Build)
    requires ValidKeys(keyOf) && Marks(naming) && Determined(groups) && Filled(groups, order) && Different(order)
    ensures ok <==> AllUsable(keyOf, groups, order)
    ensures ok ==> BuildOk(keyOf, groups, order, b) && b.existing == IdsOf(naming, groups, order)
  {
    ok, b := true, Build([], map[], map[], map[], []);
    for n := 0 to |order|
      invariant Filled(groups, order[..n]) && BuildOk(keyOf, groups, order[..n], b)
      invariant b.existing == IdsOf(naming, groups, order[..n])
    {
      ok, b := BuildNext(naming, keyOf, groups, order, n, b);
      if !ok {
        Unusable(keyOf, groups, order, n);
        return;
      }
    }
    TakeAll(order);
    UsableWhenReferred(keyOf, groups, order, b.existing, b.refs);
    ok := true;
  }

  /** One turn of the loop. */
  method BuildNext(naming: Naming, keyOf: string -> Option<string>, groups: Groups, order: seq<Key>, n: nat, b: Build)
    returns (ok: bool, next: Build)
    requires ValidKeys(keyOf) && Marks(naming) && Determined(groups) && Filled(groups, order) && Different(order) && n < |order|
    requires Filled(groups, order[..n]) && BuildOk(keyOf, groups, order[..n], b) && b.existing == IdsOf(naming, groups, order[..n])
    ensures ok <==> AllKeyed(keyOf, WantedBy(groups[order[n]]))
    ensures ok ==> Filled(groups, order[..n + 1]) && BuildOk(keyOf, groups, order[..n + 1], next)
    ensures ok ==> next.existing == IdsOf(naming, groups, order[..n + 1])
  {
    FrontMore(groups, order, n);
    IdsMore(naming, groups, order, n);
    ok, next := BuildOne(naming, keyOf, groups, order[..n], order[n], b);
  }
}
