/** READY previews of `preview_v1_to_v2` that do not keep every entry: two groups with one id, a new reference that is an old id. */
module MigrationCollision {
  import opened Wrappers
  import opened Collections
  import opened Identity
  import opened Aliases
  import opened MigrationTypes
  import opened LegacyModels
  import opened MigrationGroups
  import opened MigrationProviders
  import opened Migration

  lemma {:induction false} ShortIds(naming: Naming, groups: Groups, order: seq<Key>)
    requires Filled(groups, order) && Marks(naming)
    ensures forall e :: e in IdsOf(naming, groups, order) ==> |e| <= 64
  {
    IdsAreValid(naming, groups, order);
  }

  lemma {:induction false} IdsAt(naming: Naming, groups: Groups, order: seq<Key>, i: nat)
    requires Filled(groups, order) && i < |order|
    ensures IdsOf(naming, groups, order)[..i + 1] == IdsOf(naming, groups, order[..i + 1])
  {
    var n := |order| - 1;
    if i < n {
      IdsAt(naming, groups, order[..n], i);
      assert order[..n][..i + 1] == order[..i + 1];
    } else {
      assert order[..i + 1] == order;
    }
  }

  /** A name that is too long for an id is cut off, whatever ids are in use. */
  lemma {:induction false} LongId(naming: Naming, groups: Groups, order: seq<Key>, i: nat, base: string)
    requires Filled(groups, order) && Marks(naming) && i < |order| && |base| > 64
    requires IdBase(naming.source(order[i], groups[order[i]][0])) == base
    ensures IdsOf(naming, groups, order)[i] == base[..64]
  {
    IdsAt(naming, groups, order, i);
    var front := order[..i + 1];
    assert front[..i] == order[..i];
    ShortIds(naming, groups, order[..i]);
    LongSuggested(naming.source(order[i], groups[order[i]][0]), naming.mark(order[i]), IdsOf(naming, groups, order[..i]), base);
    assert IdsOf(naming, groups, order)[..i + 1][i] == IdsOf(naming, groups, order)[i];
  }

  lemma {:induction false} LongSuggested(source: string, mark: string, existing: seq<string>, base: string)
    requires IdBase(source) == base && |base| > 64 && forall e :: e in existing ==> |e| <= 64
    ensures SuggestProviderId(source, mark, existing) == base[..64]
  {
  }

  /** Groups whose names agree beyond the 64 characters that an id may have are always given the same id. */
  lemma {:induction false} LongNamesCollide(naming: Naming, groups: Groups, order: seq<Key>, i: nat, j: nat)
    requires Filled(groups, order) && Marks(naming) && i < |order| && j < |order|
    requires var base := IdBase(naming.source(order[i], groups[order[i]][0]));
      |base| > 64 && IdBase(naming.source(order[j], groups[order[j]][0])) == base
    ensures IdsOf(naming, groups, order)[i] == IdsOf(naming, groups, order)[j]
  {
    var base := IdBase(naming.source(order[i], groups[order[i]][0]));
    LongId(naming, groups, order, i, base);
    LongId(naming, groups, order, j, base);
  }

  lemma {:induction false} GroupsMore(place: Item -> Placement, items: seq<Item>, item: Item)
    requires place(item).Joined?
    ensures GroupsOf(place, items + [item]) == Add(GroupsOf(place, items), place(item).key, place(item).row)
    ensures KeysOf(place, items + [item]) == AddKey(KeysOf(place, items), place(item).key)
    ensures Consumed(place, items + [item]) ==
            Consumed(place, items) + (if place(item).row.artifactPath != "" then {item.id} else {})
  {
    var more := items + [item];
    assert more[..|more| - 1] == items;
  }

  lemma {:induction false} SortedTwo(k: Key, l: Key)
    requires !KeyBefore(l, k)
    ensures Sorted([k, l]) == [k, l]
  {
    assert [k, l][..1] == [k] && [k][..0] == [];
    assert Sorted([k]) == [k];
    assert Insert(l, [k]) == [k] + Insert(l, []);
  }

  lemma {:induction false} NewGroup(groups: Groups, k: Key, r: Row)
    requires k !in groups
    ensures Add(groups, k, r) == groups[k := [r]]
  {
    assert [] + [r] == [r];
  }

  lemma {:induction false} OneGroup(place: Item -> Placement, a: Item, k: Key, r: Row)
    requires place(a) == Joined(k, r, []) && r.artifactPath == ""
    ensures GroupsOf(place, [a]) == map[k := [r]] && KeysOf(place, [a]) == [k] && Consumed(place, [a]) == {}
  {
    var none: seq<Item> := [];
    assert [a] == none + [a];
    GroupsMore(place, none, a);
    NewGroup(map[], k, r);
  }

  /** Two entries of different groups, the first of which comes first. */
  predicate TwoPlaced(place: Item -> Placement, a: Item, b: Item, k: Key, l: Key, r: Row, t: Row) {
    && place(a) == Joined(k, r, []) && place(b) == Joined(l, t, []) && k != l && !KeyBefore(l, k)
    && r.artifactPath == "" && t.artifactPath == ""
  }

  lemma {:induction false} TwoGroups(place: Item -> Placement, a: Item, b: Item, k: Key, l: Key, r: Row, t: Row)
    requires TwoPlaced(place, a, b, k, l, r, t)
    ensures GroupsOf(place, [a, b]) == map[k := [r], l := [t]] && OrderOf(place, [a, b]) == [k, l] && Consumed(place, [a, b]) == {}
  {
    OneGroup(place, a, k, r);
    assert [a, b] == [a] + [b];
    GroupsMore(place, [a], b);
    NewGroup(map[k := [r]], l, t);
    assert [k] + [l] == [k, l];
    SortedTwo(k, l);
  }

  lemma {:induction false} TwoUses(groups: Groups, k: Key, l: Key, r: Row, t: Row, ids: seq<string>)
    requires k != l && groups == map[k := [r], l := [t]] && |ids| == 2
    ensures Filled(groups, [k, l]) && AllUses(groups, [k, l], ids) == [Use(ids[0], PinnedOf(r)), Use(ids[1], PinnedOf(t))]
  {
    FirstUse(groups, k, r, ids[0]);
    assert [k, l][..1] == [k] && ids[..1] == [ids[0]];
    OneUse(ids[1], t);
  }

  lemma {:induction false} FirstUse(groups: Groups, k: Key, r: Row, pid: string)
    requires k in groups && groups[k] == [r]
    ensures Filled(groups, [k]) && AllUses(groups, [k], [pid]) == [Use(pid, PinnedOf(r))]
  {
    assert [k][..0] == [] && [pid][..0] == [];
    OneUse(pid, r);
  }

  lemma {:induction false} OneUse(pid: string, row: Row)
    ensures UsesOf(pid, WantedBy([row])) == [Use(pid, PinnedOf(row))]
  {
    var w := Wanted(row.id, PinnedOf(row));
    assert WantedBy([row]) == [w];
    assert [w][..0] == [];
  }

  /** The preview of two entries that ask for the same model is READY. */
  lemma {:induction false} TwoReady(naming: Naming, keyOf: string -> Option<string>, place: Item -> Placement,
                                    a: Item, b: Item, k: Key, l: Key, r: Row, t: Row)
    requires TwoPlaced(place, a, b, k, l, r, t) && PinnedOf(r) == PinnedOf(t) && keyOf(r.upstreamId).Some?
    ensures NoneFails(place, [a, b]) && AllClean(place, [a, b]) && Consumed(place, [a, b]) == {}
    ensures LibraryUsable(keyOf, place, [a, b]) && LibraryFits(naming, place, [a, b])
  {
    TwoGroups(place, a, b, k, l, r, t);
    var groups, ids := GroupsOf(place, [a, b]), LibraryIds(naming, place, [a, b]);
    TwoFit(groups, k, l, r, t, ids);
    TwoUsable(keyOf, groups, k, l, r, t);
  }

  /**
    Two entries that only differ in their endpoint or credential, with one name longer than an id may be: the preview is
    READY, but the second Provider replaces the first.
   */
  lemma {:induction false} SecondReplacesFirst(naming: Naming, keyOf: string -> Option<string>, place: Item -> Placement,
                                               a: Item, b: Item, k: Key, l: Key, r: Row, t: Row)
    requires TwoPlaced(place, a, b, k, l, r, t) && PinnedOf(r) == PinnedOf(t) && keyOf(r.upstreamId).Some?
    requires Marks(naming) && |IdBase(naming.source(k, r))| > 64 && IdBase(naming.source(k, r)) == IdBase(naming.source(l, t))
    ensures NoneFails(place, [a, b]) && AllClean(place, [a, b]) && Consumed(place, [a, b]) == {}
    ensures LibraryUsable(keyOf, place, [a, b]) && LibraryFits(naming, place, [a, b])
    ensures !Different(LibraryIds(naming, place, [a, b]))
  {
    TwoReady(naming, keyOf, place, a, b, k, l, r, t);
    TwoGroups(place, a, b, k, l, r, t);
    TwoCollide(naming, GroupsOf(place, [a, b]), k, l, r, t);
  }

  lemma {:induction false} TwoFit(groups: Groups, k: Key, l: Key, r: Row, t: Row, ids: seq<string>)
    requires k != l && groups == map[k := [r], l := [t]] && |ids| == 2 && PinnedOf(r) == PinnedOf(t)
    ensures Filled(groups, [k, l]) && AllFit(groups, [k, l]) && Agreeing(AllUses(groups, [k, l], ids))
  {
    TwoUses(groups, k, l, r, t, ids);
  }

  lemma {:induction false} TwoCollide(naming: Naming, groups: Groups, k: Key, l: Key, r: Row, t: Row)
    requires k != l && groups == map[k := [r], l := [t]] && Marks(naming)
    requires |IdBase(naming.source(k, r))| > 64 && IdBase(naming.source(k, r)) == IdBase(naming.source(l, t))
    ensures Filled(groups, [k, l]) && !Different(IdsOf(naming, groups, [k, l]))
  {
    LongNamesCollide(naming, groups, [k, l], 0, 1);
    var ids := IdsOf(naming, groups, [k, l]);
    assert ids[0] == ids[1];
  }

  lemma {:induction false} TwoUsable(keyOf: string -> Option<string>, groups: Groups, k: Key, l: Key, r: Row, t: Row)
    requires k != l && groups == map[k := [r], l := [t]] && r.upstreamId == t.upstreamId && keyOf(r.upstreamId).Some?
    ensures AllUsable(keyOf, groups, [k, l])
  {
    forall i | 0 <= i < 2 ensures AllKeyed(keyOf, WantedBy(groups[[k, l][i]])) {
      forall w | w in WantedBy(groups[[k, l][i]]) ensures keyOf(w.pinned.upstreamId).Some? {
        var row := RowWanting(groups[[k, l][i]], w);
      }
    }
  }

  const FIRST := "https://a"
  const SECOND := "https://b"

  lemma {:induction false} BeforeBehind(p: string, x: string, y: string)
    ensures Before(p + x, p + y) <==> Before(x, y)
  {
    if p == "" {
      assert p + x == x && p + y == y;
    } else {
      assert (p + x)[1..] == p[1..] + x && (p + y)[1..] == p[1..] + y;
      BeforeBehind(p[1..], x, y);
    }
  }

  lemma {:induction false} FirstIsFirst()
    ensures FIRST != SECOND && !KeyBefore((SECOND, "none"), (FIRST, "none"))
  {
    assert FIRST == "https://" + "a" && SECOND == "https://" + "b";
    BeforeBehind("https://", "b", "a");
    assert FIRST[8] != SECOND[8];
  }

  function LongEnv(): Env {
    Env((u, a, w) => Some(u), c => c, u => false, (p, u) => "vendor", s => s, s => "00000000",
        Naming((key: Key, row: Row) => row.title, (key: Key) => "00000000"))
  }

  function LongItem(id: string, url: string, title: string): Item {
    Item(id, Some(Entry(LegacyProvider("openai", "", url, "none", "", true, "", title), "m", "", "", "", "", false)))
  }

  function LongRow(id: string, title: string): Row {
    Row(id, "m", Behavior("chat_completions", "tool_chat", "", ""), Classification("official_api", "vendor", "openai_compatible", "openai"),
        "", title)
  }

  lemma {:induction false} LongPlaced(id: string, url: string, title: string)
    ensures PlaceWith(LongEnv(), map[])(LongItem(id, url, title)) == Joined((url, "none"), LongRow(id, title), [])
  {
    assert !ArtifactPathSuspected("m");
    assert UpstreamId(LongItem(id, url, title).entry.value, None) == Ok("m");
  }

  /** A label of small letters is its own base. */
  lemma {:induction false} LetteredBase(title: string)
    requires title != "" && forall i :: 0 <= i < |title| ==> IsLower(title[i])
    ensures IdBase(title) == title
  {
    SlugKeeps(title, IsIdChar);
  }

  lemma {:induction false} LongEnvIsSound()
    ensures IsDigest(LongEnv().digest) && Marks(LongEnv().naming) && KeyOf(LongEnv())("m") == Some("m")
  {
  }

  /** A library of two such entries, with any label of more than 64 small letters. */
  function LongLibrary(title: string): seq<Item> {
    [LongItem("a", FIRST, title), LongItem("b", SECOND, title)]
  }

  /** Nothing is wrong with it, but its two groups have one id. */
  lemma {:induction false} LongLabelsCollide(title: string)
    requires |title| > 64 && forall i :: 0 <= i < |title| ==> IsLower(title[i])
    ensures IsDigest(LongEnv().digest) && Marks(LongEnv().naming) && DistinctItems(LongLibrary(title))
    ensures var (env, place, library) := (LongEnv(), PlaceWith(LongEnv(), map[]), LongLibrary(title));
      && NoneFails(place, library) && Consumed(place, library) == {} && LibraryUsable(KeyOf(env), place, library)
      && AllClean(place, library) && LibraryFits(env.naming, place, library) && !Different(LibraryIds(env.naming, place, library))
  {
    LongPlaced("a", FIRST, title);
    LongPlaced("b", SECOND, title);
    LetteredBase(title);
    LongEnvIsSound();
    LongNames(title);
    SecondReplacesFirst(LongEnv().naming, KeyOf(LongEnv()), PlaceWith(LongEnv(), map[]), LongItem("a", FIRST, title),
                        LongItem("b", SECOND, title), (FIRST, "none"), (SECOND, "none"), LongRow("a", title), LongRow("b", title));
  }

  lemma {:induction false} LongNames(title: string)
    ensures LongEnv().naming.source((FIRST, "none"), LongRow("a", title)) == title
    ensures LongEnv().naming.source((SECOND, "none"), LongRow("b", title)) == title
    ensures PinnedOf(LongRow("a", title)) == PinnedOf(LongRow("b", title)) && !KeyBefore((SECOND, "none"), (FIRST, "none"))
    ensures LongRow("a", title).artifactPath == LongRow("b", title).artifactPath == "" && DistinctItems(LongLibrary(title))
  {
    FirstIsFirst();
  }

  // ---------- a new reference that is an old id ----------

  /** Two entries, the second with the id that is the first one's new reference. */
  function MovedLibrary(s: string, t: string): seq<Item> {
    [LongItem("a", FIRST, s), LongItem(s + "/m", SECOND, t)]
  }

  predicate ShortLabel(s: string) {
    0 < |s| <= 64 && forall i :: 0 <= i < |s| ==> IsLower(s[i])
  }

  /** The ids of two groups whose names are short and differ. */
  lemma {:induction false} TwoNamed(naming: Naming, place: Item -> Placement, a: Item, b: Item, k: Key, l: Key, r: Row, v: Row,
                                    s: string, t: string)
    requires TwoPlaced(place, a, b, k, l, r, v)
    requires IdBase(naming.source(k, r)) == s && IdBase(naming.source(l, v)) == t && |s| <= 64 && |t| <= 64 && s != t
    ensures LibraryIds(naming, place, [a, b]) == [s, t]
  {
    TwoGroups(place, a, b, k, l, r, v);
    var groups := GroupsOf(place, [a, b]);
    assert [k, l][..1] == [k] && [k][..0] == [];
    assert IdsOf(naming, groups, [k]) == [] + [NameOf(naming, k, r, [])] == [s];
    assert NameOf(naming, l, v, [s]) == t;
  }

  /** And their references. */
  lemma {:induction false} TwoReferred(naming: Naming, keyOf: string -> Option<string>, place: Item -> Placement, a: Item, b: Item,
                                       k: Key, l: Key, r: Row, v: Row, s: string, t: string, mk: string, tail: string, refs: map<string, string>)
    requires TwoPlaced(place, a, b, k, l, r, v) && LibraryReferred(keyOf, naming, place, [a, b], refs)
    requires LibraryIds(naming, place, [a, b]) == [s, t] && keyOf(r.upstreamId) == keyOf(v.upstreamId) == Some(mk) && tail == "/" + mk
    ensures r.id in refs && refs[r.id] == s + tail
    ensures v.id in refs && refs[v.id] == t + tail
  {
    TwoGroups(place, a, b, k, l, r, v);
    var ids := LibraryIds(naming, place, [a, b]);
    OneReferred(keyOf, refs, ids[0], r);
    OneReferred(keyOf, refs, ids[1], v);
  }

  lemma {:induction false} OneReferred(keyOf: string -> Option<string>, refs: map<string, string>, pid: string, r: Row)
    requires Referred(keyOf, refs, pid, WantedBy([r]))
    ensures keyOf(r.upstreamId).Some? && r.id in refs && refs[r.id] == pid + ("/" + keyOf(r.upstreamId).value)
  {
    assert WantedBy([r])[0] == Wanted(r.id, PinnedOf(r));
  }

  lemma {:induction false} MovedPlaced(s: string, t: string)
    ensures TwoPlaced(PlaceWith(LongEnv(), map[]), LongItem("a", FIRST, s), LongItem(s + "/m", SECOND, t),
                      (FIRST, "none"), (SECOND, "none"), LongRow("a", s), LongRow(s + "/m", t))
  {
    LongPlaced("a", FIRST, s);
    LongPlaced(s + "/m", SECOND, t);
    FirstIsFirst();
  }

  lemma {:induction false} MovedNamed(s: string, t: string)
    requires ShortLabel(s) && ShortLabel(t) && s != t
    ensures LibraryIds(LongEnv().naming, PlaceWith(LongEnv(), map[]), MovedLibrary(s, t)) == [s, t]
  {
    MovedPlaced(s, t);
    LetteredBase(s);
    LetteredBase(t);
    TwoNamed(LongEnv().naming, PlaceWith(LongEnv(), map[]), LongItem("a", FIRST, s), LongItem(s + "/m", SECOND, t),
             (FIRST, "none"), (SECOND, "none"), LongRow("a", s), LongRow(s + "/m", t), s, t);
  }

  lemma {:induction false} MovedReady(s: string, t: string)
    ensures var (env, place, library) := (LongEnv(), PlaceWith(LongEnv(), map[]), MovedLibrary(s, t));
      && NoneFails(place, library) && AllClean(place, library) && Consumed(place, library) == {}
      && LibraryUsable(KeyOf(env), place, library) && LibraryFits(env.naming, place, library)
  {
    MovedPlaced(s, t);
    LongEnvIsSound();
    TwoReady(LongEnv().naming, KeyOf(LongEnv()), PlaceWith(LongEnv(), map[]), LongItem("a", FIRST, s), LongItem(s + "/m", SECOND, t),
             (FIRST, "none"), (SECOND, "none"), LongRow("a", s), LongRow(s + "/m", t));
  }

  lemma {:induction false} MovedReferred(s: string, t: string, refs: map<string, string>)
    requires ShortLabel(s) && ShortLabel(t) && s != t
    requires LibraryReferred(KeyOf(LongEnv()), LongEnv().naming, PlaceWith(LongEnv(), map[]), MovedLibrary(s, t), refs)
    ensures "a" in refs && refs["a"] == s + "/m" && s + "/m" in refs && refs[s + "/m"] == t + "/m"
  {
    MovedPlaced(s, t);
    MovedNamed(s, t);
    LongKeys(s, t);
    TwoReferred(LongEnv().naming, KeyOf(LongEnv()), PlaceWith(LongEnv(), map[]), LongItem("a", FIRST, s),
                LongItem(s + "/m", SECOND, t), (FIRST, "none"), (SECOND, "none"), LongRow("a", s), LongRow(s + "/m", t), s, t, "m", "/m", refs);
  }

  lemma {:induction false} LongKeys(s: string, t: string)
    ensures KeyOf(LongEnv())(LongRow("a", s).upstreamId) == KeyOf(LongEnv())(LongRow(s + "/m", t).upstreamId) == Some("m")
    ensures LongRow("a", s).id == "a" && LongRow(s + "/m", t).id == s + "/m" && "/m" == "/" + "m"
  {
    LongEnvIsSound();
  }

  /** The ids of the two entries differ, and no others are placed. */
  lemma {:induction false} MovedIds(s: string, t: string)
    ensures DistinctItems(MovedLibrary(s, t)) && PlacedIds(PlaceWith(LongEnv(), map[]), MovedLibrary(s, t)) <= {"a", s + "/m"}
  {
    assert (s + "/m")[|s|] == '/';
  }

  /** The preview is READY and the old id has its new reference, but following the aliases passes it and ends elsewhere. */
  method NewReferenceMoved(s: string, t: string) returns (p: Preview)
    requires ShortLabel(s) && ShortLabel(t) && s != t
    ensures Ready(p) && "a" in p.refs && p.refs["a"] == s + "/m"
    ensures Leaves(p.aliases, "a") && End(p.aliases, "a") == t + "/m" != s + "/m"
  {
    MovedReady(s, t);
    MovedIds(s, t);
    LongEnvIsSound();
    p := ReadyPreview(LongEnv(), MovedLibrary(s, t));
    MovedReferred(s, t, p.refs);
    PassesBy(s, t, p.refs);
  }

  /** The preview of a library with which nothing is wrong. */
  method ReadyPreview(env: Env, library: seq<Item>) returns (p: Preview)
    requires IsDigest(env.digest) && Marks(env.naming) && DistinctItems(library)
    requires var place := PlaceWith(env, map[]);
      && NoneFails(place, library) && AllClean(place, library) && Consumed(place, library) == {}
      && LibraryUsable(KeyOf(env), place, library) && LibraryFits(env.naming, place, library)
    ensures Ready(p) && p.aliases == AliasesOf(p.refs) && p.refs.Keys == PlacedIds(PlaceWith(env, map[]), library)
    ensures LibraryReferred(KeyOf(env), env.naming, PlaceWith(env, map[]), library, p.refs)
  {
    var r := PreviewV1ToV2(env, library, map[]);
    p := r.value;
  }

  lemma {:induction false} PassesBy(s: string, t: string, refs: map<string, string>)
    requires s != t && "a" in refs && refs["a"] == s + "/m" && s + "/m" in refs && refs[s + "/m"] == t + "/m"
    requires refs.Keys <= {"a", s + "/m"}
    ensures Leaves(AliasesOf(refs), "a") && End(AliasesOf(refs), "a") == t + "/m" != s + "/m"
  {
    var m := AliasesOf(refs);
    assert (t + "/m")[|t|] == '/' && (s + "/m")[|s|] == '/';
    assert (s + "/m")[..|s|] == s && (t + "/m")[..|t|] == t;
    assert Hop(m, t + "/m", 0) == t + "/m";
    assert Hop(m, s + "/m", 1) == t + "/m";
    EndIs(m, "a", 2);
  }
}
