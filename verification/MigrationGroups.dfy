/** The first loop of `preview_v1_to_v2`: every valid entry joins the group of its endpoint and credential. */
module MigrationGroups {
  import opened Wrappers
  import opened Collections
  import opened MigrationTypes

  /** A row keeps the id of its entry. */
  ghost predicate Faithful(place: Item -> Placement) {
    forall item: Item :: place(item).Joined? ==> place(item).row.id == item.id
  }

  /** The group a legacy entry belongs to, and its row there. */
  predicate Belongs(place: Item -> Placement, item: Item, key: Key, row: Row) {
    var p := place(item);
    p.Joined? && p.key == key && p.row == row
  }

  predicate DistinctItems(library: seq<Item>) {
    forall i, j :: 0 <= i < j < |library| ==> library[i].id != library[j].id
  }

  // ---------- the groups of a library ----------

  function Add(groups: Groups, key: Key, row: Row): Groups {
    groups[key := (if key in groups then groups[key] else []) + [row]]
  }

  function AddKey(keys: seq<Key>, key: Key): seq<Key> {
    if key in keys then keys else keys + [key]
  }

  function GroupsOf(place: Item -> Placement, items: seq<Item>): Groups {
    if items == [] then map[]
    else
      var front, p := GroupsOf(place, items[..|items| - 1]), place(items[|items| - 1]);
      if p.Joined? then Add(front, p.key, p.row) else front
  }

  /** Their keys in the order in which they are first met. */
  function KeysOf(place: Item -> Placement, items: seq<Item>): seq<Key> {
    if items == [] then []
    else
      var front, p := KeysOf(place, items[..|items| - 1]), place(items[|items| - 1]);
      if p.Joined? then AddKey(front, p.key) else front
  }

  /** No group is empty, and the keys list each group once. */
  lemma {:induction false} KeysListGroups(place: Item -> Placement, items: seq<Item>)
    ensures forall k :: k in KeysOf(place, items) <==> k in GroupsOf(place, items)
    ensures forall k :: k in GroupsOf(place, items) ==> GroupsOf(place, items)[k] != []
    ensures Different(KeysOf(place, items))
  {
    if items != [] {
      KeysListGroups(place, items[..|items| - 1]);
    }
  }

  ghost predicate FromLibrary(place: Item -> Placement, library: seq<Item>, key: Key, row: Row) {
    exists n :: 0 <= n < |library| && Belongs(place, library[n], key, row)
  }

  ghost predicate Grouped(place: Item -> Placement, item: Item, groups: Groups) {
    exists key, row :: key in groups && row in groups[key] && Belongs(place, item, key, row)
  }

  /** Every row stands for an item of the library. */
  lemma {:induction false} RowsBelong(place: Item -> Placement, items: seq<Item>, key: Key, row: Row)
    requires key in GroupsOf(place, items) && row in GroupsOf(place, items)[key]
    ensures FromLibrary(place, items, key, row)
  {
    if items != [] {
      var n := |items| - 1;
      var front := GroupsOf(place, items[..n]);
      if key in front && row in front[key] {
        RowsBelong(place, items[..n], key, row);
        var i :| 0 <= i < n && Belongs(place, items[..n][i], key, row);
        assert Belongs(place, items[i], key, row);
      } else {
        assert Belongs(place, items[n], key, row);
      }
    }
  }

  /** And every placed item has its row. */
  lemma {:induction false} PlacedAreGrouped(place: Item -> Placement, items: seq<Item>, i: nat)
    requires i < |items| && place(items[i]).Joined?
    ensures Grouped(place, items[i], GroupsOf(place, items))
  {
    var n := |items| - 1;
    var front, groups := GroupsOf(place, items[..n]), GroupsOf(place, items);
    if i < n {
      PlacedAreGrouped(place, items[..n], i);
      var k, r :| k in front && r in front[k] && Belongs(place, items[i], k, r);
      assert k in groups && r in groups[k];
    } else {
      var p := place(items[n]);
      assert groups[p.key][|groups[p.key]| - 1] == p.row;
      assert p.row in groups[p.key];
    }
  }

  /** The rows of a group stand in the order of their entries. */
  lemma {:induction false} RowsInOrder(place: Item -> Placement, items: seq<Item>, m: nat, n: nat) returns (i: nat, j: nat)
    requires m < n < |items| && place(items[m]).Joined? && place(items[n]).Joined? && place(items[m]).key == place(items[n]).key
    ensures var key := place(items[m]).key; key in GroupsOf(place, items) && i < j < |GroupsOf(place, items)[key]|
    ensures var rows := GroupsOf(place, items)[place(items[m]).key];
      rows[i] == place(items[m]).row && rows[j] == place(items[n]).row
  {
    var front := items[..|items| - 1];
    if n < |items| - 1 {
      i, j := RowsInOrder(place, front, m, n);
    } else {
      i := RowOf(place, front, m);
      j := |GroupsOf(place, front)[place(items[m]).key]|;
    }
  }

  lemma {:induction false} RowOf(place: Item -> Placement, items: seq<Item>, m: nat) returns (i: nat)
    requires m < |items| && place(items[m]).Joined?
    ensures var key := place(items[m]).key;
      key in GroupsOf(place, items) && i < |GroupsOf(place, items)[key]| && GroupsOf(place, items)[key][i] == place(items[m]).row
  {
    var front := items[..|items| - 1];
    if m < |items| - 1 {
      i := RowOf(place, front, m);
    } else {
      i := if place(items[m]).key in GroupsOf(place, front) then |GroupsOf(place, front)[place(items[m]).key]| else 0;
    }
  }

  /** Rows with the same id are the same row of the same group. */
  lemma {:induction false} RowDetermined(place: Item -> Placement, library: seq<Item>, k: Key, r: Row, l: Key, t: Row)
    requires Faithful(place) && DistinctItems(library) && r.id == t.id
    requires FromLibrary(place, library, k, r) && FromLibrary(place, library, l, t)
    ensures k == l && r == t
  {
    var m :| 0 <= m < |library| && Belongs(place, library[m], k, r);
    var n :| 0 <= n < |library| && Belongs(place, library[n], l, t);
    assert library[m].id == r.id && library[n].id == t.id;
    assert m == n;
  }

  lemma {:induction false} LibraryDetermines(place: Item -> Placement, library: seq<Item>)
    requires Faithful(place) && DistinctItems(library)
    ensures Determined(GroupsOf(place, library))
  {
    var groups := GroupsOf(place, library);
    forall k, l | k in groups && l in groups ensures Apart(groups, k, l) {
      forall r: Row, t: Row | r in groups[k] && t in groups[l] && r.id == t.id ensures k == l && r == t {
        RowsBelong(place, library, k, r);
        RowsBelong(place, library, l, t);
        RowDetermined(place, library, k, r, l, t);
      }
    }
  }

  // ---------- their order ----------

  /** `a` ends where `b` goes on, or is smaller at the first place where they differ. */
  ghost predicate Smaller(a: string, b: string) {
    exists n: nat :: n <= |a| && n < |b| && a[..n] == b[..n] && (n == |a| || a[n] < b[n])
  }

  lemma {:induction false} BeforeExactly(a: string, b: string)
    ensures Before(a, b) <==> Smaller(a, b)
  {
    if a != "" && b != "" && a[0] == b[0] {
      BeforeExactly(a[1..], b[1..]);
      if Smaller(a[1..], b[1..]) {
        var n: nat :| n <= |a[1..]| && n < |b[1..]| && a[1..][..n] == b[1..][..n] && (n == |a[1..]| || a[1..][n] < b[1..][n]);
        assert a[..n + 1] == [a[0]] + a[1..][..n] && b[..n + 1] == [b[0]] + b[1..][..n];
      }
      if Smaller(a, b) {
        var n: nat :| n <= |a| && n < |b| && a[..n] == b[..n] && (n == |a| || a[n] < b[n]);
        assert a[1..][..n - 1] == a[..n][1..] && b[1..][..n - 1] == b[..n][1..];
      }
    } else if Before(a, b) {
      assert a[..0] == b[..0];
    } else if Smaller(a, b) {
      var n: nat :| n <= |a| && n < |b| && a[..n] == b[..n] && (n == |a| || a[n] < b[n]);
      FirstOfEqual(a, b, n);
    }
  }

  lemma {:induction false} FirstOfEqual(a: string, b: string, n: nat)
    requires n <= |a| && n <= |b| && a[..n] == b[..n]
    ensures n > 0 ==> a[0] == b[0]
  {
    if n > 0 {
      assert a[0] == a[..n][0] && b[0] == b[..n][0];
    }
  }

  lemma {:induction false} BeforeEither(a: string, b: string)
    ensures Before(a, b) || a == b || Before(b, a)
  {
    if a != "" && b != "" {
      BeforeEither(a[1..], b[1..]);
      if a[0] == b[0] && a[1..] == b[1..] {
        assert a == [a[0]] + a[1..] && b == [b[0]] + b[1..];
      }
    }
  }

  lemma {:induction false} BeforeChain(a: string, b: string, c: string)
    requires Before(a, b) && Before(b, c)
    ensures Before(a, c)
  {
    if a != "" && a[0] == b[0] == c[0] {
      BeforeChain(a[1..], b[1..], c[1..]);
    }
  }

  /** Strings and pairs of them as Python orders them. */
  predicate Before(a: string, b: string) {
    b != "" && (a == "" || a[0] < b[0] || (a[0] == b[0] && Before(a[1..], b[1..])))
  }

  predicate KeyBefore(k: Key, l: Key) {
    Before(k.0, l.0) || (k.0 == l.0 && Before(k.1, l.1))
  }

  function Insert(key: Key, keys: seq<Key>): (r: seq<Key>)
    ensures forall k :: k in r <==> k == key || k in keys
  {
    if keys == [] || KeyBefore(key, keys[0]) then [key] + keys else [keys[0]] + Insert(key, keys[1..])
  }

  /** `sorted(...)` of different keys. */
  function Sorted(keys: seq<Key>): (r: seq<Key>)
    ensures forall k :: k in r <==> k in keys
  {
    if keys == [] then [] else Insert(keys[|keys| - 1], Sorted(keys[..|keys| - 1]))
  }

  /** Each key comes before the next ones. */
  predicate Ascending(keys: seq<Key>) {
    forall i, j :: 0 <= i < j < |keys| ==> KeyBefore(keys[i], keys[j])
  }

  lemma {:induction false} KeyEither(k: Key, l: Key)
    ensures KeyBefore(k, l) || k == l || KeyBefore(l, k)
  {
    BeforeEither(k.0, l.0);
    BeforeEither(k.1, l.1);
  }

  lemma {:induction false} KeyChain(k: Key, l: Key, m: Key)
    requires KeyBefore(k, l) && KeyBefore(l, m)
    ensures KeyBefore(k, m)
  {
    if Before(k.0, l.0) && Before(l.0, m.0) {
      BeforeChain(k.0, l.0, m.0);
    } else if k.0 == l.0 == m.0 {
      BeforeChain(k.1, l.1, m.1);
    }
  }

  lemma {:induction false} InsertAscending(key: Key, keys: seq<Key>)
    requires Ascending(keys) && key !in keys
    ensures Ascending(Insert(key, keys))
  {
    if keys != [] {
      KeyEither(key, keys[0]);
      if KeyBefore(key, keys[0]) {
        FirstAscends(key, keys);
      } else {
        InsertAscending(key, keys[1..]);
        var rest := Insert(key, keys[1..]);
        forall k | k in rest ensures KeyBefore(keys[0], k) {
          assert k in keys[1..] ==> exists i :: 0 < i < |keys| && keys[i] == k;
        }
        assert forall i :: 0 <= i < |rest| ==> rest[i] in rest;
      }
    }
  }

  lemma {:induction false} FirstAscends(key: Key, keys: seq<Key>)
    requires Ascending(keys) && keys != [] && KeyBefore(key, keys[0])
    ensures Ascending([key] + keys)
  {
    forall j | 0 <= j < |keys| ensures KeyBefore(key, keys[j]) {
      if j > 0 {
        KeyChain(key, keys[0], keys[j]);
      }
    }
  }

  /** The groups are taken by endpoint, then by credential, in ascending order. */
  lemma {:induction false} SortedAscends(keys: seq<Key>)
    requires Different(keys)
    ensures Ascending(Sorted(keys))
  {
    if keys != [] {
      SortedAscends(keys[..|keys| - 1]);
      InsertAscending(keys[|keys| - 1], Sorted(keys[..|keys| - 1]));
    }
  }

  lemma {:induction false} InsertDifferent(key: Key, keys: seq<Key>)
    requires Different(keys) && key !in keys
    ensures Different(Insert(key, keys))
  {
    if keys != [] && !KeyBefore(key, keys[0]) {
      InsertDifferent(key, keys[1..]);
      assert keys[0] !in Insert(key, keys[1..]);
    }
  }

  lemma {:induction false} SortedDifferent(keys: seq<Key>)
    requires Different(keys)
    ensures Different(Sorted(keys))
  {
    if keys != [] {
      SortedDifferent(keys[..|keys| - 1]);
      InsertDifferent(keys[|keys| - 1], Sorted(keys[..|keys| - 1]));
    }
  }

  /** The order in which the second loop takes the groups. */
  function OrderOf(place: Item -> Placement, items: seq<Item>): seq<Key> {
    Sorted(KeysOf(place, items))
  }

  lemma {:induction false} OrderListsGroups(place: Item -> Placement, items: seq<Item>)
    ensures forall k :: k in OrderOf(place, items) <==> k in GroupsOf(place, items)
    ensures forall k :: k in GroupsOf(place, items) ==> GroupsOf(place, items)[k] != []
    ensures Different(OrderOf(place, items))
  {
    KeysListGroups(place, items);
    SortedDifferent(KeysOf(place, items));
  }

  // ---------- the loop ----------

  /** What an entry is complained of. */
  function Complaints(p: Placement): seq<Conflict> {
    if p.Failed? then [] else p.more
  }

  ghost predicate Complained(place: Item -> Placement, library: seq<Item>, c: Conflict) {
    exists n :: 0 <= n < |library| && c in Complaints(place(library[n]))
  }

  /** The conflicts are what the entries are complained of. */
  ghost predicate Collected(place: Item -> Placement, library: seq<Item>, conflicts: seq<Conflict>) {
    forall c :: c in conflicts <==> Complained(place, library, c)
  }

  lemma {:induction false} CollectedMore(place: Item -> Placement, library: seq<Item>, n: nat, conflicts: seq<Conflict>)
    requires n < |library| && Collected(place, library[..n], conflicts)
    ensures Collected(place, library[..n + 1], conflicts + Complaints(place(library[n])))
  {
    var front, more := library[..n], library[..n + 1];
    assert more[n] == library[n] && forall i :: 0 <= i < n ==> more[i] == front[i];
    forall c ensures c in conflicts + Complaints(place(library[n])) <==> Complained(place, more, c) {
      if Complained(place, front, c) {
        var i :| 0 <= i < |front| && c in Complaints(place(front[i]));
        assert more[i] == front[i];
      }
    }
  }

  /** The entry goes to a group without a conflict. */
  predicate Clean(place: Item -> Placement, item: Item) {
    var p := place(item);
    p.Joined? && p.more == []
  }

  /** The first entry that cannot be placed decides what is raised. */
  predicate FailsAt(place: Item -> Placement, library: seq<Item>, n: nat, e: PreviewError) {
    n < |library| && place(library[n]) == Failed(e) && forall m :: 0 <= m < n ==> !Fails(place, library[m])
  }

  ghost predicate FirstError(place: Item -> Placement, library: seq<Item>, e: PreviewError) {
    || (exists n :: FailsAt(place, library, n, e))
    || ((forall n :: 0 <= n < |library| ==> !Fails(place, library[n])) && e == UnusedResolution)
  }

  /** An entry that is left out is complained of. */
  ghost predicate Complaining(place: Item -> Placement) {
    forall item: Item :: place(item).Skipped? ==> place(item).more != []
  }

  predicate Fails(place: Item -> Placement, item: Item) {
    place(item).Failed?
  }

  /** The ids whose artifact resolution has been used. */
  function Consumed(place: Item -> Placement, items: seq<Item>): set<string> {
    if items == [] then {}
    else
      var item := items[|items| - 1];
      var p := place(item);
      Consumed(place, items[..|items| - 1]) + (if p.Joined? && p.row.artifactPath != "" then {item.id} else {})
  }

  /** A resolution is used exactly by a placed entry whose name is a path. */
  lemma {:induction false} ConsumedExactly(place: Item -> Placement, items: seq<Item>, id: string)
    ensures id in Consumed(place, items) <==>
            exists n :: 0 <= n < |items| && items[n].id == id && place(items[n]).Joined? && place(items[n]).row.artifactPath != ""
  {
    if items != [] {
      var front := items[..|items| - 1];
      ConsumedExactly(place, front, id);
      if exists n :: 0 <= n < |front| && front[n].id == id && place(front[n]).Joined? && place(front[n]).row.artifactPath != "" {
        var n :| 0 <= n < |front| && front[n].id == id && place(front[n]).Joined? && place(front[n]).row.artifactPath != "";
        assert items[n] == front[n];
      }
    }
  }

  /** What the first `n` entries have come to; `clean` while there is no conflict. */
  predicate Progress(place: Item -> Placement, library: seq<Item>, n: nat, keys: seq<Key>, groups: Groups, clean: bool,
                     consumed: set<string>)
    requires n <= |library|
  {
    && keys == KeysOf(place, library[..n]) && groups == GroupsOf(place, library[..n]) && consumed == Consumed(place, library[..n])
    && (forall i :: 0 <= i < n ==> !Fails(place, library[i]))
    && (clean <==> forall i :: 0 <= i < n ==> Clean(place, library[i]))
  }

  lemma {:induction false} Skip(place: Item -> Placement, library: seq<Item>, n: nat, keys: seq<Key>, groups: Groups, clean: bool,
                                consumed: set<string>)
    requires n < |library| && Progress(place, library, n, keys, groups, clean, consumed) && place(library[n]).Skipped?
    ensures Progress(place, library, n + 1, keys, groups, false, consumed)
  {
    TakeMore(library, n);
    assert !Clean(place, library[n]);
  }

  lemma {:induction false} Join(place: Item -> Placement, library: seq<Item>, n: nat, keys: seq<Key>, groups: Groups, clean: bool,
                                consumed: set<string>, p: Placement)
    requires n < |library| && Progress(place, library, n, keys, groups, clean, consumed) && place(library[n]) == p && p.Joined?
    ensures Progress(place, library, n + 1, AddKey(keys, p.key), Add(groups, p.key, p.row), clean && p.more == [],
                     consumed + (if p.row.artifactPath != "" then {library[n].id} else {}))
  {
    TakeMore(library, n);
  }

  /** The first loop: every valid entry goes to the group of its endpoint and credential. */
  method GroupEntries(place: Item -> Placement, library: seq<Item>, resolutions: map<string, Resolution>)
    returns (error: Option<PreviewError>, keys: seq<Key>, groups: Groups, conflicts: seq<Conflict>)
    requires Complaining(place)
    ensures error.None? <==> (forall n :: 0 <= n < |library| ==> !Fails(place, library[n])) &&
                             resolutions.Keys == Consumed(place, library)
    ensures error.None? ==> keys == KeysOf(place, library) && groups == GroupsOf(place, library)
    ensures error.None? ==> (conflicts == [] <==> forall n :: 0 <= n < |library| ==> Clean(place, library[n]))
    ensures error.None? ==> Collected(place, library, conflicts)
    ensures error.Some? ==> FirstError(place, library, error.value)
  {
    keys, groups, conflicts, error := [], map[], [], None;
    var consumed: set<string> := {};
    for n := 0 to |library|
      invariant Progress(place, library, n, keys, groups, conflicts == [], consumed) && Collected(place, library[..n], conflicts)
    {
      var outcome := place(library[n]);
      CollectedMore(place, library, n, conflicts);
      match outcome {
        case Failed(e) =>
          assert Fails(place, library[n]);
          assert FailsAt(place, library, n, e);
          return Some(e), keys, groups, conflicts;
        case Skipped(more) =>
          Skip(place, library, n, keys, groups, conflicts == [], consumed);
          conflicts := conflicts + more;
        case Joined(key, row, more) =>
          Join(place, library, n, keys, groups, conflicts == [], consumed, outcome);
          keys, groups := AddKey(keys, key), Add(groups, key, row);
          conflicts := conflicts + more;
          if row.artifactPath != "" {
            consumed := consumed + {library[n].id};
          }
      }
    }
    TakeAll(library);
    if resolutions.Keys != consumed {
      error := Some(UnusedResolution);
    }
  }
}
