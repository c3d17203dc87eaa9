/**
  Following the model alias map: the recursion of the graph builder, the loop of `resolve_model_ref` and the loop of
  `_legacy_to_canonical_refs`, against the chain they all walk.  Alias targets are stripped and not blank.
 */
module Aliases {
  import opened Text
  import opened Wrappers
  import opened Collections
  import opened Identity

  type AliasMap = map<string, string>

  // ---------- the chain ----------

  /** Behind `n` hops; a reference that is no alias stays. */
  function Hop(m: AliasMap, x: string, n: nat): string
    decreases n
  {
    if n == 0 then x else if x in m then Hop(m, m[x], n - 1) else x
  }

  /** The chain reaches something that is no alias. */
  ghost predicate Leaves(m: AliasMap, x: string) {
    exists n: nat :: Hop(m, x, n) !in m
  }

  /** Where it ends then. */
  ghost function End(m: AliasMap, x: string): string
    requires Leaves(m, x)
  {
    var n: nat :| Hop(m, x, n) !in m;
    Hop(m, x, n)
  }

  ghost predicate OnCycle(m: AliasMap, x: string) {
    x in m && exists n: nat :: n > 0 && Hop(m, x, n) == x
  }

  lemma {:induction false} HopAdd(m: AliasMap, x: string, a: nat, b: nat)
    ensures Hop(m, x, a + b) == Hop(m, Hop(m, x, a), b)
    decreases a
  {
    if a > 0 && x in m {
      HopAdd(m, m[x], a - 1, b);
    } else if a > 0 {
      StayPut(m, x, b);
      StayPut(m, x, a + b);
    }
  }

  lemma {:induction false} StayPut(m: AliasMap, x: string, n: nat)
    requires x !in m || n == 0
    ensures Hop(m, x, n) == x
  {
  }

  /** Once outside the map the chain stays where it is, so its end does not depend on the choice of `n`. */
  lemma {:induction false} EndIs(m: AliasMap, x: string, n: nat)
    requires Hop(m, x, n) !in m
    ensures Leaves(m, x) && End(m, x) == Hop(m, x, n)
  {
    var k: nat :| Hop(m, x, k) !in m && End(m, x) == Hop(m, x, k);
    if k <= n {
      HopAdd(m, x, k, n - k);
      StayPut(m, Hop(m, x, k), n - k);
    } else {
      HopAdd(m, x, n, k - n);
      StayPut(m, Hop(m, x, n), k - n);
    }
  }

  /** A chain that comes back to a place it has been never leaves the map. */
  lemma {:induction false} Returning(m: AliasMap, x: string, j: nat, k: nat, n: nat)
    requires j < k && Hop(m, x, j) == Hop(m, x, k) && forall i: nat :: i < k ==> Hop(m, x, i) in m
    ensures Hop(m, x, n) in m
    decreases n
  {
    if n >= k {
      HopAdd(m, x, k, n - k);
      HopAdd(m, x, j, n - k);
      Returning(m, x, j, k, j + (n - k));
    }
  }

  lemma {:induction false} NeverLeaves(m: AliasMap, x: string, j: nat, k: nat)
    requires j < k && Hop(m, x, j) == Hop(m, x, k) && forall i: nat :: i < k ==> Hop(m, x, i) in m
    ensures !Leaves(m, x) && OnCycle(m, Hop(m, x, k))
  {
    if Leaves(m, x) {
      var n: nat :| Hop(m, x, n) !in m;
      Returning(m, x, j, k, n);
    }
    HopAdd(m, x, j, k - j);
    Returning(m, x, j, k, k);
  }

  // ---------- where a chain that never leaves comes to a cycle ----------

  /** The first place of the chain that is on a cycle. */
  ghost predicate Enters(m: AliasMap, x: string, e: string) {
    OnCycle(m, e) && exists n: nat :: Hop(m, x, n) == e && NoneOnCycle(m, x, n)
  }

  ghost predicate NoneOnCycle(m: AliasMap, x: string, n: nat) {
    forall i: nat :: i < n ==> !OnCycle(m, Hop(m, x, i))
  }

  /** Where a walk along the chain comes to rest: at its end, or where it enters a cycle. */
  ghost predicate RestsAt(m: AliasMap, x: string, e: string) {
    if Leaves(m, x) then e == End(m, x) else Enters(m, x, e)
  }

  lemma {:induction false} OneRest(m: AliasMap, x: string, e: string, f: string)
    requires RestsAt(m, x, e) && RestsAt(m, x, f)
    ensures e == f
  {
    if !Leaves(m, x) {
      var k: nat :| Hop(m, x, k) == e && NoneOnCycle(m, x, k);
      var n: nat :| Hop(m, x, n) == f && NoneOnCycle(m, x, n);
      assert k < n ==> !OnCycle(m, Hop(m, x, k));
      assert n < k ==> !OnCycle(m, Hop(m, x, n));
    }
  }

  /** A place on a cycle is come to again, however far on. */
  lemma {:induction false} Again(m: AliasMap, y: string, p: nat, t: nat) returns (n: nat)
    requires p > 0 && Hop(m, y, p) == y
    ensures n >= t && Hop(m, y, n) == y
    decreases t
  {
    if t == 0 {
      n := 0;
    } else {
      var k := Again(m, y, p, t - 1);
      HopAdd(m, y, k, p);
      n := k + p;
    }
  }

  /** In front of the first place that comes again, no place is on a cycle. */
  lemma {:induction false} NotYet(m: AliasMap, x: string, j: nat, k: nat, i: nat)
    requires i < j < k && Hop(m, x, j) == Hop(m, x, k)
    requires forall a: nat, b: nat :: a < b < k ==> Hop(m, x, a) != Hop(m, x, b)
    ensures !OnCycle(m, Hop(m, x, i))
  {
    var y := Hop(m, x, i);
    if OnCycle(m, y) {
      var p: nat :| p > 0 && Hop(m, y, p) == y;
      var n := Again(m, y, p, j);
      HopAdd(m, x, i, n);
      HopAdd(m, x, j, i + n - j);
      HopAdd(m, x, k, i + n - j);
      HopAdd(m, x, i + n, k - j);
      HopAdd(m, x, i, k - j);
    }
  }

  // ---------- the loops ----------

  /** The walk so far: `k` hops over the places in `visited`. */
  ghost predicate Walked(m: AliasMap, x: string, k: nat, visited: set<string>, current: string) {
    && current == Hop(m, x, k) && visited <= m.Keys
    && (forall i: nat :: i < k ==> Hop(m, x, i) in visited)
    && (forall i: nat, j: nat :: i < j < k ==> Hop(m, x, i) != Hop(m, x, j))
    && (forall v :: v in visited ==> Passed(m, x, k, v))
  }

  ghost predicate Passed(m: AliasMap, x: string, k: nat, v: string) {
    exists i: nat :: i < k && Hop(m, x, i) == v
  }

  lemma {:induction false} WalkOn(m: AliasMap, x: string, k: nat, visited: set<string>, current: string)
    requires Walked(m, x, k, visited, current) && current in m && current !in visited
    ensures Walked(m, x, k + 1, visited + {current}, m[current])
  {
    HopAdd(m, x, k, 1);
    assert Hop(m, current, 1) == Hop(m, m[current], 0);
    forall v | v in visited + {current} ensures Passed(m, x, k + 1, v) {
      PassedOn(m, x, k, v);
    }
  }

  lemma {:induction false} PassedOn(m: AliasMap, x: string, k: nat, v: string)
    requires Passed(m, x, k, v) || v == Hop(m, x, k)
    ensures Passed(m, x, k + 1, v)
  {
    if Passed(m, x, k, v) {
      var i: nat :| i < k && Hop(m, x, i) == v;
      assert i < k + 1;
    } else {
      assert k < k + 1;
    }
  }

  lemma {:induction false} WalkedBack(m: AliasMap, x: string, k: nat, visited: set<string>, current: string)
    requires Walked(m, x, k, visited, current) && current in visited
    ensures !Leaves(m, x) && Enters(m, x, current) && OnCycle(m, current)
  {
    var j: nat :| j < k && Hop(m, x, j) == current;
    forall i: nat | i < k ensures Hop(m, x, i) in m {
      assert Hop(m, x, i) in visited;
    }
    NeverLeaves(m, x, j, k);
    forall i: nat | i < j ensures !OnCycle(m, Hop(m, x, i)) {
      NotYet(m, x, j, k, i);
    }
    assert NoneOnCycle(m, x, j);
  }

  /** `LLMConfig.resolve_model_ref`: the end of the chain, or an error exactly when it never leaves the map. */
  method ResolveModelRef(m: AliasMap, modelRef: string) returns (r: Option<string>)
    ensures r.Some? <==> Leaves(m, modelRef)
    ensures r.Some? ==> r.value == End(m, modelRef)
  {
    var current := modelRef;
    var visited: set<string> := {};
    ghost var k := 0;
    while current in m
      invariant Walked(m, modelRef, k, visited, current)
      decreases m.Keys - visited
    {
      if current in visited {
        WalkedBack(m, modelRef, k, visited, current);
        return None;
      }
      WalkOn(m, modelRef, k, visited, current);
      visited := visited + {current};
      current := m[current];
      k := k + 1;
    }
    EndIs(m, modelRef, k);
    r := Some(current);
  }

  /** The inner loop of `_legacy_to_canonical_refs`: it stops at the end of the chain, or where the chain enters a cycle. */
  method FollowAliases(m: AliasMap, legacyId: string) returns (current: string)
    ensures RestsAt(m, legacyId, current)
  {
    current := legacyId;
    var visited: set<string> := {};
    ghost var k := 0;
    while current in m && current !in visited
      invariant Walked(m, legacyId, k, visited, current)
      decreases m.Keys - visited
    {
      WalkOn(m, legacyId, k, visited, current);
      visited := visited + {current};
      current := m[current];
      k := k + 1;
    }
    if current in m {
      WalkedBack(m, legacyId, k, visited, current);
    } else {
      EndIs(m, legacyId, k);
    }
  }

  // ---------- the recursion of the graph builder ----------

  datatype Issue = Cyclic(subject: string) | Dangling(subject: string)

  /** The pinned models of every provider. */
  type Pins = map<string, set<string>>

  predicate Exists(pins: Pins, ref: string) {
    var s := SplitModelRef(ref);
    s.Some? && s.value.0 in pins && s.value.1 in pins[s.value.0]
  }

  /** `resolve_alias`; `trail` is the set of the aliases it came through. */
  function ResolveAlias(m: AliasMap, pins: Pins, alias: string, trail: set<string>): Result<string, Issue>
    requires trail <= m.Keys
    decreases m.Keys - trail
  {
    if alias in trail then Err(Cyclic(alias))
    else if alias !in m then Ok(alias)
    else if m[alias] in m then ResolveAlias(m, pins, m[alias], trail + {alias})
    else if Exists(pins, m[alias]) then Ok(m[alias])
    else Err(Dangling(alias))
  }

  lemma {:induction false} ResolveAliasIs(m: AliasMap, pins: Pins, start: string, k: nat, alias: string, trail: set<string>)
    requires Walked(m, start, k, trail, alias) && alias in m
    ensures var r := ResolveAlias(m, pins, alias, trail);
      && (r.Err? && r.error.Cyclic? <==> !Leaves(m, start))
      && (r.Err? && r.error.Cyclic? ==> Enters(m, start, r.error.subject))
      && (Leaves(m, start) ==> (r.Ok? <==> Exists(pins, End(m, start))))
      && (r.Ok? ==> Leaves(m, start) && r.value == End(m, start))
    decreases m.Keys - trail
  {
    if alias in trail {
      WalkedBack(m, start, k, trail, alias);
    } else {
      WalkOn(m, start, k, trail, alias);
      if m[alias] in m {
        ResolveAliasIs(m, pins, start, k + 1, m[alias], trail + {alias});
      } else {
        EndIs(m, start, k + 1);
      }
    }
  }

  /**
    What the builder does with one alias: it reports a cycle exactly when the chain never leaves the map, then naming the
    alias where the chain enters a cycle; it reports a dangling target exactly when the chain ends at no pinned model; otherwise it returns
    the pinned model at the end.
   */
  lemma {:induction false} BuilderResolves(m: AliasMap, pins: Pins, alias: string)
    requires alias in m
    ensures var r := ResolveAlias(m, pins, alias, {});
      && (r.Err? && r.error.Cyclic? <==> !Leaves(m, alias))
      && (r.Err? && r.error.Cyclic? ==> Enters(m, alias, r.error.subject))
      && (r.Ok? <==> Leaves(m, alias) && Exists(pins, End(m, alias)))
      && (r.Ok? ==> r.value == End(m, alias))
  {
    ResolveAliasIs(m, pins, alias, 0, alias, {});
  }

  /** What `build` has collected for the aliases in `done`. */
  ghost predicate Collected(m: AliasMap, pins: Pins, done: seq<string>, aliases: AliasMap, issues: seq<Issue>) {
    && (SomeCyclic(issues) <==> SomeNeverLeaves(m, done))
    && (forall i :: 0 <= i < |issues| && issues[i].Cyclic? ==> OnCycle(m, issues[i].subject))
    && (issues == [] ==> forall a :: a in done <==> a in aliases)
    && (forall a :: a in aliases ==> Resolved(m, pins, a, aliases[a]))
    && (issues == [] <==> AllResolve(m, pins, done))
  }

  /** The chain from here ends at a pinned model. */
  ghost predicate Resolves(m: AliasMap, pins: Pins, a: string) {
    Leaves(m, a) && Exists(pins, End(m, a))
  }

  ghost predicate AllResolve(m: AliasMap, pins: Pins, done: seq<string>) {
    forall a :: a in done ==> Resolves(m, pins, a)
  }

  predicate SomeCyclic(issues: seq<Issue>) {
    exists i :: 0 <= i < |issues| && issues[i].Cyclic?
  }

  ghost predicate SomeNeverLeaves(m: AliasMap, done: seq<string>) {
    exists j :: 0 <= j < |done| && !Leaves(m, done[j])
  }

  ghost predicate Resolved(m: AliasMap, pins: Pins, a: string, target: string) {
    Leaves(m, a) && target == End(m, a) && Exists(pins, target)
  }

  lemma {:induction false} SomeMore(m: AliasMap, done: seq<string>, a: string, issues: seq<Issue>, issue: Issue)
    ensures SomeNeverLeaves(m, done + [a]) <==> SomeNeverLeaves(m, done) || !Leaves(m, a)
    ensures SomeCyclic(issues + [issue]) <==> SomeCyclic(issues) || issue.Cyclic?
  {
    var more, all := done + [a], issues + [issue];
    assert more[|done|] == a && all[|issues|] == issue;
    assert forall j :: 0 <= j < |done| ==> more[j] == done[j];
    assert forall i :: 0 <= i < |issues| ==> all[i] == issues[i];
  }

  lemma {:induction false} CollectOk(m: AliasMap, pins: Pins, done: seq<string>, aliases: AliasMap, issues: seq<Issue>,
                                     a: string, target: string)
    requires Collected(m, pins, done, aliases, issues) && Resolved(m, pins, a, target)
    ensures Collected(m, pins, done + [a], aliases[a := target], issues)
  {
    SomeMore(m, done, a, issues, Dangling(a));
    ResolveMore(m, pins, done, a);
    if issues == [] {
      MappedMore(done, aliases, a, target);
    }
  }

  lemma {:induction false} ResolveMore(m: AliasMap, pins: Pins, done: seq<string>, a: string)
    ensures AllResolve(m, pins, done + [a]) <==> AllResolve(m, pins, done) && Resolves(m, pins, a)
  {
    assert a in done + [a];
    assert forall b :: b in done ==> b in done + [a];
  }

  lemma {:induction false} MappedMore(done: seq<string>, aliases: AliasMap, a: string, target: string)
    requires forall b :: b in done <==> b in aliases
    ensures forall b :: b in done + [a] <==> b in aliases[a := target]
  {
  }

  lemma {:induction false} CollectIssue(m: AliasMap, pins: Pins, done: seq<string>, aliases: AliasMap, issues: seq<Issue>,
                                        a: string, issue: Issue)
    requires Collected(m, pins, done, aliases, issues) && !Resolves(m, pins, a)
    requires (issue.Cyclic? <==> !Leaves(m, a)) && (issue.Cyclic? ==> OnCycle(m, issue.subject))
    ensures Collected(m, pins, done + [a], aliases, issues + [issue])
  {
    SomeMore(m, done, a, issues, issue);
    ResolveMore(m, pins, done, a);
  }

  /** The loop of `build` over the aliases, in the order of `sorted`. */
  method ResolveAll(m: AliasMap, pins: Pins, order: seq<string>) returns (aliases: AliasMap, issues: seq<Issue>)
    requires forall a :: a in order <==> a in m
    ensures SomeCyclic(issues) <==> exists a :: a in m && !Leaves(m, a)
    ensures forall i :: 0 <= i < |issues| && issues[i].Cyclic? ==> OnCycle(m, issues[i].subject)
    ensures issues == [] <==> forall a :: a in m ==> Resolves(m, pins, a)
    ensures issues == [] ==> aliases.Keys == m.Keys
    ensures forall a :: a in aliases ==> Resolved(m, pins, a, aliases[a])
  {
    aliases, issues := map[], [];
    for n := 0 to |order|
      invariant Collected(m, pins, order[..n], aliases, issues)
    {
      var alias := order[n];
      BuilderResolves(m, pins, alias);
      var r := ResolveAlias(m, pins, alias, {});
      TakeMore(order, n);
      if r.Ok? {
        CollectOk(m, pins, order[..n], aliases, issues, alias, r.value);
        aliases := aliases[alias := r.value];
      } else {
        CollectIssue(m, pins, order[..n], aliases, issues, alias, r.error);
        issues := issues + [r.error];
      }
    }
    TakeAll(order);
    CyclesFound(m, order);
  }

  lemma {:induction false} CyclesFound(m: AliasMap, order: seq<string>)
    requires forall a :: a in order <==> a in m
    ensures SomeNeverLeaves(m, order) <==> exists a :: a in m && !Leaves(m, a)
  {
    if exists a :: a in m && !Leaves(m, a) {
      var a :| a in m && !Leaves(m, a);
      var j :| 0 <= j < |order| && order[j] == a;
    }
  }

  // ---------- the canonical references of the capability cache ----------

  /** The library's own references. */
  function CanonicalOf(library: set<string>): set<string> {
    set x | x in library && '/' in x && SplitModelRef(x).Some?
  }

  /** What the mapping holds behind the aliases in `done`. */
  ghost predicate MappedSoFar(m: AliasMap, canonical: set<string>, done: seq<string>, mapping: AliasMap) {
    && (forall x :: x !in done ==> (x in mapping <==> x in canonical))
    && (forall x :: x !in done && x in mapping ==> mapping[x] == x)
    && (forall x, e :: x in done && RestsAt(m, x, e) ==> MapsTo(canonical, x, e, mapping))
  }

  /**
    An alias is mapped to where its chain comes to rest if that is a model of the library; if not, only a library entry is
    mapped, to itself.
   */
  predicate MapsTo(canonical: set<string>, x: string, e: string, mapping: AliasMap) {
    if e in canonical then x in mapping && mapping[x] == e
    else (x in mapping <==> x in canonical) && (x in mapping ==> mapping[x] == x)
  }

  /** The place where a chain rests is in the mapping exactly when it is a model of the library. */
  lemma {:induction false} RestMapped(m: AliasMap, canonical: set<string>, done: seq<string>, mapping: AliasMap, x: string, e: string)
    requires MappedSoFar(m, canonical, done, mapping) && RestsAt(m, x, e) && forall d :: d in done ==> d in m
    ensures e in mapping <==> e in canonical
  {
    if Leaves(m, x) {
      var n: nat :| Hop(m, x, n) !in m;
      EndIs(m, x, n);
    } else if e in done {
      CycleRests(m, e);
      assert MapsTo(canonical, e, e, mapping);
    }
  }

  lemma {:induction false} CycleRests(m: AliasMap, e: string)
    requires OnCycle(m, e)
    ensures RestsAt(m, e, e)
  {
    var p: nat :| p > 0 && Hop(m, e, p) == e;
    if Leaves(m, e) {
      var n: nat :| Hop(m, e, n) !in m;
      EndIs(m, e, n);
      var k := Again(m, e, p, n);
      var d: nat := k - n;
      HopAdd(m, e, n, d);
      StayPut(m, Hop(m, e, n), d);
    }
    assert Hop(m, e, 0) == e && NoneOnCycle(m, e, 0);
  }

  lemma {:induction false} MapMore(m: AliasMap, canonical: set<string>, done: seq<string>, mapping: AliasMap, x: string,
                                   current: string, more: AliasMap)
    requires MappedSoFar(m, canonical, done, mapping) && x !in done && x in m
    requires forall d :: d in done ==> d in m
    requires RestsAt(m, x, current)
    requires more == if current in mapping then mapping[x := current] else mapping
    ensures MappedSoFar(m, canonical, done + [x], more)
  {
    RestMapped(m, canonical, done, mapping, x, current);
    forall y, e | y in done + [x] && RestsAt(m, y, e) ensures MapsTo(canonical, y, e, more) {
      if y == x {
        OneRest(m, x, e, current);
      } else {
        assert MapsTo(canonical, y, e, mapping);
      }
    }
  }

  /** The second loop of `_legacy_to_canonical_refs`. */
  method MapAliases(canonical: set<string>, m: AliasMap, order: seq<string>) returns (mapping: AliasMap)
    requires forall a :: a in order <==> a in m
    requires forall i, j :: 0 <= i < j < |order| ==> order[i] != order[j]
    ensures MappedSoFar(m, canonical, order, mapping)
  {
    mapping := map x | x in canonical :: x;
    for n := 0 to |order|
      invariant MappedSoFar(m, canonical, order[..n], mapping)
    {
      var current := FollowAliases(m, order[n]);
      ghost var before := mapping;
      if current in mapping {
        mapping := mapping[order[n] := current];
      }
      MapMore(m, canonical, order[..n], before, order[n], current, mapping);
      assert order[..n + 1] == order[..n] + [order[n]];
    }
    assert order[..|order|] == order;
  }

  /** `_legacy_to_canonical_refs`; the mapping starts with the library's own references. */
  method LegacyToCanonicalRefs(library: set<string>, m: AliasMap, order: seq<string>) returns (mapping: AliasMap)
    requires forall a :: a in order <==> a in m
    requires forall i, j :: 0 <= i < j < |order| ==> order[i] != order[j]
    ensures MappedSoFar(m, CanonicalOf(library), order, mapping)
  {
    mapping := MapAliases(CanonicalOf(library), m, order);
  }

  /**
    When the build succeeds, both loops end at the pinned model the recursion returns, for every alias and for every
    reference that is no alias.
   */
  method WalkersAgree(m: AliasMap, pins: Pins, order: seq<string>, ref: string)
    returns (ok: bool, built: string, looped: Option<string>, followed: string)
    requires forall a :: a in order <==> a in m
    ensures ok <==> forall a :: a in m ==> Resolves(m, pins, a)
    ensures ok ==> looped == Some(followed)
    ensures ok && ref in m ==> built == followed && Exists(pins, built)
  {
    var aliases, issues := ResolveAll(m, pins, order);
    ok := issues == [];
    built := if ref in aliases then aliases[ref] else ref;
    if ok && ref !in m {
      StayPut(m, ref, 0);
      EndIs(m, ref, 0);
    }
    looped := ResolveModelRef(m, ref);
    followed := FollowAliases(m, ref);
  }
}
