/** Small facts about growing sequences and shrinking sets that loops use. */
module Collections {
  lemma {:induction false} TakeMore<T>(s: seq<T>, n: nat)
    requires n < |s|
    ensures s[..n + 1] == s[..n] + [s[n]]
  {
  }

  lemma {:induction false} TakeAll<T>(s: seq<T>)
    ensures s[..|s|] == s
  {
  }

  lemma {:induction false} BothEmpty<T>(a: seq<T>, b: seq<T>)
    ensures a + b == [] <==> a == [] && b == []
  {
  }

  lemma {:induction false} OneLess<T>(keys: set<T>, rest: set<T>, key: T)
    requires key in rest && rest <= keys
    ensures keys - (rest - {key}) == keys - rest + {key}
  {
  }

  lemma {:induction false} NoneLess<T>(keys: set<T>)
    ensures keys - {} == keys
  {
  }

  lemma {:induction false} SameMaps<K, V>(a: map<K, V>, b: map<K, V>)
    requires (forall k :: k in a ==> k in b && b[k] == a[k]) && (forall k :: k in b ==> k in a && a[k] == b[k])
    ensures a == b
  {
  }

  predicate Different<T(==)>(s: seq<T>) {
    forall i, j :: 0 <= i < j < |s| ==> s[i] != s[j]
  }

  predicate Any<T>(s: seq<T>, f: T -> bool) {
    exists k :: 0 <= k < |s| && f(s[k])
  }

  lemma {:induction false} AnyMore<T>(s: seq<T>, n: nat, f: T -> bool)
    requires n < |s|
    ensures Any(s[..n + 1], f) <==> Any(s[..n], f) || f(s[n])
  {
    var more, less := s[..n + 1], s[..n];
    assert more == less + [s[n]];
    if f(s[n]) {
      assert f(more[n]);
    }
    if Any(less, f) {
      var k :| 0 <= k < |less| && f(less[k]);
      assert f(more[k]);
    }
  }

  /** Induction from `n` down to 0. */
  lemma {:induction false} Downwards(holds: nat -> bool, n: nat)
    requires holds(n) && forall k: nat :: k < n && holds(k + 1) ==> holds(k)
    ensures holds(0)
  {
    if n > 0 {
      Downwards(holds, n - 1);
    }
  }
}
