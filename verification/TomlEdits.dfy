/** What removing a table tree, or changing one value, means for the parsed tree. */
module TomlEdits {
  import opened Wrappers
  import opened TomlLexer
  import opened TomlSyntax
  import opened TomlTree
  import opened TomlSpans

  // ---------- removing a table tree ----------

  /** A table that only longer headers implied and that has nothing left in it. */
  predicate Hollow(t: Node) {
    t == Dict(map[], false)
  }

  /** `t` without the tables under `p`, in every item of the arrays on the way, and without parents they alone implied. */
  function Prune(t: Node, p: seq<string>): Node
    decreases |p|, t
  {
    match t
    case Leaf(_) => t
    case Items(items) => Items(PruneAll(items, p))
    case Dict(m, e) =>
      if p == [] || p[0] !in m then t
      else if |p| == 1 then if m[p[0]].Leaf? then t else Dict(m - {p[0]}, e)
      else
        var c := Prune(m[p[0]], p[1..]);
        Dict(if Hollow(c) then m - {p[0]} else m[p[0] := c], e)
  }

  function PruneAll(items: seq<Node>, p: seq<string>): (r: seq<Node>)
    ensures |r| == |items|
    decreases |p|, items
  {
    if items == [] then [] else PruneAll(items[..|items| - 1], p) + [Prune(Last(items), p)]
  }

  lemma {:induction false} PruneLast(items: seq<Node>, x: Node, p: seq<string>)
    requires items != []
    ensures PruneAll(SetLast(items, x), p) == SetLast(PruneAll(items, p), Prune(x, p))
    ensures Last(PruneAll(items, p)) == Prune(Last(items), p)
  {
    assert SetLast(items, x)[..|items| - 1] == items[..|items| - 1];
  }

  lemma {:induction false} PruneMore(items: seq<Node>, x: Node, p: seq<string>)
    ensures PruneAll(items + [x], p) == PruneAll(items, p) + [Prune(x, p)]
  {
    assert (items + [x])[..|items|] == items;
  }

  lemma {:induction false} PruneEmpty(p: seq<string>)
    ensures Prune(EMPTY, p) == EMPTY && Prune(Dict(map[], false), p) == Dict(map[], false)
  {
  }

  predicate Under(p: seq<string>, q: seq<string>) {
    p <= q
  }

  lemma {:induction false} UnderTail(p: seq<string>, q: seq<string>)
    requires p != [] && q != []
    ensures Under(p, q) <==> p[0] == q[0] && Under(p[1..], q[1..])
  {
    if p[0] == q[0] && Under(p[1..], q[1..]) {
      assert forall i :: 0 < i < |p| ==> p[i] == p[1..][i - 1] && q[i] == q[1..][i - 1];
    }
  }

  /** A header leaves a table that has something in it. */
  lemma {:induction false} DeclareFills(t: Node, q: seq<string>, ofTables: bool)
    requires Declare(t, q, ofTables).Some?
    ensures !Hollow(Declare(t, q, ofTables).value) && !Declare(t, q, ofTables).value.Leaf?
    ensures t.Dict? ==> var r := Declare(t, q, ofTables).value; r.Dict? && q != [] && q[0] in r.m && !r.m[q[0]].Leaf?
    decreases |q|, t
  {
    if t.Dict? {
      if |q| > 1 {
        DeclareFills(Child(t.m, q[0]), q[1..], ofTables);
      }
      assert q[0] in Declare(t, q, ofTables).value.m;
    }
  }

  /** A header under the path declares something that is pruned again. */
  lemma {:induction false} PruneDeclareUnder(t: Node, p: seq<string>, q: seq<string>, ofTables: bool)
    requires p != [] && Under(p, q) && Declare(t, q, ofTables).Some?
    ensures Prune(Declare(t, q, ofTables).value, p) == Prune(t, p)
    decreases |q|, t
  {
    match t
    case Items(items) =>
      PruneDeclareUnder(Last(items), p, q, ofTables);
      PruneLast(items, Declare(Last(items), q, ofTables).value, p);
      assert SetLast(PruneAll(items, p), Prune(Last(items), p)) == PruneAll(items, p);
    case Dict(m, e) =>
      var k := q[0];
      UnderTail(p, q);
      DeclareFills(t, q, ofTables);
      if |p| == 1 {
        var r := Declare(t, q, ofTables).value.m[k];
        assert Declare(t, q, ofTables) == Some(Dict(m[k := r], e)) && m[k := r] - {k} == m - {k};
        if k !in m {
          assert m - {k} == m;
        }
      } else {
        var c := Child(m, k);
        var r := Declare(c, q[1..], ofTables).value;
        PruneDeclareUnder(c, p[1..], q[1..], ofTables);
        assert Declare(t, q, ofTables) == Some(Dict(m[k := r], e));
        PruneSame(m, e, k, p, r);
      }
  }

  lemma {:induction false} PruneSame(m: map<string, Node>, e: bool, k: string, p: seq<string>, r: Node)
    requires |p| > 1 && k == p[0] && Prune(r, p[1..]) == Prune(Child(m, k), p[1..])
    ensures Prune(Dict(m[k := r], e), p) == Prune(Dict(m, e), p)
  {
    var c := Prune(r, p[1..]);
    assert m[k := r] - {k} == m - {k} && m[k := r][k := c] == m[k := c];
    if k !in m {
      PruneEmpty(p[1..]);
      assert m - {k} == m;
    }
  }

  /** A header beside the path does the same to the pruned tree. */
  lemma {:induction false} PruneDeclareBeside(t: Node, p: seq<string>, q: seq<string>, ofTables: bool)
    requires p != [] && !Under(p, q) && Declare(t, q, ofTables).Some?
    ensures Declare(Prune(t, p), q, ofTables) == Some(Prune(Declare(t, q, ofTables).value, p))
    decreases |q|, t
  {
    match t
    case Items(items) =>
      PruneDeclareBeside(Last(items), p, q, ofTables);
      PruneLast(items, Declare(Last(items), q, ofTables).value, p);
    case Dict(m, e) =>
      var k := q[0];
      UnderTail(p, q);
      if k != p[0] {
        PruneDeclareOther(m, e, p, q, ofTables);
      } else if |q| == 1 {
        PruneDeclareHere(m, e, p, ofTables);
      } else {
        var c := Child(m, k);
        var r := Declare(c, q[1..], ofTables).value;
        assert |p| > 1;
        PruneDeclareBeside(c, p[1..], q[1..], ofTables);
        DeclareFills(Prune(c, p[1..]), q[1..], ofTables);
        PruneChild(m, e, k, p);
        assert Declare(t, q, ofTables) == Some(Dict(m[k := r], e));
        var n := Prune(t, p).m;
        SameRest(n, m, k, Prune(r, p[1..]), r);
      }
  }

  /** The pruned table still shows the pruned child, a dropped one as the empty table a header would imply again. */
  lemma {:induction false} PruneChild(m: map<string, Node>, e: bool, k: string, p: seq<string>)
    requires |p| > 1 && k == p[0]
    ensures var n := Prune(Dict(m, e), p);
      n.Dict? && n.explicit == e && Child(n.m, k) == Prune(Child(m, k), p[1..]) && n.m - {k} == m - {k}
  {
    PruneEmpty(p[1..]);
    var n := Prune(Dict(m, e), p).m;
    assert n - {k} == m - {k};
  }

  lemma {:induction false} SameRest(n: map<string, Node>, m: map<string, Node>, k: string, x: Node, y: Node)
    requires n - {k} == m - {k}
    ensures n[k := x] == m[k := y][k := x]
  {
    forall l | l in n && l != k ensures l in m && n[l] == m[l] {
      assert l in n - {k} && (n - {k})[l] == (m - {k})[l];
    }
    forall l | l in m && l != k ensures l in n {
      assert l in m - {k};
    }
  }

  lemma {:induction false} PruneDeclareOther(m: map<string, Node>, e: bool, p: seq<string>, q: seq<string>, ofTables: bool)
    requires p != [] && q != [] && p[0] != q[0] && Declare(Dict(m, e), q, ofTables).Some?
    ensures Declare(Prune(Dict(m, e), p), q, ofTables) == Some(Prune(Declare(Dict(m, e), q, ofTables).value, p))
  {
    var k, l := q[0], p[0];
    var x := Declare(Dict(m, e), q, ofTables).value.m[k];
    assert Declare(Dict(m, e), q, ofTables).value == Dict(m[k := x], e);
    assert (m - {l})[k := x] == m[k := x] - {l};
    if l in m && |p| > 1 {
      var c := Prune(m[l], p[1..]);
      assert m[l := c][k := x] == m[k := x][l := c];
    }
  }

  lemma {:induction false} PruneDeclareHere(m: map<string, Node>, e: bool, p: seq<string>, ofTables: bool)
    requires |p| > 1 && Declare(Dict(m, e), [p[0]], ofTables).Some?
    ensures Declare(Prune(Dict(m, e), p), [p[0]], ofTables) == Some(Prune(Declare(Dict(m, e), [p[0]], ofTables).value, p))
  {
    var k := p[0];
    var x := Declare(Dict(m, e), [k], ofTables).value.m[k];
    PruneChild(m, e, k, p);
    PruneEmpty(p[1..]);
    var n := Prune(Dict(m, e), p).m;
    assert PruneAll([EMPTY], p[1..]) == [EMPTY] by {
      PruneMore([], EMPTY, p[1..]);
    }
    if k in m && m[k].Items? {
      PruneMore(m[k].items, EMPTY, p[1..]);
    }
    var y := Prune(x, p[1..]);
    assert DeclareHere(if k in n then Some(n[k]) else None, ofTables) == Some(y);
    SameRest(n, m, k, y, x);
  }

  // ---------- assignments ----------

  /** The header `h` was declared: the walk ends in a table or an array of tables that cannot be hollow. */
  predicate Declared(t: Node, h: seq<string>)
    decreases |h|, t
  {
    match t
    case Leaf(_) => false
    case Items(items) => items != [] && Declared(Last(items), h)
    case Dict(m, e) => if h == [] then e else h[0] in m && Declared(m[h[0]], h[1..])
  }

  lemma {:induction false} DeclareDeclares(t: Node, q: seq<string>, ofTables: bool)
    requires Declare(t, q, ofTables).Some?
    ensures Declared(Declare(t, q, ofTables).value, q)
    decreases |q|, t
  {
    match t
    case Items(items) => DeclareDeclares(Last(items), q, ofTables);
    case Dict(m, e) =>
      if |q| > 1 {
        DeclareDeclares(Child(m, q[0]), q[1..], ofTables);
      } else {
        assert q[1..] == [];
      }
  }

  lemma {:induction false} AssignDeclared(t: Node, h: seq<string>, k: string, v: Value)
    requires Declared(t, h) && AssignAt(t, h, k, v).Some?
    ensures Declared(AssignAt(t, h, k, v).value, h)
    decreases |h|, t
  {
    match t
    case Items(items) => AssignDeclared(Last(items), h, k, v);
    case Dict(m, e) =>
      if h != [] {
        AssignDeclared(m[h[0]], h[1..], k, v);
      }
  }

  /** A declared table beside the path survives the pruning. */
  lemma {:induction false} PruneDeclared(t: Node, p: seq<string>, h: seq<string>)
    requires p != [] && !Under(p, h) && Declared(t, h)
    ensures Declared(Prune(t, p), h) && !Hollow(Prune(t, p))
    decreases |h|, t
  {
    match t
    case Items(items) =>
      PruneDeclared(Last(items), p, h);
      PruneLast(items, Last(items), p);
    case Dict(m, e) =>
      if h != [] {
        UnderTail(p, h);
        if h[0] == p[0] {
          assert |p| > 1;
          PruneDeclared(m[h[0]], p[1..], h[1..]);
        }
      }
  }

  lemma {:induction false} PruneAssignUnder(t: Node, p: seq<string>, h: seq<string>, k: string, v: Value)
    requires p != [] && Under(p, h) && AssignAt(t, h, k, v).Some?
    ensures Prune(AssignAt(t, h, k, v).value, p) == Prune(t, p)
    decreases |h|, t
  {
    match t
    case Items(items) =>
      PruneAssignUnder(Last(items), p, h, k, v);
      PruneLast(items, AssignAt(Last(items), h, k, v).value, p);
      assert SetLast(PruneAll(items, p), Prune(Last(items), p)) == PruneAll(items, p);
    case Dict(m, e) =>
      UnderTail(p, h);
      var c := m[h[0]];
      var r := AssignAt(c, h[1..], k, v).value;
      if |p| == 1 {
        AssignNotLeaf(c, h[1..], k, v);
        assert m[h[0] := r] - {h[0]} == m - {h[0]};
      } else {
        PruneAssignUnder(c, p[1..], h[1..], k, v);
        PruneSame(m, e, h[0], p, r);
      }
  }

  lemma {:induction false} AssignNotLeaf(t: Node, h: seq<string>, k: string, v: Value)
    requires AssignAt(t, h, k, v).Some?
    ensures !t.Leaf? && !AssignAt(t, h, k, v).value.Leaf?
  {
  }

  lemma {:induction false} PruneAssignBeside(t: Node, p: seq<string>, h: seq<string>, k: string, v: Value)
    requires p != [] && !Under(p, h) && Declared(t, h) && AssignAt(t, h, k, v).Some?
    ensures AssignAt(Prune(t, p), h, k, v) == Some(Prune(AssignAt(t, h, k, v).value, p))
    decreases |h|, t
  {
    match t
    case Items(items) =>
      PruneAssignBeside(Last(items), p, h, k, v);
      PruneLast(items, AssignAt(Last(items), h, k, v).value, p);
    case Dict(m, e) =>
      if h == [] {
        PruneNewKey(m, e, p, k, v);
      } else {
        UnderTail(p, h);
        var c := m[h[0]];
        var r := AssignAt(c, h[1..], k, v).value;
        if h[0] == p[0] {
          assert |p| > 1;
          PruneAssignBeside(c, p[1..], h[1..], k, v);
          PruneDeclared(c, p[1..], h[1..]);
          AssignDeclared(c, h[1..], k, v);
          PruneDeclared(r, p[1..], h[1..]);
          assert m[h[0] := r][h[0] := Prune(r, p[1..])] == m[h[0] := Prune(r, p[1..])];
          assert m[h[0] := Prune(c, p[1..])][h[0] := Prune(r, p[1..])] == m[h[0] := Prune(r, p[1..])];
        } else {
          PruneOtherKey(m, e, p, h[0], r);
        }
      }
  }

  lemma {:induction false} PruneOtherKey(m: map<string, Node>, e: bool, p: seq<string>, k: string, x: Node)
    requires p != [] && p[0] != k && k in m
    ensures var n := Prune(Dict(m, e), p);
      n.Dict? && k in n.m && n.m[k] == m[k] && Prune(Dict(m[k := x], e), p) == Dict(n.m[k := x], e)
  {
    var l := p[0];
    assert (m - {l})[k := x] == m[k := x] - {l};
    if l in m && |p| > 1 {
      var c := Prune(m[l], p[1..]);
      assert m[l := c][k := x] == m[k := x][l := c];
    }
  }

  lemma {:induction false} PruneNewKey(m: map<string, Node>, e: bool, p: seq<string>, k: string, v: Value)
    requires p != [] && k !in m
    ensures var n := Prune(Dict(m, e), p);
      n.Dict? && k !in n.m && n.explicit == e && Prune(Dict(m[k := Leaf(v)], e), p) == Dict(n.m[k := Leaf(v)], e)
  {
    var l := p[0];
    if l == k {
      assert m[k := Leaf(v)][k := Leaf(v)] == m[k := Leaf(v)];
    } else {
      assert (m - {l})[k := Leaf(v)] == m[k := Leaf(v)] - {l};
      if l in m && |p| > 1 {
        var c := Prune(m[l], p[1..]);
        assert m[l := c][k := Leaf(v)] == m[k := Leaf(v)][l := c];
      }
    }
  }

  // ---------- whole documents ----------

  /** The statements that stay: not the headers under `p`, and not what is assigned below one of them. */
  function Remaining(stmts: seq<Stmt>, p: seq<string>, inside: bool): seq<Stmt> {
    if stmts == [] then []
    else
      var now := if stmts[0].Header? then Under(p, stmts[0].path) else inside;
      (if now then [] else [stmts[0]]) + Remaining(stmts[1..], p, now)
  }

  /**
    Reading what remains gives the pruned tree; in particular it can always be read.
   */
  lemma {:induction false} RemainingBuilds(d: Doc, d': Doc, stmts: seq<Stmt>, p: seq<string>)
    requires p != [] && Build(d, stmts).Some? && d'.root == Prune(d.root, p)
    requires Under(p, d.at) || (d'.at == d.at && Declared(d.root, d.at))
    ensures var r := Build(d', Remaining(stmts, p, Under(p, d.at)));
      r.Some? && r.value.root == Prune(Build(d, stmts).value.root, p)
    decreases |stmts|
  {
    if stmts != [] {
      var s := stmts[0];
      var e := Apply(d, s).value;
      match s
      case Blank => RemainingStep(d', s, stmts, p, Under(p, d.at), d, e);
      case Header(q, ofTables) =>
        DeclareDeclares(d.root, q, ofTables);
        if Under(p, q) {
          PruneDeclareUnder(d.root, p, q, ofTables);
        } else {
          PruneDeclareBeside(d.root, p, q, ofTables);
        }
        RemainingStep(d', s, stmts, p, Under(p, d.at), d, e);
      case Assign(k, v) =>
        if Under(p, d.at) {
          PruneAssignUnder(d.root, p, d.at, k, v);
        } else {
          PruneAssignBeside(d.root, p, d.at, k, v);
          AssignDeclared(d.root, d.at, k, v);
        }
        RemainingStep(d', s, stmts, p, Under(p, d.at), d, e);
    }
  }

  lemma {:induction false} RemainingStep(d': Doc, s: Stmt, stmts: seq<Stmt>, p: seq<string>, inside: bool, d: Doc, e: Doc)
    requires p != [] && stmts != [] && s == stmts[0] && inside == Under(p, d.at) && Apply(d, s) == Some(e)
    requires Build(d, stmts).Some?
    requires var now := if s.Header? then Under(p, s.path) else inside;
      if now then Prune(e.root, p) == d'.root
      else Apply(d', s).Some? && Apply(d', s).value == Doc(Prune(e.root, p), e.at) && Declared(e.root, e.at)
    ensures var r := Build(d', Remaining(stmts, p, inside));
      r.Some? && r.value.root == Prune(Build(d, stmts).value.root, p)
    decreases |stmts|, 0
  {
    var now := if s.Header? then Under(p, s.path) else inside;
    var rest := stmts[1..];
    assert Under(p, e.at) == now;
    if now {
      RemainingBuilds(e, d', rest, p);
      assert [] + Remaining(rest, p, now) == Remaining(rest, p, now);
    } else {
      var f := Apply(d', s).value;
      RemainingBuilds(e, f, rest, p);
      var all := [s] + Remaining(rest, p, now);
      assert all[1..] == Remaining(rest, p, now);
    }
  }

  lemma {:induction false} RemainingTree(stmts: seq<Stmt>, p: seq<string>)
    requires p != [] && Build(START, stmts).Some?
    ensures var r := Build(START, Remaining(stmts, p, false));
      r.Some? && r.value.root == Prune(Build(START, stmts).value.root, p)
  {
    RemainingBuilds(START, START, stmts, p);
  }

  lemma {:induction false} RemainingAppend(a: seq<Stmt>, b: seq<Stmt>, p: seq<string>, inside: bool)
    requires b == [] || b[0].Header?
    ensures Remaining(a + b, p, inside) == Remaining(a, p, inside) + Remaining(b, p, false)
  {
    if a == [] {
      assert a + b == b;
      assert [] + Remaining(b, p, false) == Remaining(b, p, false);
    } else {
      var now := if a[0].Header? then Under(p, a[0].path) else inside;
      assert (a + b)[1..] == a[1..] + b;
      RemainingAppend(a[1..], b, p, now);
      assert (if now then [] else [a[0]]) + (Remaining(a[1..], p, now) + Remaining(b, p, false)) ==
             (if now then [] else [a[0]]) + Remaining(a[1..], p, now) + Remaining(b, p, false);
    }
  }

  lemma {:induction false} RemainingAssigns(a: seq<Stmt>, p: seq<string>, inside: bool)
    requires NoHeaders(a)
    ensures Remaining(a, p, inside) == if inside then [] else a
  {
    if a != [] {
      RemainingAssigns(a[1..], p, inside);
      assert [a[0]] + a[1..] == a;
    }
  }

  // ---------- changing one value ----------

  datatype Seg = Key(k: string) | At(i: nat)

  /** The keys of a location; positions in arrays of tables left out. */
  function Keys(loc: seq<Seg>): seq<string> {
    if loc == [] then [] else (if loc[0].Key? then [loc[0].k] else []) + Keys(loc[1..])
  }

  predicate HasLeaf(t: Node, loc: seq<Seg>)
    decreases |loc|
  {
    match t
    case Leaf(_) => loc == []
    case Items(items) => loc != [] && loc[0].At? && loc[0].i < |items| && HasLeaf(items[loc[0].i], loc[1..])
    case Dict(m, _) => loc != [] && loc[0].Key? && loc[0].k in m && HasLeaf(m[loc[0].k], loc[1..])
  }

  /** `t` with the value at `loc` changed, and nothing else. */
  function SetLeaf(t: Node, loc: seq<Seg>, v: Value): Node
    requires HasLeaf(t, loc)
    decreases |loc|
  {
    match t
    case Leaf(_) => Leaf(v)
    case Items(items) => Items(items[loc[0].i := SetLeaf(items[loc[0].i], loc[1..], v)])
    case Dict(m, e) => Dict(m[loc[0].k := SetLeaf(m[loc[0].k], loc[1..], v)], e)
  }

  function LeafAt(t: Node, loc: seq<Seg>): Value
    requires HasLeaf(t, loc)
    decreases |loc|
  {
    match t
    case Leaf(v) => v
    case Items(items) => LeafAt(items[loc[0].i], loc[1..])
    case Dict(m, _) => LeafAt(m[loc[0].k], loc[1..])
  }

  /** What was set is there. */
  lemma {:induction false} LeafIsSet(t: Node, loc: seq<Seg>, v: Value)
    requires HasLeaf(t, loc)
    ensures HasLeaf(SetLeaf(t, loc, v), loc) && LeafAt(SetLeaf(t, loc, v), loc) == v
    decreases |loc|
  {
    match t
    case Leaf(_) =>
    case Items(items) => LeafIsSet(items[loc[0].i], loc[1..], v);
    case Dict(m, _) => LeafIsSet(m[loc[0].k], loc[1..], v);
  }

  /** Where an assignment below `h` puts its value. */
  function Target(t: Node, h: seq<string>, k: string): seq<Seg>
    decreases |h|, t
  {
    match t
    case Leaf(_) => []
    case Items(items) => if items == [] then [] else [At(|items| - 1)] + Target(Last(items), h, k)
    case Dict(m, _) =>
      if h == [] then [Key(k)] else if h[0] !in m then [] else [Key(h[0])] + Target(m[h[0]], h[1..], k)
  }

  lemma {:induction false} AssignOther(t: Node, h: seq<string>, k: string, v: Value, w: Value)
    requires AssignAt(t, h, k, v).Some?
    ensures var loc := Target(t, h, k); var r := AssignAt(t, h, k, v).value;
      Keys(loc) == h + [k] && HasLeaf(r, loc) && AssignAt(t, h, k, w) == Some(SetLeaf(r, loc, w))
    decreases |h|, t
  {
    var loc := Target(t, h, k);
    match t
    case Items(items) =>
      AssignOther(Last(items), h, k, v, w);
      assert loc[1..] == Target(Last(items), h, k);
      var r, x := AssignAt(Last(items), h, k, v).value, AssignAt(Last(items), h, k, w).value;
      LastOverwritten(items, r, x);
    case Dict(m, e) =>
      if h == [] {
        assert loc[1..] == [] && Keys(loc) == [k] + [] == h + [k];
        assert m[k := Leaf(v)][k := Leaf(w)] == m[k := Leaf(w)];
      } else {
        AssignOther(m[h[0]], h[1..], k, v, w);
        AssignDeeper(t, h, k, v, w);
      }
  }

  lemma {:induction false} AssignDeeper(t: Node, h: seq<string>, k: string, v: Value, w: Value)
    requires t.Dict? && h != [] && AssignAt(t, h, k, v).Some?
    requires var loc := Target(t.m[h[0]], h[1..], k); var r := AssignAt(t.m[h[0]], h[1..], k, v).value;
      Keys(loc) == h[1..] + [k] && HasLeaf(r, loc) && AssignAt(t.m[h[0]], h[1..], k, w) == Some(SetLeaf(r, loc, w))
    ensures var loc := Target(t, h, k); var r := AssignAt(t, h, k, v).value;
      Keys(loc) == h + [k] && HasLeaf(r, loc) && AssignAt(t, h, k, w) == Some(SetLeaf(r, loc, w))
  {
    var m, loc := t.m, Target(t, h, k);
    assert loc[1..] == Target(m[h[0]], h[1..], k);
    assert [h[0]] + (h[1..] + [k]) == h + [k];
    var r := AssignAt(m[h[0]], h[1..], k, v).value;
    var x := AssignAt(m[h[0]], h[1..], k, w).value;
    assert m[h[0] := r][h[0] := x] == m[h[0] := x];
  }

  /** Later headers do not look at values. */
  lemma {:induction false} DeclareKeepsLeaf(t: Node, q: seq<string>, ofTables: bool, loc: seq<Seg>, w: Value)
    requires HasLeaf(t, loc) && Declare(t, q, ofTables).Some?
    ensures var r := Declare(t, q, ofTables).value;
      HasLeaf(r, loc) && Declare(SetLeaf(t, loc, w), q, ofTables) == Some(SetLeaf(r, loc, w))
    decreases |q|, t
  {
    match t
    case Items(items) =>
      var r := Declare(Last(items), q, ofTables).value;
      if loc[0].i == |items| - 1 {
        DeclareKeepsLeaf(Last(items), q, ofTables, loc[1..], w);
        LastOverwritten(items, SetLeaf(Last(items), loc[1..], w), SetLeaf(r, loc[1..], w));
        LastOverwritten(items, r, SetLeaf(r, loc[1..], w));
      } else {
        var x := SetLeaf(items[loc[0].i], loc[1..], w);
        assert SetLast(items, r)[loc[0].i := x] == SetLast(items[loc[0].i := x], r);
      }
    case Dict(m, e) =>
      var l := loc[0].k;
      var x := SetLeaf(m[l], loc[1..], w);
      if l != q[0] {
        var r := Declare(t, q, ofTables).value.m[q[0]];
        assert m[l := x][q[0] := r] == m[q[0] := r][l := x];
      } else if |q| == 1 {
        HereKeepsLeaf(m[l], ofTables, loc[1..], w);
        var r := DeclareHere(Some(m[l]), ofTables).value;
        Overwritten(m, l, x, SetLeaf(r, loc[1..], w));
        Overwritten(m, l, r, SetLeaf(r, loc[1..], w));
      } else {
        DeclareKeepsLeaf(m[l], q[1..], ofTables, loc[1..], w);
        var r := Declare(m[l], q[1..], ofTables).value;
        Overwritten(m, l, x, SetLeaf(r, loc[1..], w));
        Overwritten(m, l, r, SetLeaf(r, loc[1..], w));
      }
  }

  lemma {:induction false} HereKeepsLeaf(t: Node, ofTables: bool, loc: seq<Seg>, w: Value)
    requires HasLeaf(t, loc) && DeclareHere(Some(t), ofTables).Some?
    ensures var r := DeclareHere(Some(t), ofTables).value;
      HasLeaf(r, loc) && DeclareHere(Some(SetLeaf(t, loc, w)), ofTables) == Some(SetLeaf(r, loc, w))
  {
    if t.Items? {
      var x := SetLeaf(t.items[loc[0].i], loc[1..], w);
      assert t.items[loc[0].i := x] + [EMPTY] == (t.items + [EMPTY])[loc[0].i := x];
    }
  }

  lemma {:induction false} AssignKeepsLeaf(t: Node, h: seq<string>, k: string, v: Value, loc: seq<Seg>, w: Value)
    requires HasLeaf(t, loc) && AssignAt(t, h, k, v).Some?
    ensures var r := AssignAt(t, h, k, v).value;
      HasLeaf(r, loc) && AssignAt(SetLeaf(t, loc, w), h, k, v) == Some(SetLeaf(r, loc, w))
    decreases |h|, t
  {
    match t
    case Items(items) =>
      var r := AssignAt(Last(items), h, k, v).value;
      if loc[0].i == |items| - 1 {
        AssignKeepsLeaf(Last(items), h, k, v, loc[1..], w);
        LastOverwritten(items, SetLeaf(Last(items), loc[1..], w), SetLeaf(r, loc[1..], w));
        LastOverwritten(items, r, SetLeaf(r, loc[1..], w));
      } else {
        var x := SetLeaf(items[loc[0].i], loc[1..], w);
        assert SetLast(items, r)[loc[0].i := x] == SetLast(items[loc[0].i := x], r);
      }
    case Dict(m, e) =>
      var l := loc[0].k;
      var x := SetLeaf(m[l], loc[1..], w);
      if h == [] {
        assert m[l := x][k := Leaf(v)] == m[k := Leaf(v)][l := x];
      } else if l != h[0] {
        var r := AssignAt(m[h[0]], h[1..], k, v).value;
        assert m[l := x][h[0] := r] == m[h[0] := r][l := x];
      } else {
        AssignKeepsLeaf(m[l], h[1..], k, v, loc[1..], w);
        var r := AssignAt(m[l], h[1..], k, v).value;
        Overwritten(m, l, x, SetLeaf(r, loc[1..], w));
        Overwritten(m, l, r, SetLeaf(r, loc[1..], w));
      }
  }

  /** Reading on after a changed value arrives at the same tree with that value changed. */
  lemma {:induction false} BuildKeepsLeaf(d: Doc, stmts: seq<Stmt>, loc: seq<Seg>, w: Value)
    requires HasLeaf(d.root, loc) && Build(d, stmts).Some?
    ensures var r := Build(d, stmts).value;
      HasLeaf(r.root, loc) && Build(Doc(SetLeaf(d.root, loc, w), d.at), stmts) == Some(Doc(SetLeaf(r.root, loc, w), r.at))
    decreases |stmts|
  {
    if stmts != [] {
      var s := stmts[0];
      if s.Header? {
        DeclareKeepsLeaf(d.root, s.path, s.ofTables, loc, w);
      } else if s.Assign? {
        AssignKeepsLeaf(d.root, d.at, s.key, s.value, loc, w);
      }
      BuildKeepsLeaf(Apply(d, s).value, stmts[1..], loc, w);
    }
  }

  /** Two documents that differ in the value of one assignment differ in the value at one place. */
  lemma {:induction false} OneValueChanged(a: seq<Stmt>, k: string, v: Value, w: Value, b: seq<Stmt>) returns (loc: seq<Seg>)
    requires Build(START, a + [Assign(k, v)] + b).Some?
    ensures var t := Build(START, a + [Assign(k, v)] + b).value.root; var d := Build(START, a);
      d.Some? && Keys(loc) == d.value.at + [k] && HasLeaf(t, loc) && LeafAt(t, loc) == v &&
      Build(START, a + [Assign(k, w)] + b).Some? && Build(START, a + [Assign(k, w)] + b).value.root == SetLeaf(t, loc, w)
  {
    BuildAppend(START, a + [Assign(k, v)], b);
    BuildAppend(START, a, [Assign(k, v)]);
    BuildAppend(START, a + [Assign(k, w)], b);
    BuildAppend(START, a, [Assign(k, w)]);
    var d := Build(START, a).value;
    loc := Target(d.root, d.at, k);
    AssignOther(d.root, d.at, k, v, w);
    OneAssign(d, k, v);
    OneAssign(d, k, w);
    var e := Apply(d, Assign(k, v)).value;
    BuildKeepsLeaf(e, b, loc, w);
    AssignOther(d.root, d.at, k, v, v);
    BuildKeepsLeaf(e, b, loc, v);
    LeafIsSet(Build(e, b).value.root, loc, v);
  }

  lemma {:induction false} OneAssign(d: Doc, k: string, v: Value)
    ensures Build(d, [Assign(k, v)]) == Apply(d, Assign(k, v))
  {
    var r := Apply(d, Assign(k, v));
    assert r.Some? ==> Build(r.value, [Assign(k, v)][1..]) == r;
  }
}
