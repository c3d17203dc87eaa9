/** Placing a subtree in a parsed tree, and how headers and assignments act below the place. */
module TomlTree {
  import opened Wrappers
  import opened TomlLexer
  import opened TomlSyntax

  /** `t` with `n` at `path`; a path that meets an array of tables goes on in its last item. */
  function Put(t: Node, path: seq<string>, n: Node): Node
    decreases |path|, t
  {
    if path == [] then n
    else match t
      case Leaf(_) => t
      case Items(items) => if items == [] then t else Items(SetLast(items, Put(Last(items), path, n)))
      case Dict(m, e) => Dict(m[path[0] := Put(Child(m, path[0]), path[1..], n)], e)
  }

  /** The path can be walked: it meets no value and no empty array. */
  predicate Open(t: Node, path: seq<string>)
    decreases |path|, t
  {
    path == [] || match t
      case Leaf(_) => false
      case Items(items) => items != [] && Open(Last(items), path)
      case Dict(m, e) => Open(Child(m, path[0]), path[1..])
  }

  lemma {:induction false} Overwritten(m: map<string, Node>, k: string, x: Node, y: Node)
    ensures Child(m[k := x], k) == x && m[k := x][k := y] == m[k := y]
  {
  }

  lemma {:induction false} LastOverwritten(items: seq<Node>, x: Node, y: Node)
    requires items != []
    ensures SetLast(items, x) != [] && Last(SetLast(items, x)) == x && SetLast(SetLast(items, x), y) == SetLast(items, y)
  {
  }

  lemma {:induction false} PutPut(t: Node, p: seq<string>, q: seq<string>, y: Node, z: Node)
    requires Open(t, p)
    ensures Put(Put(t, p, y), p + q, z) == Put(t, p, Put(y, q, z))
    decreases |p|, t
  {
    if p == [] {
      assert p + q == q;
    } else {
      assert (p + q)[0] == p[0] && (p + q)[1..] == p[1..] + q;
      match t
      case Items(items) =>
        var x := Put(Last(items), p, y);
        PutPut(Last(items), p, q, y, z);
        LastOverwritten(items, x, Put(x, p + q, z));
      case Dict(m, _) =>
        var x := Put(Child(m, p[0]), p[1..], y);
        PutPut(Child(m, p[0]), p[1..], q, y, z);
        Overwritten(m, p[0], x, Put(x, p[1..] + q, z));
    }
  }

  lemma {:induction false} OpenPut(t: Node, p: seq<string>, q: seq<string>, y: Node)
    requires Open(t, p) && Open(y, q)
    ensures Open(Put(t, p, y), p + q)
    decreases |p|, t
  {
    if p == [] {
      assert p + q == q;
    } else {
      assert (p + q)[0] == p[0] && (p + q)[1..] == p[1..] + q;
      match t
      case Items(items) => OpenPut(Last(items), p, q, y);
      case Dict(m, _) => OpenPut(Child(m, p[0]), p[1..], q, y);
    }
  }

  function Lift(t: Node, p: seq<string>, r: Option<Node>): Option<Node> {
    if r.None? then None else Some(Put(t, p, r.value))
  }

  /** A header below the place acts on what is in the place, and on nothing else. */
  lemma {:induction false} DeclareBelow(t: Node, p: seq<string>, q: seq<string>, y: Node, ofTables: bool)
    requires Open(t, p) && q != []
    ensures Declare(Put(t, p, y), p + q, ofTables) == Lift(t, p, Declare(y, q, ofTables))
    decreases |p|, t
  {
    if p == [] {
      assert p + q == q;
    } else {
      assert (p + q)[0] == p[0] && (p + q)[1..] == p[1..] + q;
      match t
      case Items(items) =>
        var x := Put(Last(items), p, y);
        DeclareBelow(Last(items), p, q, y, ofTables);
        var r := Declare(x, p + q, ofTables);
        LastOverwritten(items, x, if r.Some? then r.value else x);
      case Dict(m, _) =>
        var x := Put(Child(m, p[0]), p[1..], y);
        DeclareBelow(Child(m, p[0]), p[1..], q, y, ofTables);
        var r := Declare(x, p[1..] + q, ofTables);
        Overwritten(m, p[0], x, if r.Some? then r.value else x);
    }
  }

  /** So does an assignment. */
  lemma {:induction false} AssignBelow(t: Node, p: seq<string>, q: seq<string>, y: Node, k: string, v: Value)
    requires Open(t, p)
    ensures AssignAt(Put(t, p, y), p + q, k, v) == Lift(t, p, AssignAt(y, q, k, v))
    decreases |p|, t
  {
    if p == [] {
      assert p + q == q;
    } else {
      assert (p + q)[0] == p[0] && (p + q)[1..] == p[1..] + q;
      match t
      case Items(items) =>
        var x := Put(Last(items), p, y);
        AssignBelow(Last(items), p, q, y, k, v);
        var r := AssignAt(x, p + q, k, v);
        LastOverwritten(items, x, if r.Some? then r.value else x);
      case Dict(m, _) =>
        var x := Put(Child(m, p[0]), p[1..], y);
        AssignBelow(Child(m, p[0]), p[1..], q, y, k, v);
        var r := AssignAt(x, p[1..] + q, k, v);
        Overwritten(m, p[0], x, if r.Some? then r.value else x);
    }
  }

  /** Whether a table header may still name `path`, and what longer headers have already put there. */
  function Vacant(t: Node, path: seq<string>): Option<map<string, Node>>
    decreases |path|, t
  {
    match t
    case Leaf(_) => None
    case Items(items) => if items == [] then None else Vacant(Last(items), path)
    case Dict(m, e) =>
      if path == [] then None
      else if |path| > 1 then Vacant(Child(m, path[0]), path[1..])
      else if path[0] !in m then Some(map[])
      else if m[path[0]].Dict? && !m[path[0]].explicit then Some(m[path[0]].m)
      else None
  }

  lemma {:induction false} DeclareVacant(t: Node, path: seq<string>)
    ensures Vacant(t, path).None? ==> Declare(t, path, false).None?
    ensures Vacant(t, path).Some? ==>
      path != [] && Open(t, path) && Declare(t, path, false) == Some(Put(t, path, Dict(Vacant(t, path).value, true)))
    decreases |path|, t
  {
    match t
    case Leaf(_) =>
    case Items(items) =>
      if items != [] {
        DeclareVacant(Last(items), path);
      }
    case Dict(m, _) =>
      if |path| > 1 {
        DeclareVacant(Child(m, path[0]), path[1..]);
      } else if |path| == 1 {
        assert path[1..] == [];
      }
  }
}
