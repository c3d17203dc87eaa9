/**
  Changing several files together: the reference participant of the Provider merge, and the apply and rollback of the
  v1 to v2 migration.

  A raised write of a reference file leaves that file alone; a raised write of the config file may come before or after
  its replace.
 */
module MultiFile {
  import opened Wrappers
  import opened Transaction

  type Path = string
  type Content = map<Path, Bytes>

  /** One file and what is to become of it. */
  datatype Target = Target(path: Path, before: Bytes, after: Bytes)

  predicate Distinct(ts: seq<Target>) {
    forall i, j :: 0 <= i < j < |ts| ==> ts[i].path != ts[j].path
  }

  /** Every target holds its old bytes. */
  predicate At(f: Content, ts: seq<Target>) {
    forall i :: 0 <= i < |ts| ==> ts[i].path in f && f[ts[i].path] == ts[i].before
  }

  /** The new bytes written to every target. */
  function PutAll(f: Content, ts: seq<Target>): Content {
    if ts == [] then f else PutAll(f, Front(ts))[Last(ts).path := Last(ts).after]
  }

  /** The old bytes written back, the last target first. */
  function PutBack(f: Content, ts: seq<Target>): Content
    decreases |ts|
  {
    if ts == [] then f else PutBack(f[Last(ts).path := Last(ts).before], Front(ts))
  }

  function Swap(ts: seq<Target>): (r: seq<Target>)
    ensures |r| == |ts|
    ensures forall i :: 0 <= i < |ts| ==> r[i] == Target(ts[i].path, ts[i].after, ts[i].before)
  {
    if ts == [] then [] else Swap(Front(ts)) + [Target(Last(ts).path, Last(ts).after, Last(ts).before)]
  }

  lemma {:induction false} PutAllElsewhere(f: Content, ts: seq<Target>, p: Path)
    requires forall i :: 0 <= i < |ts| ==> ts[i].path != p
    ensures (p in PutAll(f, ts) <==> p in f) && (p in f ==> PutAll(f, ts)[p] == f[p])
  {
    if ts != [] {
      PutAllElsewhere(f, Front(ts), p);
    }
  }

  lemma {:induction false} PutAllAt(f: Content, ts: seq<Target>, i: nat)
    requires Distinct(ts) && i < |ts|
    ensures ts[i].path in PutAll(f, ts) && PutAll(f, ts)[ts[i].path] == ts[i].after
  {
    if i < |ts| - 1 {
      PutAllAt(f, Front(ts), i);
    }
  }

  /** Writing everything back, in the opposite order, undoes writing it. */
  lemma {:induction false} PutBackUndoes(f: Content, ts: seq<Target>)
    requires Distinct(ts) && At(f, ts)
    ensures PutBack(PutAll(f, ts), ts) == f
  {
    if ts != [] {
      var t := Last(ts);
      var g := PutAll(f, Front(ts));
      PutAllElsewhere(f, Front(ts), t.path);
      assert ts[|ts| - 1] == t;
      assert g[t.path := t.after][t.path := t.before] == g;
      PutBackUndoes(f, Front(ts));
    }
  }

  /** What was written can be written over again. */
  lemma {:induction false} SwapUndoes(f: Content, ts: seq<Target>)
    requires Distinct(ts) && At(f, ts)
    ensures At(PutAll(f, ts), Swap(ts)) && Distinct(Swap(ts))
    ensures PutAll(PutAll(f, ts), Swap(ts)) == f
  {
    forall i | 0 <= i < |ts| ensures ts[i].path in PutAll(f, ts) && PutAll(f, ts)[ts[i].path] == ts[i].after {
      PutAllAt(f, ts, i);
    }
    Overwrites(f, PutAll(f, ts), ts);
  }

  lemma {:induction false} Overwrites(f: Content, g: Content, ts: seq<Target>)
    requires Distinct(ts) && At(f, ts) && g == PutAll(f, ts)
    ensures PutAll(g, Swap(ts)) == f
  {
    var h := PutAll(g, Swap(ts));
    forall p: Path ensures (p in h <==> p in f) && (p in f ==> h[p] == f[p]) {
      if exists i :: 0 <= i < |ts| && ts[i].path == p {
        var i :| 0 <= i < |ts| && ts[i].path == p;
        PutAllAt(g, Swap(ts), i);
      } else {
        PutAllElsewhere(f, ts, p);
        PutAllElsewhere(g, Swap(ts), p);
      }
    }
  }

  // ---------- files ----------

  /** The write at time `t` raises behind its replace. */
  predicate Late(oracle: nat -> Fault, t: nat) {
    oracle(t).raises && oracle(t).takesEffect
  }

  class Files {
    const oracle: nat -> Fault
    var clock: nat
    var content: Content

    constructor (oracle: nat -> Fault, content: Content)
      ensures this.content == content && this.oracle == oracle
    {
      this.oracle := oracle;
      this.clock := 0;
      this.content := content;
    }

    /** `_strict_atomic_write` on a reference file */
    method Write(path: Path, payload: Bytes) returns (raised: bool)
      modifies this
      ensures raised == oracle(old(clock)).raises && clock == old(clock) + 1
      ensures content == if raised then old(content) else old(content)[path := payload]
    {
      raised := oracle(clock).raises;
      clock := clock + 1;
      if !raised {
        content := content[path := payload];
      }
    }

    /** `_strict_atomic_write` on the config file, which may raise behind its replace. */
    method WriteConfigFile(path: Path, payload: Bytes) returns (raised: bool)
      modifies this
      ensures raised == oracle(old(clock)).raises && clock == old(clock) + 1
      ensures content == if raised && !Late(oracle, old(clock)) then old(content) else old(content)[path := payload]
    {
      var fault := oracle(clock);
      raised := fault.raises;
      clock := clock + 1;
      if !raised || fault.takesEffect {
        content := content[path := payload];
      }
    }

    method Read(path: Path) returns (raised: bool, bytes: Bytes)
      modifies this`clock
      ensures raised <==> oracle(old(clock)).raises || path !in content
      ensures !raised ==> bytes == content[path]
      ensures clock == old(clock) + 1
    {
      raised := oracle(clock).raises || path !in content;
      bytes := if path in content then content[path] else [];
      clock := clock + 1;
    }

    /** Any other call that may fail: validating, reloading, scanning, writing a manifest. */
    method Other() returns (raised: bool)
      modifies this`clock
      ensures raised == oracle(old(clock)).raises && clock == old(clock) + 1
    {
      raised := oracle(clock).raises;
      clock := clock + 1;
    }
  }

  // ---------- what the participants' calls do ----------

  /** The reference files, the participant's list and the time, between two calls. */
  datatype RefState = RefState(content: Content, written: seq<Target>, clock: nat)

  datatype Played = Played(state: RefState, raised: bool)

  /** Looking at files, one after the other, from time `t` on: whether it ends early, and when. */
  function Looked(faults: nat -> Fault, f: Content, ts: seq<Target>, t: nat): (bool, nat)
    decreases |ts|
  {
    if ts == [] then (false, t)
    else if faults(t).raises || ts[0].path !in f || f[ts[0].path] != ts[0].before then (true, t + 1)
    else Looked(faults, f, ts[1..], t + 1)
  }

  /** Writing files, one after the other, up to a write that raises. */
  function Wrote(faults: nat -> Fault, s: RefState, ts: seq<Target>): Played
    decreases |ts|
  {
    if ts == [] then Played(s, false)
    else if faults(s.clock).raises then Played(s.(clock := s.clock + 1), true)
    else Wrote(faults, RefState(s.content[ts[0].path := ts[0].after], s.written + [ts[0]], s.clock + 1), ts[1..])
  }

  /** Writing them, each looked at just before. */
  function WroteLooking(faults: nat -> Fault, s: RefState, ts: seq<Target>): Played
    decreases |ts|
  {
    if ts == [] then Played(s, false)
    else if faults(s.clock).raises || ts[0].path !in s.content || s.content[ts[0].path] != ts[0].before then
      Played(s.(clock := s.clock + 1), true)
    else if faults(s.clock + 1).raises then Played(s.(clock := s.clock + 2), true)
    else WroteLooking(faults, RefState(s.content[ts[0].path := ts[0].after], s.written + [ts[0]], s.clock + 2), ts[1..])
  }

  /** How many of `n` files written back, the last first, a write that raises leaves. */
  function Unreached(faults: nat -> Fault, n: nat, t: nat): (left: nat)
    ensures left <= n
  {
    if n == 0 then 0 else if faults(t).raises then n else Unreached(faults, n - 1, t + 1)
  }

  /** Some are left exactly when one of the writes raises. */
  lemma {:induction false} UnreachedExactly(faults: nat -> Fault, n: nat, t: nat)
    ensures Unreached(faults, n, t) == 0 <==> forall k :: t <= k < t + n ==> !faults(k).raises
  {
    if n > 0 && !faults(t).raises {
      UnreachedExactly(faults, n - 1, t + 1);
    }
  }

  /** The time behind writing `n` files back. */
  function BackAt(faults: nat -> Fault, n: nat, t: nat): nat {
    var left := Unreached(faults, n, t);
    t + (n - left) + (if left > 0 then 1 else 0)
  }

  function PlayApply(faults: nat -> Fault, plan: seq<Target>, s: RefState): Played {
    var (bad, t) := Looked(faults, s.content, plan, s.clock);
    if bad then Played(s.(clock := t), true) else Wrote(faults, s.(clock := t), plan)
  }

  function PlayVerify(faults: nat -> Fault, plan: seq<Target>, s: RefState): Played {
    var (bad, t) := Looked(faults, s.content, Swap(plan), s.clock);
    Played(s.(clock := t), bad)
  }

  function PlayRollback(faults: nat -> Fault, s: RefState): Played {
    var left := Unreached(faults, |s.written|, s.clock);
    Played(RefState(PutBack(s.content, s.written[left..]), s.written, BackAt(faults, |s.written|, s.clock)), left > 0)
  }

  // ---------- the reference participants ----------

  /** What `apply` does: it writes a prefix of the plan, the whole of it exactly when it does not raise. */
  ghost predicate ApplyLaw(plan: seq<Target>, f: Content, g: Content, written: seq<Target>, raised: bool) {
    && |written| <= |plan| && written == plan[..|written|] && g == PutAll(f, written) && At(f, written)
    && (raised <==> written != plan)
  }

  ghost predicate VerifyLaw(plan: seq<Target>, f: Content, g: Content, raised: bool) {
    g == f && (!raised ==> At(f, Swap(plan)))
  }

  /** What `rollback` does: it puts files back, the last written first, up to the write that raises. */
  ghost predicate RollbackLaw(f: Content, g: Content, written: seq<Target>, raised: bool) {
    exists left: nat :: PutBackTo(f, g, written, raised, left)
  }

  /** The first `left` of the written files are not put back. */
  ghost predicate PutBackTo(f: Content, g: Content, written: seq<Target>, raised: bool, left: nat) {
    left <= |written| && (raised <==> left > 0) && g == PutBack(f, written[left..])
  }

  // ---------- the laws of those calls ----------

  lemma {:induction false} AtMore(f: Content, ts: seq<Target>, i: nat)
    requires i < |ts| && At(f, ts[..i]) && ts[i].path in f && f[ts[i].path] == ts[i].before
    ensures At(f, ts[..i + 1])
  {
    forall j | 0 <= j < i + 1 ensures ts[j].path in f && f[ts[j].path] == ts[j].before {
      assert j < i ==> ts[..i][j] == ts[j];
    }
  }

  lemma {:induction false} Rest(ts: seq<Target>, i: nat)
    requires i < |ts|
    ensures ts[i..] != [] && ts[i..][0] == ts[i] && ts[i..][1..] == ts[i + 1..] && ts[..i + 1] == ts[..i] + [ts[i]]
  {
  }

  lemma {:induction false} LookedAt(faults: nat -> Fault, f: Content, ts: seq<Target>, i: nat, t: nat)
    requires i <= |ts| && At(f, ts[..i]) && !Looked(faults, f, ts[i..], t).0
    ensures At(f, ts)
    decreases |ts| - i
  {
    if i == |ts| {
      assert ts[..i] == ts;
    } else {
      Rest(ts, i);
      AtMore(f, ts, i);
      LookedAt(faults, f, ts, i + 1, t + 1);
    }
  }

  /** In the middle of writing: the first files of the plan are written. */
  predicate Writing(plan: seq<Target>, f: Content, s: RefState, i: nat) {
    i <= |plan| && s.written == plan[..i] && s.content == PutAll(f, plan[..i]) && At(f, plan[..i])
  }

  lemma {:induction false} WritingMore(plan: seq<Target>, f: Content, s: RefState, i: nat, clock: nat)
    requires Writing(plan, f, s, i) && i < |plan| && plan[i].path in f && f[plan[i].path] == plan[i].before
    ensures Writing(plan, f, RefState(s.content[plan[i].path := plan[i].after], s.written + [plan[i]], clock), i + 1)
  {
    Rest(plan, i);
    AtMore(f, plan, i);
    Snoc(plan[..i], plan[i]);
  }

  lemma {:induction false} WritingLaw(plan: seq<Target>, f: Content, s: RefState, i: nat, raised: bool)
    requires Writing(plan, f, s, i) && (raised <==> i < |plan|)
    ensures ApplyLaw(plan, f, s.content, s.written, raised)
  {
    assert i == |plan| ==> plan[..i] == plan;
  }

  lemma {:induction false} WroteLaw(faults: nat -> Fault, plan: seq<Target>, f: Content, s: RefState, i: nat)
    requires Writing(plan, f, s, i) && At(f, plan)
    ensures var r := Wrote(faults, s, plan[i..]); ApplyLaw(plan, f, r.state.content, r.state.written, r.raised)
    decreases |plan| - i
  {
    if i == |plan| {
      WritingLaw(plan, f, s, i, false);
    } else {
      Rest(plan, i);
      if faults(s.clock).raises {
        WritingLaw(plan, f, s.(clock := s.clock + 1), i, true);
      } else {
        WritingMore(plan, f, s, i, s.clock + 1);
        WroteLaw(faults, plan, f, RefState(s.content[plan[i].path := plan[i].after], s.written + [plan[i]], s.clock + 1), i + 1);
      }
    }
  }

  lemma {:induction false} WroteLookingLaw(faults: nat -> Fault, plan: seq<Target>, f: Content, s: RefState, i: nat)
    requires Writing(plan, f, s, i) && Distinct(plan)
    ensures var r := WroteLooking(faults, s, plan[i..]); ApplyLaw(plan, f, r.state.content, r.state.written, r.raised)
    decreases |plan| - i
  {
    if i == |plan| {
      WritingLaw(plan, f, s, i, false);
    } else {
      Rest(plan, i);
      PutAllElsewhere(f, plan[..i], plan[i].path);
      if faults(s.clock).raises || plan[i].path !in s.content || s.content[plan[i].path] != plan[i].before {
        WritingLaw(plan, f, s.(clock := s.clock + 1), i, true);
      } else if faults(s.clock + 1).raises {
        WritingLaw(plan, f, s.(clock := s.clock + 2), i, true);
      } else {
        WritingMore(plan, f, s, i, s.clock + 2);
        WroteLookingLaw(faults, plan, f, RefState(s.content[plan[i].path := plan[i].after], s.written + [plan[i]], s.clock + 2), i + 1);
      }
    }
  }

  lemma {:induction false} PlayApplyLaw(faults: nat -> Fault, plan: seq<Target>, s: RefState)
    requires s.written == []
    ensures var r := PlayApply(faults, plan, s); ApplyLaw(plan, s.content, r.state.content, r.state.written, r.raised)
  {
    var (bad, t) := Looked(faults, s.content, plan, s.clock);
    assert plan[0..] == plan;
    if bad {
      WritingLaw(plan, s.content, s.(clock := t), 0, true);
    } else {
      LookedAt(faults, s.content, plan, 0, s.clock);
      WroteLaw(faults, plan, s.content, s.(clock := t), 0);
    }
  }

  lemma {:induction false} PlayLookingLaw(faults: nat -> Fault, plan: seq<Target>, s: RefState)
    requires s.written == [] && Distinct(plan)
    ensures var r := WroteLooking(faults, s, plan); ApplyLaw(plan, s.content, r.state.content, r.state.written, r.raised)
  {
    assert plan[0..] == plan;
    WroteLookingLaw(faults, plan, s.content, s, 0);
  }

  lemma {:induction false} PlayVerifyLaw(faults: nat -> Fault, plan: seq<Target>, s: RefState)
    ensures var r := PlayVerify(faults, plan, s); VerifyLaw(plan, s.content, r.state.content, r.raised)
  {
    var ts := Swap(plan);
    assert ts[0..] == ts;
    if !Looked(faults, s.content, ts, s.clock).0 {
      LookedAt(faults, s.content, ts, 0, s.clock);
    }
  }

  lemma {:induction false} PlayRollbackLaw(faults: nat -> Fault, s: RefState)
    ensures var r := PlayRollback(faults, s); RollbackLaw(s.content, r.state.content, s.written, r.raised)
  {
    var left := Unreached(faults, |s.written|, s.clock);
    var r := PlayRollback(faults, s);
    assert PutBackTo(s.content, r.state.content, s.written, r.raised, left);
  }

  class ReferenceParticipant {
    const plan: seq<Target>
    var written: seq<Target>

    constructor (plan: seq<Target>)
      ensures this.plan == plan && written == []
    {
      this.plan := plan;
      this.written := [];
    }

    /** The first loop of the merge's `apply`: no file has drifted. */
    method CheckDrift(files: Files) returns (raised: bool)
      modifies files`clock
      ensures (raised, files.clock) == Looked(files.oracle, files.content, plan, old(files.clock))
    {
      raised := false;
      for i := 0 to |plan|
        invariant files.content == old(files.content)
        invariant Looked(files.oracle, files.content, plan[i..], files.clock) ==
                  Looked(files.oracle, files.content, plan, old(files.clock))
      {
        Rest(plan, i);
        var failed, bytes := files.Read(plan[i].path);
        if failed || bytes != plan[i].before {
          return true;
        }
      }
    }

    /** The second loop: one file after the other is written. */
    method WriteFiles(files: Files) returns (raised: bool)
      requires written == []
      modifies this, files
      ensures Played(RefState(files.content, written, files.clock), raised) ==
              Wrote(files.oracle, RefState(old(files.content), [], old(files.clock)), plan)
    {
      raised := false;
      ghost var s := RefState(files.content, [], files.clock);
      for i := 0 to |plan|
        invariant Wrote(files.oracle, RefState(files.content, written, files.clock), plan[i..]) == Wrote(files.oracle, s, plan)
      {
        Rest(plan, i);
        raised := files.Write(plan[i].path, plan[i].after);
        if raised {
          return;
        }
        written := written + [plan[i]];
      }
    }

    /** The merge's `apply`: every file is looked at before the first is written. */
    method Apply(files: Files) returns (raised: bool)
      requires written == []
      modifies this, files
      ensures Played(RefState(files.content, written, files.clock), raised) ==
              PlayApply(files.oracle, plan, RefState(old(files.content), [], old(files.clock)))
      ensures ApplyLaw(plan, old(files.content), files.content, written, raised)
    {
      PlayApplyLaw(files.oracle, plan, RefState(files.content, [], files.clock));
      raised := CheckDrift(files);
      if !raised {
        raised := WriteFiles(files);
      }
    }

    /** One file looked at and written. */
    method WriteChecking(files: Files, target: Target) returns (raised: bool)
      modifies this, files
      ensures var s, t := RefState(old(files.content), old(written), old(files.clock)), RefState(files.content, written, files.clock);
        forall more :: WroteLooking(files.oracle, s, [target] + more) ==
                       if raised then Played(t, true) else WroteLooking(files.oracle, t, more)
    {
      ghost var s := RefState(files.content, written, files.clock);
      var failed, bytes := files.Read(target.path);
      raised := failed || bytes != target.before;
      if !raised {
        raised := files.Write(target.path, target.after);
      }
      if !raised {
        written := written + [target];
      }
      forall more ensures WroteLooking(files.oracle, s, [target] + more) ==
        (var t := RefState(files.content, written, files.clock);
         if raised then Played(t, true) else WroteLooking(files.oracle, t, more))
      {
        assert ([target] + more)[1..] == more;
      }
    }

    /** The merge rollback's `apply`: every file is looked at just before it is written. */
    method ApplyChecking(files: Files) returns (raised: bool)
      requires Distinct(plan) && written == []
      modifies this, files
      ensures Played(RefState(files.content, written, files.clock), raised) ==
              WroteLooking(files.oracle, RefState(old(files.content), [], old(files.clock)), plan)
      ensures ApplyLaw(plan, old(files.content), files.content, written, raised)
    {
      PlayLookingLaw(files.oracle, plan, RefState(files.content, [], files.clock));
      raised := false;
      ghost var s := RefState(files.content, [], files.clock);
      for i := 0 to |plan|
        invariant WroteLooking(files.oracle, RefState(files.content, written, files.clock), plan[i..]) ==
                  WroteLooking(files.oracle, s, plan)
      {
        assert plan[i..] == [plan[i]] + plan[i + 1..];
        raised := WriteChecking(files, plan[i]);
        if raised {
          return;
        }
      }
    }

    method Verify(files: Files) returns (raised: bool)
      modifies files`clock
      ensures Played(RefState(files.content, written, files.clock), raised) ==
              PlayVerify(files.oracle, plan, RefState(old(files.content), written, old(files.clock)))
      ensures VerifyLaw(plan, old(files.content), files.content, raised)
    {
      PlayVerifyLaw(files.oracle, plan, RefState(files.content, written, files.clock));
      raised := false;
      for i := 0 to |plan|
        invariant files.content == old(files.content)
        invariant Looked(files.oracle, files.content, Swap(plan)[i..], files.clock) ==
                  Looked(files.oracle, files.content, Swap(plan), old(files.clock))
      {
        Rest(Swap(plan), i);
        var failed, bytes := files.Read(plan[i].path);
        if failed || bytes != plan[i].after {
          return true;
        }
      }
    }

    method Rollback(files: Files) returns (raised: bool)
      modifies files
      ensures Played(RefState(files.content, written, files.clock), raised) ==
              PlayRollback(files.oracle, RefState(old(files.content), written, old(files.clock)))
      ensures RollbackLaw(old(files.content), files.content, written, raised)
    {
      PlayRollbackLaw(files.oracle, RefState(files.content, written, files.clock));
      ghost var left;
      raised, left := WriteBack(files, written);
    }
  }

  /** Write the old bytes back, the last target first; a write that raises ends it. */
  method WriteBack(files: Files, written: seq<Target>) returns (raised: bool, ghost left: nat)
    modifies files
    ensures PutBackTo(old(files.content), files.content, written, raised, left)
    ensures left == Unreached(files.oracle, |written|, old(files.clock))
    ensures files.clock == BackAt(files.oracle, |written|, old(files.clock))
    ensures !raised ==> files.content == PutBack(old(files.content), written)
    ensures written == [] ==> !raised
  {
    raised := false;
    var i := |written|;
    left := i;
    ghost var f := files.content;
    while i > 0
      invariant 0 <= i <= |written| && left == i && files.content == PutBack(f, written[i..])
      invariant files.clock == old(files.clock) + (|written| - i)
      invariant Unreached(files.oracle, i, files.clock) == Unreached(files.oracle, |written|, old(files.clock))
    {
      i := i - 1;
      raised := files.Write(written[i].path, written[i].before);
      if raised {
        return;
      }
      PutBackMore(f, written[i], written[i + 1..]);
      assert written[i..] == [written[i]] + written[i + 1..];
      left := i;
    }
    assert written[0..] == written;
  }

  lemma {:induction false} PutBackMore(f: Content, t: Target, ts: seq<Target>)
    ensures PutBack(f, [t] + ts) == PutBack(f, ts)[t.path := t.before]
    decreases |ts|
  {
    if ts == [] {
      assert [t] + ts == [t] && Front([t]) == [];
    } else {
      assert Last([t] + ts) == Last(ts) && Front([t] + ts) == [t] + Front(ts);
      PutBackMore(f[Last(ts).path := Last(ts).before], t, Front(ts));
    }
  }

  /** Writing back all but the first `left` leaves what writing those alone would have left. */
  lemma {:induction false} PutBackPart(f: Content, ts: seq<Target>, left: nat)
    requires Distinct(ts) && At(f, ts) && left <= |ts|
    ensures PutBack(PutAll(f, ts), ts[left..]) == PutAll(f, ts[..left])
    decreases |ts|
  {
    if left == |ts| {
      assert ts[left..] == [] && ts[..left] == ts;
    } else {
      var t, rest := Last(ts), Front(ts);
      PutAllElsewhere(f, rest, t.path);
      assert PutAll(f, ts)[t.path := t.before] == PutAll(f, rest);
      assert Last(ts[left..]) == t && Front(ts[left..]) == rest[left..] && rest[..left] == ts[..left];
      PutBackPart(f, rest, left);
    }
  }

  /** The targets hold the same bytes before and after. */
  predicate Changeless(ts: seq<Target>) {
    forall i :: 0 <= i < |ts| ==> ts[i].before == ts[i].after
  }

  lemma {:induction false} PutAllChanges(f: Content, ts: seq<Target>)
    requires Distinct(ts) && At(f, ts)
    ensures PutAll(f, ts) == f <==> Changeless(ts)
  {
    if Changeless(ts) {
      SamePutAll(f, ts);
    } else {
      var i :| 0 <= i < |ts| && ts[i].before != ts[i].after;
      PutAllAt(f, ts, i);
    }
  }

  lemma {:induction false} SamePutAll(f: Content, ts: seq<Target>)
    requires At(f, ts) && Changeless(ts)
    ensures PutAll(f, ts) == f
    decreases |ts|
  {
    if ts != [] {
      SamePutAll(f, Front(ts));
    }
  }

  // ---------- the merge: one participant inside the config transaction ----------

  /** What a call of the transaction does to them. */
  ghost predicate RefStep(plan: seq<Target>, c: Call, s: RefState, t: RefState) {
    match c.op
    case Apply(_) => s.written == [] ==> ApplyLaw(plan, s.content, t.content, t.written, c.raised)
    case Verify(_) => VerifyLaw(plan, s.content, t.content, c.raised) && t.written == s.written
    case Rollback(_) => RollbackLaw(s.content, t.content, s.written, c.raised)
    case _ => t == s
  }

  /** `states[p]` is the state in front of call `p`. */
  ghost predicate Follows(plan: seq<Target>, calls: seq<Call>, states: seq<RefState>) {
    |states| == |calls| + 1 && forall p :: 0 <= p < |calls| ==> RefStep(plan, calls[p], states[p], states[p + 1])
  }

  lemma {:induction false} Idle(plan: seq<Target>, calls: seq<Call>, states: seq<RefState>, a: nat, b: nat)
    requires Follows(plan, calls, states) && a <= b <= |calls|
    requires forall p :: a <= p < b ==> !calls[p].op.Apply? && !calls[p].op.Rollback?
    ensures states[b].content == states[a].content && states[b].written == states[a].written
    decreases b
  {
    if a < b {
      Idle(plan, calls, states, a, b - 1);
      assert RefStep(plan, calls[b - 1], states[b - 1], states[b]);
    }
  }

  /** A merge that completes: every reference file goes from its old to its new bytes, and the config file too. */
  lemma {:induction false} MergeCompleted(plan: seq<Target>, before: Bytes, after: Bytes, calls: seq<Call>, states: seq<RefState>,
                                          first: Manifest)
    requires Succeeded(after, 1, calls) && AllLawful(before, calls) && Untouched(calls)
    requires Follows(plan, calls, states) && states[0].written == []
    ensures Disk(before, calls) == after
    ensures At(states[0].content, plan) && Last(states).content == PutAll(states[0].content, plan)
  {
    CompletedRun(before, after, 1, calls, first);
    OneApply(after, calls);
    Idle(plan, calls, states, 0, 6);
    assert RefStep(plan, calls[6], states[6], states[7]);
    Idle(plan, calls, states, 7, |calls|);
  }

  /** A completed run with one participant applies it in its seventh call, and touches it in no other but one. */
  lemma {:induction false} OneApply(after: Bytes, calls: seq<Call>)
    requires Succeeded(after, 1, calls)
    ensures |calls| == 11 && calls[6].op.Apply? && !calls[6].raised
    ensures forall p :: 0 <= p < |calls| && p != 6 ==> !calls[p].op.Apply? && !calls[p].op.Rollback?
  {
    CompletedOps(after, 1, calls);
    CompletedInOrder(after, 1, calls, 0);
    RoundsAt(1, 0, 0);
    RoundsAt(1, 0, 3);
  }

  /** The calls of a run with one participant, written out. */
  function FullOps(after: Bytes): seq<Op> {
    [AssertOwned, WriteConfig(after), Validate, Reload, WriteManifest(Manifest(Reloaded, NoPhase, [])),
     AssertOwned, Apply(0), Verify(0), AssertOwned,
     AssertOwned, WriteManifest(Manifest(Completed, NoPhase, []))]
  }

  lemma {:induction false} FullOpsParts(after: Bytes)
    ensures FullOps(after) == Prologue(after) + (RoundOps(0) + Epilogue())
    ensures Rounds(0) == [] && Rounds(1) == RoundOps(0)
  {
  }

  /** A whole part, and the first `k` of the next. */
  lemma {:induction false} TakeParts(a: seq<Op>, b: seq<Op>, c: seq<Op>, k: nat)
    requires k <= |b|
    ensures (a + (b + c))[..|a| + k] == a + b[..k]
  {
  }

  lemma {:induction false} TakeFirst(a: seq<Op>, b: seq<Op>, k: nat)
    requires k <= |a|
    ensures (a + b)[..k] == a[..k]
  {
  }

  lemma {:induction false} OpsArePrefix(after: Bytes, at: Stop, ops: seq<Op>)
    requires Within(1, at) && ops == OpsUpTo(after, 1, at)
    ensures |ops| <= 11 && ops == FullOps(after)[..|ops|] && (Reached(1, at) == 0 ==> |ops| <= 5)
  {
    var first, round, last := Prologue(after), RoundOps(0), Epilogue();
    FullOpsParts(after);
    match at
    case AtPrologue(step) =>
      TakeFirst(first, round + last, step + 1);
    case AtRound(_, step) =>
      TakeParts(first, round, last, step + 1);
      assert first + [] + round[..step + 1] == first + round[..step + 1];
    case AtEpilogue(step) =>
      TakeParts(first + round, last, [], step + 1);
      assert (first + round) + (last + []) == FullOps(after);
  }

  /** The one participant's calls in a run that failed. */
  lemma {:induction false} FailedOps(after: Bytes, forward: seq<Call>, at: Stop, p: nat)
    requires FailedAt(after, 1, forward, at) && p < |forward|
    ensures forward[p].op.Apply? <==> p == 6
    ensures Reached(1, at) == 0 ==> |forward| <= 5
  {
    var ops := OpsUpTo(after, 1, at);
    OpsArePrefix(after, at, ops);
    assert forward[p].op == ops[p] == FullOps(after)[p];
  }

  /** Where the participant is called in a run that failed. */
  ghost predicate CalledAt(calls: seq<Call>, n: nat, r: nat) {
    forall p :: 0 <= p < |calls| ==>
      (calls[p].op.Apply? <==> p < n && p == 6) && (calls[p].op.Rollback? <==> n <= p < n + r)
  }

  lemma {:induction false} ParticipantCalls(before: Bytes, after: Bytes, forward: seq<Call>, at: Stop, rec: Recovery,
                                            calls: seq<Call>, disk: Bytes)
    requires FailedAt(after, 1, forward, at) && calls == forward + rec.Calls()
    requires Compensates(rec, Reached(1, at), before, PhaseAt(at), Loaded(at), disk)
    ensures CalledAt(calls, |forward|, Reached(1, at))
  {
    forall p | 0 <= p < |calls|
      ensures calls[p].op.Apply? <==> p < |forward| && p == 6
      ensures calls[p].op.Rollback? <==> |forward| <= p < |forward| + Reached(1, at)
    {
      RollbacksExactly(after, 1, forward, at, rec, before, disk, p);
      if p < |forward| {
        FailedOps(after, forward, at, p);
      } else {
        BehindForward(forward, rec, Reached(1, at), before, PhaseAt(at), Loaded(at), disk, p);
      }
    }
  }

  /**
    A merge that reports `rolled_back`: the config file and every reference file hold what they held before, byte for
    byte, wherever the run failed.
   */
  lemma {:induction false} MergeRolledBack(plan: seq<Target>, before: Bytes, after: Bytes, forward: seq<Call>, at: Stop,
                                           rec: Recovery, calls: seq<Call>, states: seq<RefState>, first: Manifest)
    requires FailedAt(after, 1, forward, at) && calls == forward + rec.Calls() && AllLawful(before, calls)
    requires Compensates(rec, Reached(1, at), before, PhaseAt(at), Loaded(at), Disk(before, forward + rec.rollbacks))
    requires StatusOf(rec) == RolledBack
    requires Distinct(plan) && Follows(plan, calls, states) && states[0].written == []
    ensures Disk(before, calls) == before && Last(states).content == states[0].content
  {
    RolledBackRun(before, after, 1, forward, at, rec, calls, first);
    ParticipantCalls(before, after, forward, at, rec, calls, Disk(before, forward + rec.rollbacks));
    StatusExactly(rec, Reached(1, at));
    QuietParts(rec);
    FailedOps(after, forward, at, 0);
    RefsRestored(plan, forward, rec, calls, states, Reached(1, at));
  }

  lemma {:induction false} RefsRestored(plan: seq<Target>, forward: seq<Call>, rec: Recovery, calls: seq<Call>,
                                        states: seq<RefState>, r: nat)
    requires calls == forward + rec.Calls() && CalledAt(calls, |forward|, r) && r <= 1 && (r == 0 ==> |forward| <= 5)
    requires RollsBack(rec.rollbacks, r) && Quiet(rec.rollbacks)
    requires Distinct(plan) && Follows(plan, calls, states) && states[0].written == []
    ensures Last(states).content == states[0].content
  {
    var left := RefsLeft(plan, forward, rec, calls, states, r);
    if r > 0 {
      assert !rec.rollbacks[0].raised;
    }
  }

  /** Behind a failed run the reference files hold the new bytes of the first ones that rollback did not come to. */
  lemma {:induction false} RefsLeft(plan: seq<Target>, forward: seq<Call>, rec: Recovery, calls: seq<Call>,
                                    states: seq<RefState>, r: nat) returns (left: seq<Target>)
    requires calls == forward + rec.Calls() && CalledAt(calls, |forward|, r) && r <= 1 && (r == 0 ==> |forward| <= 5)
    requires RollsBack(rec.rollbacks, r)
    requires Distinct(plan) && Follows(plan, calls, states) && states[0].written == []
    ensures left <= plan && At(states[0].content, left) && Last(states).content == PutAll(states[0].content, left)
    ensures left == [] <==> r == 0 || !rec.rollbacks[0].raised
  {
    var n := |forward|;
    if r == 0 {
      left := [];
      Idle(plan, calls, states, 0, |calls|);
    } else {
      left := RollsBackOnce(plan, forward, rec, calls, states);
      Idle(plan, calls, states, n + 1, |calls|);
    }
  }

  lemma {:induction false} BehindForward(forward: seq<Call>, rec: Recovery, r: nat, before: Bytes, phase: Phase, reloaded: bool,
                                         disk: Bytes, p: nat)
    requires Compensates(rec, r, before, phase, reloaded, disk) && |forward| <= p < |forward + rec.Calls()|
    ensures !(forward + rec.Calls())[p].op.Apply?
  {
    var calls, m := forward + rec.Calls(), |forward| + |rec.rollbacks|;
    Positions(forward, rec, calls, m);
    if p >= m {
      TailCalls(rec, calls, m, before, p);
    }
  }

  /** What the participant wrote, if it came to that, is written back, up to a write that raises. */
  lemma {:induction false} RollsBackOnce(plan: seq<Target>, forward: seq<Call>, rec: Recovery, calls: seq<Call>,
                                         states: seq<RefState>) returns (left: seq<Target>)
    requires calls == forward + rec.Calls() && Follows(plan, calls, states) && states[0].written == [] && Distinct(plan)
    requires CalledAt(calls, |forward|, 1)
    requires RollsBack(rec.rollbacks, 1)
    ensures |calls| > |forward| && left <= plan && At(states[0].content, left)
    ensures states[|forward| + 1].content == PutAll(states[0].content, left)
    ensures left == [] <==> !rec.rollbacks[0].raised
  {
    var n := |forward|;
    assert calls[n] == rec.rollbacks[0];
    assert forall p :: 0 <= p < n ==> calls[p] == forward[p];
    WrittenAt(plan, calls, states, n);
    var written, f := states[n].written, states[0].content;
    assert RefStep(plan, calls[n], states[n], states[n + 1]);
    var k: nat :| PutBackTo(states[n].content, states[n + 1].content, written, calls[n].raised, k);
    PutBackPart(f, written, k);
    left := written[..k];
  }

  /** In front of the rollback the reference files hold the new bytes of what the participant wrote. */
  lemma {:induction false} WrittenAt(plan: seq<Target>, calls: seq<Call>, states: seq<RefState>, n: nat)
    requires Follows(plan, calls, states) && states[0].written == [] && Distinct(plan) && n <= |calls|
    requires forall p :: 0 <= p < n ==> !calls[p].op.Rollback? && (calls[p].op.Apply? <==> p == 6)
    ensures states[n].written <= plan && At(states[0].content, states[n].written) && Distinct(states[n].written)
    ensures states[n].content == PutAll(states[0].content, states[n].written)
  {
    if n <= 6 {
      Idle(plan, calls, states, 0, n);
    } else {
      Idle(plan, calls, states, 0, 6);
      assert RefStep(plan, calls[6], states[6], states[7]);
      Idle(plan, calls, states, 7, n);
    }
  }

  // ---------- the v1 to v2 migration ----------

  /** The two states its manifest ends in, as far as they reach the disk. */
  datatype Migrated =
    | Applied
    | Restored(noted: bool)  // every compensating write succeeded; `noted` when the manifest could be written too
    | CompensationFailed

  /** How a `try` block ends: whether it raised, how many files are on its list, and when. */
  datatype Tried = Tried(raised: bool, count: nat, clock: nat)

  /** `n` calls that may fail, up to one that does. */
  function Called(faults: nat -> Fault, n: nat, t: nat): (bool, nat) {
    if n == 0 then (false, t) else if faults(t).raises then (true, t + 1) else Called(faults, n - 1, t + 1)
  }

  /** The migration's: the config file, the references, then loading, reloading, scanning and the manifest. */
  function MigrationTry(faults: nat -> Fault, f: Content, config: Target, plan: seq<Target>, t: nat): (r: Tried)
    ensures r.count <= 1 + |plan|
  {
    if faults(t).raises then Tried(true, 0, t + 1)
    else if faults(t + 1).raises || !At(f[config.path := config.after], plan) then Tried(true, 1, t + 2)
    else
      var (raised, clock) := Called(faults, 4, t + 2);
      Tried(raised, 1 + |plan|, clock)
  }

  /** None of the `n` calls from time `t` on raises. */
  predicate Calm(faults: nat -> Fault, t: nat, n: nat) {
    forall k :: t <= k < t + n ==> !faults(k).raises
  }

  lemma {:induction false} CalledExactly(faults: nat -> Fault, n: nat, t: nat)
    ensures Called(faults, n, t).0 <==> !Calm(faults, t, n)
  {
    if n > 0 && !faults(t).raises {
      CalledExactly(faults, n - 1, t + 1);
    }
  }

  /** The block makes six calls, and goes through exactly if none of them raises and the plan's bytes are still there. */
  lemma {:induction false} TriedExactly(faults: nat -> Fault, f: Content, config: Target, plan: seq<Target>, t: nat)
    ensures !MigrationTry(faults, f, config, plan, t).raised <==> Calm(faults, t, 6) && At(f[config.path := config.after], plan)
  {
    CalledExactly(faults, 4, t + 2);
    assert Calm(faults, t, 6) <==> !faults(t).raises && !faults(t + 1).raises && Calm(faults, t + 2, 4);
  }

  /** `apply_model_reference_rewrite_plan` is all or nothing, and starts from the bytes the plan was made for. */
  method ApplyPlan(files: Files, plan: seq<Target>) returns (raised: bool)
    modifies files
    ensures raised <==> files.oracle(old(files.clock)).raises || !At(old(files.content), plan)
    ensures files.clock == old(files.clock) + 1
    ensures files.content == if raised then old(files.content) else PutAll(old(files.content), plan)
  {
    raised := files.Other();
    if raised || !(forall i :: 0 <= i < |plan| ==> plan[i].path in files.content && files.content[plan[i].path] == plan[i].before) {
      return true;
    }
    files.content := PutAll(files.content, plan);
  }

  method CallOthers(files: Files, n: nat) returns (raised: bool)
    modifies files`clock
    ensures (raised, files.clock) == Called(files.oracle, n, old(files.clock))
  {
    raised := false;
    var i := n;
    while i > 0
      invariant 0 <= i <= n && Called(files.oracle, i, files.clock) == Called(files.oracle, n, old(files.clock))
    {
      raised := files.Other();
      if raised {
        return;
      }
      i := i - 1;
    }
  }

  /** The migration's `try` block; `written` is `written_payloads`. */
  method WriteMigration(files: Files, config: Target, plan: seq<Target>)
    returns (raised: bool, written: seq<Target>)
    requires At(files.content, [config]) && Distinct([config] + plan)
    modifies files
    ensures Tried(raised, |written|, files.clock) == MigrationTry(files.oracle, old(files.content), config, plan, old(files.clock))
    ensures written == ([config] + plan)[..|written|] && At(old(files.content), written)
    ensures files.content == PutAll(old(files.content), if Late(files.oracle, old(files.clock)) then [config] else written)
  {
    ghost var f := files.content;
    written := [];
    raised := files.WriteConfigFile(config.path, config.after);
    PutOne(f, config);
    if raised {
      return;
    }
    written := [config];
    raised := ApplyPlan(files, plan);
    if raised {
      return;
    }
    PutMore(f, config, plan);
    written := [config] + plan;
    raised := CallOthers(files, 4);
  }

  lemma {:induction false} PutOne(f: Content, t: Target)
    ensures PutAll(f, [t]) == f[t.path := t.after]
  {
    assert Front([t]) == [];
  }

  lemma {:induction false} PutMore(f: Content, config: Target, plan: seq<Target>)
    requires Distinct([config] + plan) && At(f, [config]) && At(PutAll(f, [config]), plan)
    ensures At(f, [config] + plan) && PutAll(f, [config] + plan) == PutAll(PutAll(f, [config]), plan)
  {
    PutOne(f, config);
    PutAppend(f, [config], plan);
    assert forall i :: 0 <= i < |plan| ==> ([config] + plan)[i + 1] == plan[i];
    assert ([config] + plan)[0] == config == [config][0];
  }

  lemma {:induction false} PutAppend(f: Content, a: seq<Target>, b: seq<Target>)
    ensures PutAll(f, a + b) == PutAll(PutAll(f, a), b)
    decreases |b|
  {
    if b == [] {
      assert a + b == a;
    } else {
      assert Front(a + b) == a + Front(b);
      PutAppend(f, a, Front(b));
    }
  }

  /** What a failed run leaves when its compensating writes succeed. */
  function AfterFailure(f: Content, late: bool, config: Target): Content {
    if late then f[config.path := config.after] else f
  }

  /**
    `apply_v1_to_v2`; its first call is the config write.  It fails to compensate exactly when it raised and one of the
    writes that put the listed files back raises, and then the files in front of that one keep their new bytes.  When these
    writes succeed, every file is as it was, if and only if the config write did not raise behind its replace (or had
    nothing to change): such a write is not on the list of written files, so the config file keeps the new bytes.
   */
  method ApplyV1ToV2(files: Files, config: Target, plan: seq<Target>) returns (r: Migrated)
    requires At(files.content, [config]) && Distinct([config] + plan)
    modifies files
    ensures var tried := MigrationTry(files.oracle, old(files.content), config, plan, old(files.clock));
      && (r.Applied? <==> !tried.raised)
      && (r.CompensationFailed? <==>
          tried.raised && exists k :: tried.clock <= k < tried.clock + tried.count && files.oracle(k).raises)
      && (r.CompensationFailed? ==>
          files.content == PutAll(old(files.content), ([config] + plan)[..Unreached(files.oracle, tried.count, tried.clock)]))
    ensures r.Applied? ==> At(old(files.content), plan) && files.content == PutAll(old(files.content), [config] + plan)
    ensures r.Restored? ==>
      files.content == AfterFailure(old(files.content), Late(files.oracle, old(files.clock)), config)
    ensures r.Restored? ==>
      (files.content == old(files.content) <==> !Late(files.oracle, old(files.clock)) || config.before == config.after)
    ensures Late(files.oracle, old(files.clock)) ==> r.Restored?
    ensures r.Applied? <==>
      Calm(files.oracle, old(files.clock), 6) && At(old(files.content)[config.path := config.after], plan)
  {
    ghost var f, late := files.content, Late(files.oracle, files.clock);
    TriedExactly(files.oracle, f, config, plan, files.clock);
    var raised, written := WriteMigration(files, config, plan);
    if !raised {
      WholePlan(f, config, plan);
      return Applied;
    }
    ghost var g, t := files.content, files.clock;
    ghost var left;
    raised, left := WriteBack(files, written);
    UnreachedExactly(files.oracle, |written|, t);
    if raised {
      KeptBytes(f, [config] + plan, written, left);
      return CompensationFailed;
    }
    WrittenBack(f, g, files.content, [config] + plan, written, late);
    raised := files.Other();  // read the config back
    if raised {
      return Restored(false);
    }
    var reloadRaised := files.Other();
    var manifestRaised := files.Other();
    r := Restored(!manifestRaised);
  }

  lemma {:induction false} WholePlan(f: Content, config: Target, plan: seq<Target>)
    requires At(f, [config] + plan)
    ensures At(f, plan) && ([config] + plan)[..1 + |plan|] == [config] + plan
  {
    assert forall i :: 0 <= i < |plan| ==> ([config] + plan)[i + 1] == plan[i];
  }

  lemma {:induction false} KeptBytes(f: Content, targets: seq<Target>, written: seq<Target>, left: nat)
    requires Distinct(targets) && |written| <= |targets| && written == targets[..|written|] && At(f, written) && left <= |written|
    ensures PutBack(PutAll(f, written), written[left..]) == PutAll(f, targets[..left])
  {
    PutBackPart(f, written, left);
    assert written[..left] == targets[..left];
  }

  datatype Undone =
    | Ineligible
    | RolledBackFiles(noted: bool)
    | Reapplied  // it failed, and its compensating writes succeeded
    | ReapplyFailed

  /** How many of `n` writes succeed in front of one that raises. */
  function Succeeding(faults: nat -> Fault, n: nat, t: nat): (k: nat)
    ensures k <= n
  {
    if n == 0 || faults(t).raises then 0 else 1 + Succeeding(faults, n - 1, t + 1)
  }

  /** The rollback's `try` block: the files, then the reload of the old config. */
  function RollbackTry(faults: nat -> Fault, n: nat, t: nat): (r: Tried)
    ensures r.count <= n
  {
    var k := Succeeding(faults, n, t);
    Tried(k < n || faults(t + n).raises, k, t + k + 1)
  }

  lemma {:induction false} SucceedingExactly(faults: nat -> Fault, n: nat, t: nat)
    ensures Succeeding(faults, n, t) == n <==> Calm(faults, t, n)
  {
    if n > 0 && !faults(t).raises {
      SucceedingExactly(faults, n - 1, t + 1);
    }
  }

  /** The block goes through exactly if no write and not the reload raises. */
  lemma {:induction false} RollbackTriedExactly(faults: nat -> Fault, n: nat, t: nat)
    ensures !RollbackTry(faults, n, t).raised <==> Calm(faults, t, n + 1)
  {
    SucceedingExactly(faults, n, t);
  }

  /** The loop of `rollback_v1_to_v2`; the config file is the first target. */
  method RestoreTargets(files: Files, targets: seq<Target>) returns (raised: bool, written: seq<Target>)
    requires Distinct(targets) && At(files.content, targets) && targets != []
    modifies files
    ensures var k := Succeeding(files.oracle, |targets|, old(files.clock));
      && |written| == k && written == targets[..k] && (raised <==> k < |targets|)
      && files.clock == old(files.clock) + k + (if raised then 1 else 0)
    ensures files.content == PutAll(old(files.content), if Late(files.oracle, old(files.clock)) then targets[..1] else written)
    ensures !raised ==> written == targets && !Late(files.oracle, old(files.clock))
  {
    ghost var f, t, n := files.content, files.clock, |targets|;
    ghost var late := Late(files.oracle, t);
    raised, written := false, [];
    for i := 0 to |targets|
      invariant written == targets[..i] && files.content == PutAll(f, written) && !raised
      invariant files.clock == t + i && (i > 0 ==> !late)
      invariant Succeeding(files.oracle, n, t) == i + Succeeding(files.oracle, n - i, files.clock)
    {
      Snoc(targets[..i], targets[i]);
      assert targets[..i + 1] == targets[..i] + [targets[i]];
      if i == 0 {
        raised := files.WriteConfigFile(targets[i].path, targets[i].after);
      } else {
        raised := files.Write(targets[i].path, targets[i].after);
      }
      if raised {
        return;
      }
      written := written + [targets[i]];
    }
    assert targets[..n] == targets;
  }

  /** Every target still holds the bytes the migration gave it; digests are injective. */
  predicate Eligible(f: Content, targets: seq<Target>) {
    targets != [] && forall i :: 0 <= i < |targets| ==> targets[i].path in f && f[targets[i].path] == targets[i].after
  }

  /**
    `rollback_v1_to_v2`: on success every target holds its old bytes.  It fails to compensate exactly when it raised and one
    of the writes that put the migrated bytes back raises.  When these succeed, every file is left with the migrated bytes,
    if and only if the config write, which is its first call, did not raise behind its replace (or had nothing to change).
   */
  method RollbackV1ToV2(files: Files, targets: seq<Target>) returns (r: Undone)
    requires Distinct(targets)
    modifies files
    ensures r.Ineligible? <==> !Eligible(old(files.content), targets)
    ensures r.Ineligible? ==> files.content == old(files.content)
    ensures var tried := RollbackTry(files.oracle, |targets|, old(files.clock));
      && (r.RolledBackFiles? <==> !r.Ineligible? && !tried.raised)
      && (r.ReapplyFailed? <==>
          !r.Ineligible? && tried.raised && exists k :: tried.clock <= k < tried.clock + tried.count && files.oracle(k).raises)
      && (r.ReapplyFailed? ==>
          files.content == PutAll(old(files.content), Swap(targets)[..Unreached(files.oracle, tried.count, tried.clock)]))
    ensures r.RolledBackFiles? ==> files.content == PutAll(old(files.content), Swap(targets))
    ensures r.Reapplied? ==>
      files.content == AfterFailure(old(files.content), Late(files.oracle, old(files.clock)), Swap(targets)[0])
    ensures r.Reapplied? ==>
      (files.content == old(files.content) <==> !Late(files.oracle, old(files.clock)) || targets[0].before == targets[0].after)
    ensures !r.Ineligible? && Late(files.oracle, old(files.clock)) ==> r.Reapplied?
    ensures r.RolledBackFiles? <==> Eligible(old(files.content), targets) && Calm(files.oracle, old(files.clock), |targets| + 1)
  {
    if !Eligible(files.content, targets) {
      return Ineligible;
    }
    RollbackTriedExactly(files.oracle, |targets|, files.clock);
    ghost var f, late := files.content, Late(files.oracle, files.clock);
    var back := Swap(targets);
    var raised, written := TryRollback(files, back);
    if !raised {
      var manifestRaised := files.Other();
      return RolledBackFiles(!manifestRaised);
    }
    r := Reapply(files, f, back, written, late);
  }

  /** The `try` block of the rollback. */
  method TryRollback(files: Files, targets: seq<Target>) returns (raised: bool, written: seq<Target>)
    requires Distinct(targets) && At(files.content, targets) && targets != []
    modifies files
    ensures Tried(raised, |written|, files.clock) == RollbackTry(files.oracle, |targets|, old(files.clock))
    ensures |written| <= |targets| && written == targets[..|written|] && (Late(files.oracle, old(files.clock)) ==> raised && written == [])
    ensures files.content == PutAll(old(files.content), if Late(files.oracle, old(files.clock)) then targets[..1] else written)
    ensures !raised ==> files.content == PutAll(old(files.content), targets)
  {
    raised, written := RestoreTargets(files, targets);
    if !raised {
      raised := files.Other();
    }
  }

  /** The `except` block of the rollback. */
  method Reapply(files: Files, ghost f: Content, ghost targets: seq<Target>, written: seq<Target>, ghost late: bool) returns (r: Undone)
    requires Distinct(targets) && At(f, targets) && targets != []
    requires |written| <= |targets| && written == targets[..|written|] && (late ==> written == [])
    requires files.content == PutAll(f, if late then targets[..1] else written)
    modifies files
    ensures r.ReapplyFailed? || r.Reapplied?
    ensures r.ReapplyFailed? <==>
      exists k :: old(files.clock) <= k < old(files.clock) + |written| && files.oracle(k).raises
    ensures r.ReapplyFailed? ==>
      files.content == PutAll(f, targets[..Unreached(files.oracle, |written|, old(files.clock))])
    ensures r.Reapplied? ==> files.content == AfterFailure(f, late, targets[0])
    ensures r.Reapplied? ==> (files.content == f <==> !late || targets[0].before == targets[0].after)
  {
    ghost var g := files.content;
    UnreachedExactly(files.oracle, |written|, files.clock);
    var raised;
    ghost var left;
    raised, left := WriteBack(files, written);
    if raised {
      KeptBytes(f, targets, written, left);
      return ReapplyFailed;
    }
    WrittenBack(f, g, files.content, targets, written, late);
    r := Reapplied;
  }

  /** Writing back what was written restores everything but a late config write. */
  lemma {:induction false} WrittenBack(f: Content, g: Content, h: Content, targets: seq<Target>, written: seq<Target>, late: bool)
    requires Distinct(targets) && targets != [] && At(f, targets[..1]) && At(f, written)
    requires |written| <= |targets| && written == targets[..|written|] && (late ==> written == [])
    requires g == PutAll(f, if late then targets[..1] else written) && h == PutBack(g, written)
    ensures h == AfterFailure(f, late, targets[0])
    ensures h == f <==> !late || targets[0].before == targets[0].after
  {
    if late {
      PutOne(f, targets[0]);
      assert targets[..1] == [targets[0]];
    } else {
      PutBackUndoes(f, written);
    }
  }

  /** Applying the migration and rolling it back restores the config file and every reference file byte for byte. */
  method MigrateAndRollBack(files: Files, config: Target, plan: seq<Target>) returns (r: Migrated, u: Undone)
    requires At(files.content, [config]) && Distinct([config] + plan)
    modifies files
    ensures r.Applied? ==> !u.Ineligible? && (u.RolledBackFiles? ==> files.content == old(files.content))
  {
    ghost var f := files.content;
    r := ApplyV1ToV2(files, config, plan);
    u := Ineligible;
    if r.Applied? {
      var targets := [config] + plan;
      assert At(f, targets) by {
        assert [config][0] == config;
        assert forall i :: 0 < i < |targets| ==> targets[i] == plan[i - 1];
      }
      SwapUndoes(f, targets);
      assert forall i :: 0 <= i < |targets| ==> Swap(targets)[i].path == targets[i].path;
      u := RollbackV1ToV2(files, targets);
    }
  }
}
