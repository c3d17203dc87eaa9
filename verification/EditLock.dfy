/**
  The config edit lock as steps of several processes: create-exclusive, token, stat and stale takeover
  (`_config_edit_lock`), and the heartbeat that refreshes and checks it (`_touch_lock_if_owned`).

  Every access to the lock file is one step, so a read and the unlink it decides about are two; a process can stop for
  good between any two steps.  All clocks are one clock.
 */
module EditLock {
  import opened Wrappers

  /** A process writes a new token for every attempt. */
  datatype Token = Token(pid: nat, serial: nat)

  /** The file at the lock path: who created it, and what has been written into it so far. */
  datatype LockFile = LockFile(creator: Token, content: Option<Token>, mtime: int)

  datatype Phase =
    | Idle
    | Trying                 // about to create
    | Busy                   // the file was there: about to stat
    | SawStale               // about to unlink what looked stale
    | Created                // the file is ours, the token not yet in it
    | Inside                 // inside the `with` block
    | Leaving                // about to read the file back
    | Matched                // read its own token: about to unlink
    | Dead

  /** One use of `_touch_lock_if_owned`: the heartbeat thread and the main thread each run their own. */
  datatype Beat = Still | ReadOnce | Touched

  datatype Proc = Proc(phase: Phase, serial: nat, beats: seq<Beat>, lastTouch: int, lost: bool)

  datatype State = State(file: Option<LockFile>, procs: seq<Proc>, now: int, stale: nat)

  datatype Action =
    | Start(p: nat) | Create(p: nat) | Stat(p: nat) | GiveUp(p: nat) | UnlinkStale(p: nat) | WriteToken(p: nat)
    | Exit(p: nat) | ReadBack(p: nat) | ReadFails(p: nat) | UnlinkOwn(p: nat)
    | BeatRead(p: nat, t: nat) | BeatTouch(p: nat, t: nat) | BeatConfirm(p: nat, t: nat)
    | Crash(p: nat)
    | Tick(d: nat)

  function TokenOf(s: State, p: nat): Token
    requires p < |s.procs|
  {
    Token(p, s.procs[p].serial)
  }

  predicate Owns(s: State, p: nat)
    requires p < |s.procs|
  {
    s.file.Some? && s.file.value.content == Some(TokenOf(s, p))
  }

  predicate LooksStale(s: State) {
    s.file.Some? && s.now - s.file.value.mtime > s.stale
  }

  function With(s: State, p: nat, x: Proc): State
    requires p < |s.procs|
  {
    s.(procs := s.procs[p := x])
  }

  function To(s: State, p: nat, phase: Phase): State
    requires p < |s.procs|
  {
    With(s, p, s.procs[p].(phase := phase))
  }

  const STILL := [Still, Still]

  /** One step; None when the process is not at that point. */
  function Do(s: State, a: Action): Option<State> {
    match a
    case Tick(d) => Some(s.(now := s.now + d))
    case _ => if a.p >= |s.procs| then None else Act(s, a, s.procs[a.p])
  }

  function Act(s: State, a: Action, x: Proc): Option<State>
    requires !a.Tick? && a.p < |s.procs| && x == s.procs[a.p]
  {
    match a
    case Start(p) => if x.phase.Idle? then Some(With(s, p, Proc(Trying, x.serial + 1, STILL, s.now, false))) else None
    case Create(p) =>
      if !x.phase.Trying? then None
      else if s.file.Some? then Some(To(s, p, Busy))
      else Some(With(s, p, x.(phase := Created, lastTouch := s.now))
                .(file := Some(LockFile(TokenOf(s, p), None, s.now))))
    case Stat(p) =>
      if !x.phase.Busy? then None else Some(To(s, p, if LooksStale(s) then SawStale else Trying))
    case GiveUp(p) => if x.phase.Busy? then Some(To(s, p, Idle)) else None
    case UnlinkStale(p) => if x.phase.SawStale? then Some(To(s, p, Trying).(file := None)) else None
    case WriteToken(p) =>
      // the handle writes into the file it created, which may no longer be the one at the path
      if !x.phase.Created? then None
      else
        var t := With(s, p, x.(phase := Inside, lastTouch := s.now));
        if s.file.Some? && s.file.value.creator == TokenOf(s, p) then
          Some(t.(file := Some(LockFile(TokenOf(s, p), Some(TokenOf(s, p)), s.now))))
        else Some(t)
    case Exit(p) => if x.phase.Inside? && x.beats == STILL then Some(To(s, p, Leaving)) else None
    case ReadBack(p) => if x.phase.Leaving? then Some(To(s, p, if Owns(s, p) then Matched else Idle)) else None
    case ReadFails(p) => if x.phase.Leaving? then Some(To(s, p, Idle)) else None
    case UnlinkOwn(p) => if x.phase.Matched? then Some(To(s, p, Idle).(file := None)) else None
    case BeatRead(p, t) =>
      if !x.phase.Inside? || t >= |x.beats| || !x.beats[t].Still? then None
      else if Owns(s, p) then Some(With(s, p, x.(beats := x.beats[t := ReadOnce])))
      else Some(With(s, p, x.(lost := true)))
    case BeatTouch(p, t) =>
      if t >= |x.beats| || !x.beats[t].ReadOnce? then None
      else if s.file.None? then Some(With(s, p, x.(beats := x.beats[t := Still], lost := true)))
      else Some(With(s, p, x.(beats := x.beats[t := Touched], lastTouch := s.now))
                .(file := Some(s.file.value.(mtime := s.now))))
    case BeatConfirm(p, t) =>
      if t >= |x.beats| || !x.beats[t].Touched? then None
      else Some(With(s, p, x.(beats := x.beats[t := Still], lost := x.lost || !Owns(s, p))))
    case Crash(p) => Some(With(s, p, x.(phase := Dead, beats := STILL)))
  }

  /** A whole interleaving. */
  function Run(s: State, acts: seq<Action>): Option<State>
    decreases |acts|
  {
    if acts == [] then Some(s)
    else
      var r := Do(s, acts[0]);
      if r.None? then None else Run(r.value, acts[1..])
  }

  predicate Initial(s: State) {
    s.file.None? && forall p :: 0 <= p < |s.procs| ==> s.procs[p].phase.Idle? && s.procs[p].beats == STILL
  }

  /** Has the lock, from the creation of its file to the unlink. */
  predicate Has(s: State, p: nat)
    requires p < |s.procs|
  {
    var phase := s.procs[p].phase;
    phase.Created? || phase.Inside? || phase.Leaving? || phase.Matched?
  }

  predicate Exclusive(s: State) {
    forall p, q :: 0 <= p < q < |s.procs| ==> !(Has(s, p) && Has(s, q))
  }

  /** No `stat` of the run finds the lock older than the limit. */
  predicate NeverStale(s: State, acts: seq<Action>)
    decreases |acts|
  {
    acts == [] || (
      var r := Do(s, acts[0]);
      r.Some? ==> (acts[0].Stat? ==> !LooksStale(s)) && NeverStale(r.value, acts[1..]))
  }

  /** The file at the path belongs to no process that still has the lock: its creator is dead, or gave up. */
  predicate Abandoned(s: State) {
    s.file.Some? ==>
      var c := s.file.value.creator; !(c.pid < |s.procs| && Has(s, c.pid) && TokenOf(s, c.pid) == c)
  }

  /** Every takeover of the run unlinks a file that nobody has any more. */
  predicate HarmlessTakeovers(s: State, acts: seq<Action>)
    decreases |acts|
  {
    acts == [] || (
      var r := Do(s, acts[0]);
      r.Some? ==> (acts[0].UnlinkStale? ==> Abandoned(s)) && HarmlessTakeovers(r.value, acts[1..]))
  }

  // ---------- the invariant ----------

  /** What holds of a process that has the lock. */
  predicate Holds(s: State, p: nat)
    requires p < |s.procs|
  {
    && s.file.Some? && s.file.value.creator == TokenOf(s, p)
    && (!s.procs[p].phase.Created? ==> s.file.value.content == Some(TokenOf(s, p)))
    && s.file.value.mtime >= s.procs[p].lastTouch && !s.procs[p].lost
  }

  predicate ProcOk(s: State, p: nat)
    requires p < |s.procs|
  {
    var x := s.procs[p];
    && (Has(s, p) ==> Holds(s, p)) && |x.beats| == 2 && (!x.phase.Inside? ==> x.beats == STILL)
    && (x.phase.Trying? || x.phase.Busy? || x.phase.SawStale? ==> !x.lost)
  }

  /** Tokens in the file are never newer than their process. */
  predicate FileOk(s: State) {
    s.file.Some? ==>
      var f := s.file.value;
      && f.mtime <= s.now && (f.content.Some? ==> f.content == Some(f.creator))
      && (f.creator.pid < |s.procs| ==> f.creator.serial <= s.procs[f.creator.pid].serial)
  }

  predicate Inv(s: State) {
    FileOk(s) && forall p :: 0 <= p < |s.procs| ==> ProcOk(s, p)
  }

  lemma {:induction false} InvExcludes(s: State)
    requires Inv(s)
    ensures Exclusive(s)
  {
    forall p, q | 0 <= p < q < |s.procs| ensures !(Has(s, p) && Has(s, q)) {
      assert ProcOk(s, p) && ProcOk(s, q);
    }
  }

  lemma {:induction false} InitialInv(s: State)
    requires Initial(s)
    ensures Inv(s)
  {
  }

  /** The step keeps what holds of the process that takes it. */
  lemma {:induction false} OwnStep(s: State, a: Action, t: State)
    requires Inv(s) && !a.Tick? && Do(s, a) == Some(t) && (a.UnlinkStale? ==> Abandoned(s))
    ensures a.p < |t.procs| == |s.procs| && ProcOk(t, a.p) && FileOk(t)
  {
    assert ProcOk(s, a.p);
  }

  /** And of every other process: only the process that has the lock changes the file while there is one. */
  lemma {:induction false} OtherStep(s: State, a: Action, t: State, q: nat)
    requires Inv(s) && !a.Tick? && Do(s, a) == Some(t) && (a.UnlinkStale? ==> Abandoned(s)) && q < |s.procs| && q != a.p
    ensures |t.procs| == |s.procs| && ProcOk(t, q)
  {
    assert ProcOk(s, a.p) && ProcOk(s, q);
    assert t.procs[q] == s.procs[q];
    assert a.UnlinkStale? ==> !Has(s, q);
  }

  lemma {:induction false} StepInv(s: State, a: Action, t: State)
    requires Inv(s) && Do(s, a) == Some(t) && (a.UnlinkStale? ==> Abandoned(s))
    ensures Inv(t)
  {
    forall p | 0 <= p < |t.procs| ensures ProcOk(t, p) {
      if a.Tick? {
        assert ProcOk(s, p);
      } else if p == a.p {
        OwnStep(s, a, t);
      } else {
        OtherStep(s, a, t, p);
      }
    }
    if !a.Tick? {
      OwnStep(s, a, t);
    }
  }

  // ---------- the theorems ----------

  /** Over every interleaving whose takeovers are harmless, at most one process has the lock. */
  lemma {:induction false} MutualExclusion(s: State, acts: seq<Action>, t: State)
    requires Inv(s) && Run(s, acts) == Some(t) && HarmlessTakeovers(s, acts)
    ensures Inv(t) && Exclusive(t)
    decreases |acts|
  {
    if acts != [] {
      var r := Do(s, acts[0]).value;
      StepInv(s, acts[0], r);
      MutualExclusion(r, acts[1..], t);
    } else {
      InvExcludes(s);
    }
  }

  lemma {:induction false} ExclusiveFromStart(s: State, acts: seq<Action>, t: State)
    requires Initial(s) && Run(s, acts) == Some(t) && HarmlessTakeovers(s, acts)
    ensures Exclusive(t)
  {
    InitialInv(s);
    MutualExclusion(s, acts, t);
  }

  /**
    The condition is exact: the first takeover that is not harmless goes on, by two steps of the process that takes over,
    to a state with two holders.
   */
  lemma {:induction false} HarmfulTakeover(s: State, p: nat) returns (t: State)
    requires Inv(s) && p < |s.procs| && s.procs[p].phase.SawStale? && !Abandoned(s)
    ensures Run(s, [UnlinkStale(p), Create(p), WriteToken(p)]) == Some(t) && !Exclusive(t)
  {
    var q := s.file.value.creator.pid;
    var a := Do(s, UnlinkStale(p)).value;
    var b := Do(a, Create(p)).value;
    t := Do(b, WriteToken(p)).value;
    Then(s, [], s, UnlinkStale(p), a);
    Then(s, [UnlinkStale(p)], a, Create(p), b);
    Then(s, [UnlinkStale(p), Create(p)], b, WriteToken(p), t);
    assert [] + [UnlinkStale(p)] == [UnlinkStale(p)];
    assert [UnlinkStale(p)] + [Create(p)] == [UnlinkStale(p), Create(p)];
    assert [UnlinkStale(p), Create(p)] + [WriteToken(p)] == [UnlinkStale(p), Create(p), WriteToken(p)];
    assert Has(t, p) && Has(t, q) && p != q;
    if p < q {
      assert !(!(Has(t, p) && Has(t, q)));
    } else {
      assert !(!(Has(t, q) && Has(t, p)));
    }
  }

  /** In every run that is harmless up to such a takeover, that is how two processes get in. */
  lemma {:induction false} RunToHarm(s: State, acts: seq<Action>, u: State, p: nat) returns (t: State)
    requires Inv(s) && Run(s, acts) == Some(u) && HarmlessTakeovers(s, acts)
    requires p < |u.procs| && u.procs[p].phase.SawStale? && !Abandoned(u)
    ensures Run(s, acts + [UnlinkStale(p), Create(p), WriteToken(p)]) == Some(t) && !Exclusive(t)
  {
    MutualExclusion(s, acts, u);
    t := HarmfulTakeover(u, p);
    RunAppend(s, acts, u, [UnlinkStale(p), Create(p), WriteToken(p)]);
  }

  lemma {:induction false} RunAppend(s: State, acts: seq<Action>, u: State, more: seq<Action>)
    requires Run(s, acts) == Some(u)
    ensures Run(s, acts + more) == Run(u, more)
    decreases |acts|
  {
    if acts == [] {
      assert acts + more == more;
    } else {
      assert (acts + more)[1..] == acts[1..] + more;
      RunAppend(Do(s, acts[0]).value, acts[1..], u, more);
    }
  }

  /** The lock file of a process that has the lock is removed by that process alone. */
  lemma {:induction false} ReleasesOnlyItsOwn(s: State, a: Action, t: State)
    requires Inv(s) && Do(s, a) == Some(t) && !a.Tick? && s.file.Some? && t.file.None?
    ensures a.UnlinkStale? || (a.UnlinkOwn? && s.file.value.creator == TokenOf(s, a.p))
    ensures a.UnlinkStale? && Abandoned(s) ==> forall q :: 0 <= q < |s.procs| ==> !Has(s, q)
  {
    assert ProcOk(s, a.p);
    if a.UnlinkStale? && Abandoned(s) {
      forall q | 0 <= q < |s.procs| ensures !Has(s, q) {
        assert ProcOk(s, q);
      }
    }
  }

  /** A holder that touched its lock no longer than the limit ago never lets it look stale. */
  predicate Fresh(s: State, p: nat)
    requires p < |s.procs|
  {
    Has(s, p) ==> s.now - s.procs[p].lastTouch <= s.stale
  }

  lemma {:induction false} HeartbeatKeepsFresh(s: State, acts: seq<Action>, t: State, p: nat)
    requires Inv(s) && Run(s, acts) == Some(t) && HarmlessTakeovers(s, acts)
    requires p < |t.procs| && Has(t, p) && Fresh(t, p)
    ensures Owns(t, p) || t.procs[p].phase.Created?
    ensures !LooksStale(t) && !t.procs[p].lost
  {
    MutualExclusion(s, acts, t);
    assert ProcOk(t, p);
  }

  // ---------- a lost lock is noticed ----------

  /** What a heartbeat reports: reading and confirming notice exactly whether the lock is gone, and change nothing else. */
  lemma {:induction false} BeatNotices(s: State, a: Action, t: State)
    requires (a.BeatRead? || a.BeatConfirm?) && Do(s, a) == Some(t)
    ensures t.file == s.file && t.procs[a.p].lost == (s.procs[a.p].lost || !Owns(s, a.p))
    ensures t.procs[a.p].phase == s.procs[a.p].phase && forall q :: 0 <= q < |s.procs| && q != a.p ==> t.procs[q] == s.procs[q]
  {
  }

  /** A touch makes the file as young as the present, or notices that there is none. */
  lemma {:induction false} TouchRefreshes(s: State, p: nat, k: nat, t: State)
    requires Do(s, BeatTouch(p, k)) == Some(t)
    ensures s.file.Some? ==> t.file == Some(s.file.value.(mtime := s.now)) && t.procs[p].lastTouch == s.now
    ensures s.file.None? ==> t.file.None? && t.procs[p].lost
  {
  }

  predicate Beats(a: Action, p: nat) {
    (a.BeatRead? || a.BeatConfirm?) && a.p == p
  }

  ghost predicate StaysInside(s: State, acts: seq<Action>, p: nat)
    decreases |acts|
  {
    && p < |s.procs| && s.procs[p].phase.Inside?
    && (acts == [] || (var r := Do(s, acts[0]); r.Some? ==> StaysInside(r.value, acts[1..], p)))
  }

  lemma {:induction false} LossStays(s: State, a: Action, t: State, p: nat)
    requires p < |s.procs| && s.procs[p].phase.Inside? && !Owns(s, p) && Do(s, a) == Some(t)
    requires p < |t.procs| && t.procs[p].phase.Inside?
    ensures !Owns(t, p) && (s.procs[p].lost || Beats(a, p) ==> t.procs[p].lost)
  {
    if !a.Tick? {
      assert a.p != p ==> t.procs[p] == s.procs[p];
    }
  }

  /**
    A process that is inside without its lock does not get it back, whatever the others do, and reports the loss at its
    next heartbeat at the latest.
   */
  lemma {:induction false} LossIsNoticed(s: State, acts: seq<Action>, t: State, p: nat)
    requires StaysInside(s, acts, p) && Run(s, acts) == Some(t) && !Owns(s, p)
    ensures p < |t.procs| && !Owns(t, p)
    ensures s.procs[p].lost || (exists i :: 0 <= i < |acts| && Beats(acts[i], p)) ==> t.procs[p].lost
    decreases |acts|
  {
    if acts != [] {
      var r := Do(s, acts[0]).value;
      LossStays(s, acts[0], r, p);
      LossIsNoticed(r, acts[1..], t, p);
      if exists i :: 0 <= i < |acts| && Beats(acts[i], p) {
        var i :| 0 <= i < |acts| && Beats(acts[i], p);
        assert i > 0 ==> acts[1..][i - 1] == acts[i];
      }
    }
  }

  // ---------- runs in which every holder is prompt ----------

  /** Every holder's last touch is recent in every state, and no holder stops or leaves its lock behind. */
  ghost predicate Prompt(s: State, acts: seq<Action>)
    decreases |acts|
  {
    && (forall p :: 0 <= p < |s.procs| ==> Fresh(s, p))
    && (acts == [] || (
          && !acts[0].ReadFails? && (acts[0].Crash? && acts[0].p < |s.procs| ==> !Has(s, acts[0].p))
          && (var r := Do(s, acts[0]); r.Some? ==> Prompt(r.value, acts[1..]))))
  }

  /** No file without a process that has the lock. */
  predicate Owned(s: State) {
    s.file.Some? ==>
      var c := s.file.value.creator; c.pid < |s.procs| && Has(s, c.pid) && c == TokenOf(s, c.pid)
  }

  /** No process has found a lock stale. */
  predicate Unsuspecting(s: State) {
    forall p :: 0 <= p < |s.procs| ==> !s.procs[p].phase.SawStale?
  }

  lemma {:induction false} StepOwned(s: State, a: Action, t: State)
    requires Inv(s) && Owned(s) && Do(s, a) == Some(t) && !a.ReadFails? && !a.UnlinkStale?
    requires a.Crash? ==> !Has(s, a.p)
    ensures Owned(t)
  {
    if s.file.Some? && !a.Tick? {
      assert ProcOk(s, s.file.value.creator.pid) && ProcOk(s, a.p);
    }
  }

  /**
    If every holder touches its lock in time and none abandons it, then no `stat` finds a stale lock, whatever the
    interleaving, and so at most one process has the lock.
   */
  lemma {:induction false} PromptRuns(s: State, acts: seq<Action>, t: State)
    requires Inv(s) && Owned(s) && Unsuspecting(s) && Run(s, acts) == Some(t) && Prompt(s, acts)
    ensures NeverStale(s, acts) && HarmlessTakeovers(s, acts) && Exclusive(t)
    decreases |acts|
  {
    if acts == [] {
      InvExcludes(s);
    } else {
      var r := Do(s, acts[0]).value;
      OwnedIsFresh(s);
      assert Unsuspecting(r);
      StepInv(s, acts[0], r);
      StepOwned(s, acts[0], r);
      PromptRuns(r, acts[1..], t);
    }
  }

  lemma {:induction false} OwnedIsFresh(s: State)
    requires Inv(s) && Owned(s) && forall p :: 0 <= p < |s.procs| ==> Fresh(s, p)
    ensures !LooksStale(s)
  {
    if s.file.Some? {
      var p := s.file.value.creator.pid;
      assert ProcOk(s, p) && Fresh(s, p);
    }
  }

  /** Where no `stat` finds a stale lock, nobody takes over. */
  lemma {:induction false} NeverStaleIsHarmless(s: State, acts: seq<Action>, t: State)
    requires Unsuspecting(s) && Run(s, acts) == Some(t) && NeverStale(s, acts)
    ensures HarmlessTakeovers(s, acts) && Unsuspecting(t)
    decreases |acts|
  {
    if acts != [] {
      var r := Do(s, acts[0]).value;
      assert Unsuspecting(r);
      NeverStaleIsHarmless(r, acts[1..], t);
    }
  }

  /** So from a state without a lock such a run lets one process in at a time. */
  lemma {:induction false} UnsuspectingFromStart(s: State, acts: seq<Action>, t: State)
    requires Initial(s) && Run(s, acts) == Some(t) && NeverStale(s, acts)
    ensures Exclusive(t)
  {
    NeverStaleIsHarmless(s, acts, t);
    ExclusiveFromStart(s, acts, t);
  }

  // ---------- without that the takeover can let two processes in ----------

  lemma {:induction false} Then(s: State, acts: seq<Action>, t: State, a: Action, u: State)
    requires Run(s, acts) == Some(t) && Do(t, a) == Some(u)
    ensures Run(s, acts + [a]) == Some(u)
    decreases |acts|
  {
    if acts == [] {
      assert ([] + [a])[1..] == [];
    } else {
      assert (acts + [a])[1..] == acts[1..] + [a];
      Then(Do(s, acts[0]).value, acts[1..], t, a, u);
    }
  }

  /** A process, from the start of its attempt up to the unlink of the stale lock. */
  function Racing(serial: nat, phase: Phase, at: int): Proc {
    Proc(phase, serial, STILL, at, false)
  }

  function Three(file: Option<LockFile>, x: Proc, y: Proc, z: Proc, now: int): State {
    State(file, [x, y, z], now, 300)
  }

  /**
    Such a takeover can happen: a process stops inside the lock, two others find its file stale, the first takes over, and
    the second then unlinks the first one's lock and takes over too.
   */
  lemma {:induction false} StaleTakeoverRace() returns (s: State, acts: seq<Action>, t: State)
    ensures Initial(s) && Run(s, acts) == Some(t) && !Exclusive(t)
  {
    var dead := Proc(Dead, 1, STILL, 0, false);
    var left := Some(LockFile(Token(0, 1), Some(Token(0, 1)), 0));
    var idle := Racing(0, Idle, 0);
    s := Three(None, idle, idle, idle, 0);
    acts := [];
    var u := AbandonedLock(s, idle, dead, left);
    acts := [Start(0), Create(0), WriteToken(0), Crash(0), Tick(301)];
    var v, seen := BothSeeStale(s, acts, u, dead, idle, left);
    t, acts := BothTakeOver(s, seen, v, dead, left);
    assert Has(t, 1) && Has(t, 2);
  }

  lemma {:induction false} AbandonedLock(s: State, idle: Proc, dead: Proc, left: Option<LockFile>) returns (u: State)
    requires idle == Racing(0, Idle, 0) && s == Three(None, idle, idle, idle, 0)
    requires dead == Proc(Dead, 1, STILL, 0, false) && left == Some(LockFile(Token(0, 1), Some(Token(0, 1)), 0))
    ensures u == Three(left, dead, idle, idle, 301)
    ensures Run(s, [Start(0), Create(0), WriteToken(0), Crash(0), Tick(301)]) == Some(u)
  {
    var s1 := Three(None, Racing(1, Trying, 0), idle, idle, 0);
    var s2 := Three(Some(LockFile(Token(0, 1), None, 0)), Racing(1, Created, 0), idle, idle, 0);
    var s3 := Three(left, Racing(1, Inside, 0), idle, idle, 0);
    var s4 := Three(left, dead, idle, idle, 0);
    u := Three(left, dead, idle, idle, 301);
    assert s1.procs == s.procs[0 := Racing(1, Trying, 0)];
    Then(s, [], s, Start(0), s1);
    assert s2.procs == s1.procs[0 := Racing(1, Created, 0)];
    Then(s, [Start(0)], s1, Create(0), s2);
    assert s3.procs == s2.procs[0 := Racing(1, Inside, 0)];
    Then(s, [Start(0), Create(0)], s2, WriteToken(0), s3);
    assert s4.procs == s3.procs[0 := dead];
    Then(s, [Start(0), Create(0), WriteToken(0)], s3, Crash(0), s4);
    Then(s, [Start(0), Create(0), WriteToken(0), Crash(0)], s4, Tick(301), u);
  }

  /** Start, fail to create, and find the file stale. */
  lemma {:induction false} SeesStale(s: State, acts: seq<Action>, u: State, p: nat) returns (v: State, more: seq<Action>)
    requires Run(s, acts) == Some(u) && LooksStale(u) && p < |u.procs| && u.procs[p] == Racing(0, Idle, 0)
    ensures v == With(u, p, Racing(1, SawStale, u.now)) && Run(s, more) == Some(v)
  {
    var u1 := With(u, p, Racing(1, Trying, u.now));
    var u2 := With(u, p, Racing(1, Busy, u.now));
    v := With(u, p, Racing(1, SawStale, u.now));
    assert u2.procs == u1.procs[p := Racing(1, Busy, u.now)] && v.procs == u2.procs[p := Racing(1, SawStale, u.now)];
    Then(s, acts, u, Start(p), u1);
    Then(s, acts + [Start(p)], u1, Create(p), u2);
    Then(s, acts + [Start(p)] + [Create(p)], u2, Stat(p), v);
    more := acts + [Start(p)] + [Create(p)] + [Stat(p)];
  }

  lemma {:induction false} BothSeeStale(s: State, acts: seq<Action>, u: State, dead: Proc, idle: Proc, left: Option<LockFile>)
    returns (v: State, more: seq<Action>)
    requires Run(s, acts) == Some(u) && u == Three(left, dead, idle, idle, 301) && idle == Racing(0, Idle, 0) && LooksStale(u)
    ensures v == Three(left, dead, Racing(1, SawStale, 301), Racing(1, SawStale, 301), 301) && Run(s, more) == Some(v)
  {
    var w, mid := SeesStale(s, acts, u, 1);
    v, more := SeesStale(s, mid, w, 2);
    assert v.procs == [dead, Racing(1, SawStale, 301), Racing(1, SawStale, 301)];
  }

  /** Unlink, create, write the token. */
  lemma {:induction false} TakesOver(s: State, acts: seq<Action>, u: State, p: nat) returns (v: State, more: seq<Action>)
    requires Run(s, acts) == Some(u) && p < |u.procs| && u.procs[p] == Racing(1, SawStale, u.now)
    ensures v == With(u, p, Racing(1, Inside, u.now)).(file := Some(LockFile(Token(p, 1), Some(Token(p, 1)), u.now)))
    ensures Run(s, more) == Some(v)
  {
    var mine := LockFile(Token(p, 1), None, u.now);
    var u1 := With(u, p, Racing(1, Trying, u.now)).(file := None);
    var u2 := With(u, p, Racing(1, Created, u.now)).(file := Some(mine));
    v := With(u, p, Racing(1, Inside, u.now)).(file := Some(mine.(content := Some(Token(p, 1)))));
    assert u2.procs == u1.procs[p := Racing(1, Created, u.now)] && v.procs == u2.procs[p := Racing(1, Inside, u.now)];
    Then(s, acts, u, UnlinkStale(p), u1);
    Then(s, acts + [UnlinkStale(p)], u1, Create(p), u2);
    Then(s, acts + [UnlinkStale(p)] + [Create(p)], u2, WriteToken(p), v);
    more := acts + [UnlinkStale(p)] + [Create(p)] + [WriteToken(p)];
  }

  lemma {:induction false} BothTakeOver(s: State, acts: seq<Action>, v: State, dead: Proc, left: Option<LockFile>)
    returns (t: State, more: seq<Action>)
    requires Run(s, acts) == Some(v) && v == Three(left, dead, Racing(1, SawStale, 301), Racing(1, SawStale, 301), 301)
    ensures Run(s, more) == Some(t) && |t.procs| == 3 && Has(t, 1) && Has(t, 2)
  {
    var w, mid := TakesOver(s, acts, v, 1);
    t, more := TakesOver(s, mid, w, 2);
  }
}
