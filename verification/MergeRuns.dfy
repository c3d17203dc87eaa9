/**
  A Provider merge as one run: its own manifest, the config transaction, and the reference files its participant
  rewrites (`apply_provider_merge` and `rollback_provider_merge`).

  The environment of the transaction is that of the config file, except for the participant's calls: what these do is what
  the participant does to the reference files at that time.
 */
module MergeRuns {
  import opened Wrappers
  import opened Transaction
  import opened MultiFile

  // ---------- the config file and the reference files behind a failed run ----------

  /** The write of the new config reached the file. */
  predicate WroteConfig(forward: seq<Call>) {
    |forward| >= 2 && forward[1].leaves.Some?
  }

  lemma {:induction false} ForwardDisk(before: Bytes, after: Bytes, forward: seq<Call>, at: Stop, rec: Recovery, calls: seq<Call>)
    requires FailedAt(after, 1, forward, at) && calls == forward + rec.Calls()
    requires AllLawful(before, calls) && Untouched(calls) && RollsBack(rec.rollbacks, Reached(1, at))
    ensures Disk(before, forward + rec.rollbacks) == if WroteConfig(forward) then after else before
  {
    var start := forward + rec.rollbacks;
    TailOf(forward, rec);
    LawfulAppend(before, start, rec.Tail());
    forall p | 0 <= p < |start| && p != 1 ensures start[p].leaves.None? {
      StartLeaves(before, after, forward, at, rec, calls, p);
    }
    SecondCall(before, after, forward, at, rec.rollbacks);
    if WroteConfig(forward) {
      DiskAt(before, start, 1, after);
    } else {
      DiskFrom(before, start, 0);
    }
  }

  /** Only the second call of a run can write the new config; a shorter run has no rollbacks. */
  lemma {:induction false} SecondCall(before: Bytes, after: Bytes, forward: seq<Call>, at: Stop, rollbacks: seq<Call>)
    requires FailedAt(after, 1, forward, at) && AllLawful(before, forward + rollbacks) && |rollbacks| == Reached(1, at)
    ensures var start := forward + rollbacks;
      if WroteConfig(forward) then |start| >= 2 && start[1].leaves == Some(after) else |start| >= 2 ==> start[1].leaves.None?
  {
    var start := forward + rollbacks;
    if |forward| >= 2 {
      OpsArePrefix(after, at, OpsUpTo(after, 1, at));
      assert start[1] == forward[1] && forward[1].op == FullOps(after)[1] && Lawful(start[1], Disk(before, start[..1]));
    } else {
      ShortRun(after, forward, at);
    }
  }

  lemma {:induction false} ShortRun(after: Bytes, forward: seq<Call>, at: Stop)
    requires FailedAt(after, 1, forward, at) && |forward| < 2
    ensures Reached(1, at) == 0
  {
    ReachedExactly(after, 1, forward, at, 0);
  }

  lemma {:induction false} StartLeaves(before: Bytes, after: Bytes, forward: seq<Call>, at: Stop, rec: Recovery, calls: seq<Call>,
                                       p: nat)
    requires FailedAt(after, 1, forward, at) && calls == forward + rec.Calls() && Untouched(calls)
    requires AllLawful(before, forward + rec.rollbacks) && RollsBack(rec.rollbacks, Reached(1, at))
    requires p < |forward + rec.rollbacks| && p != 1
    ensures (forward + rec.rollbacks)[p].leaves.None?
  {
    var start := forward + rec.rollbacks;
    TailOf(forward, rec);
    assert calls[p] == start[p] && Lawful(start[p], Disk(before, start[..p]));
    if p < |forward| {
      OpsArePrefix(after, at, OpsUpTo(after, 1, at));
      assert start[p].op == FullOps(after)[p];
    }
  }

  predicate ConfigBack(before: Bytes, after: Bytes, forward: seq<Call>, rec: Recovery) {
    !WroteConfig(forward) || before == after || WriteLanded(rec.restore)
  }

  // ---------- the participant's calls on the files ----------

  /** The participant and its files in front of the transaction; `checking` for that of the rollback. */
  datatype Host = Host(faults: nat -> Fault, plan: seq<Target>, checking: bool, start: RefState)

  /** What a call of the transaction does with them. */
  function Play(h: Host, s: RefState, op: Op): Played {
    match op
    case Apply(_) =>
      if s.written != [] then Played(s, false)
      else if h.checking then WroteLooking(h.faults, s, h.plan)
      else PlayApply(h.faults, h.plan, s)
    case Verify(_) => PlayVerify(h.faults, h.plan, s)
    case Rollback(_) => PlayRollback(h.faults, s)
    case _ => Played(s, false)
  }

  function RefAfter(h: Host, calls: seq<Call>): RefState {
    if calls == [] then h.start else Play(h, RefAfter(h, Front(calls)), Last(calls).op).state
  }

  /** The environment with this participant in it: `env` says what happens to the other calls, by their number. */
  function Hosting(env: nat -> Fault, h: Host): Environment {
    (calls: seq<Call>, op: Op) =>
      if IsParticipant(op) then Fault(Play(h, RefAfter(h, calls), op).raised, false, None) else env(|calls|)
  }

  lemma {:induction false} RefAfterSnoc(h: Host, calls: seq<Call>, i: nat)
    requires i < |calls|
    ensures RefAfter(h, calls[..i + 1]) == Play(h, RefAfter(h, calls[..i]), calls[i].op).state
  {
    assert Front(calls[..i + 1]) == calls[..i];
  }

  /** The participant's calls of a log end as the participant ends them. */
  lemma {:induction false} ChosenAt(env: nat -> Fault, h: Host, base: Bytes, calls: seq<Call>, i: nat)
    requires AllChosen(Hosting(env, h), base, calls) && i < |calls|
    ensures if IsParticipant(calls[i].op)
            then calls[i].raised == Play(h, RefAfter(h, calls[..i]), calls[i].op).raised && calls[i].leaves.None?
            else calls[i] == Outcome(calls[i].op, env(i), Disk(base, calls[..i]))
  {
    assert Chosen(Hosting(env, h), base, calls, i);
  }

  lemma {:induction false} PlayStep(h: Host, s: RefState, c: Call)
    requires Distinct(h.plan) && (IsParticipant(c.op) ==> c.raised == Play(h, s, c.op).raised)
    ensures RefStep(h.plan, c, s, Play(h, s, c.op).state)
  {
    match c.op
    case Apply(_) =>
      if s.written == [] {
        PlayApplyLaw(h.faults, h.plan, s);
        PlayLookingLaw(h.faults, h.plan, s);
      }
    case Verify(_) => PlayVerifyLaw(h.faults, h.plan, s);
    case Rollback(_) => PlayRollbackLaw(h.faults, s);
    case _ =>
  }

  ghost function StatesOf(h: Host, calls: seq<Call>): (states: seq<RefState>)
    ensures |states| == |calls| + 1
    ensures forall p :: 0 <= p <= |calls| ==> states[p] == RefAfter(h, calls[..p])
  {
    assert calls[..|calls|] == calls;
    if calls == [] then [h.start]
    else
      var front := StatesOf(h, Front(calls));
      assert forall p :: 0 <= p < |calls| ==> Front(calls)[..p] == calls[..p];
      front + [RefAfter(h, calls)]
  }

  /** So the files go from call to call as the participant's laws say. */
  lemma {:induction false} LogFollows(env: nat -> Fault, h: Host, base: Bytes, calls: seq<Call>)
    requires AllChosen(Hosting(env, h), base, calls) && Distinct(h.plan)
    ensures Follows(h.plan, calls, StatesOf(h, calls)) && Untouched(calls)
    ensures StatesOf(h, calls)[0] == h.start && Last(StatesOf(h, calls)) == RefAfter(h, calls)
  {
    var states := StatesOf(h, calls);
    forall p | 0 <= p < |calls| ensures RefStep(h.plan, calls[p], states[p], states[p + 1]) {
      ChosenAt(env, h, base, calls, p);
      PlayStep(h, states[p], calls[p]);
      RefAfterSnoc(h, calls, p);
    }
    forall p | 0 <= p < |calls| && IsParticipant(calls[p].op) ensures calls[p].leaves.None? {
      ChosenAt(env, h, base, calls, p);
    }
    assert calls[..|calls|] == calls;
  }

  /** The calls of a log, made on the files by the participant. */
  method Replay(calls: seq<Call>, p: ReferenceParticipant, files: Files, ghost h: Host, checking: bool)
    requires Distinct(p.plan) && h == Host(files.oracle, p.plan, checking, RefState(files.content, p.written, files.clock))
    modifies p, files
    ensures RefState(files.content, p.written, files.clock) == RefAfter(h, calls)
  {
    for i := 0 to |calls|
      invariant RefState(files.content, p.written, files.clock) == RefAfter(h, calls[..i])
    {
      RefAfterSnoc(h, calls, i);
      var raised := PlayCall(calls[i].op, p, files, h, checking);
    }
    assert calls[..|calls|] == calls;
  }

  method PlayCall(op: Op, p: ReferenceParticipant, files: Files, ghost h: Host, checking: bool) returns (raised: bool)
    requires Distinct(p.plan) && h.faults == files.oracle && h.plan == p.plan && h.checking == checking
    modifies p, files
    ensures Played(RefState(files.content, p.written, files.clock), raised) ==
            Play(h, old(RefState(files.content, p.written, files.clock)), op)
  {
    match op {
      case Apply(_) =>
        if p.written != [] {
          return false;
        } else if checking {
          raised := p.ApplyChecking(files);
        } else {
          raised := p.Apply(files);
        }
      case Verify(_) => raised := p.Verify(files);
      case Rollback(_) => raised := p.Rollback(files);
      case _ => raised := false;
    }
  }

  // ---------- how a run ends ----------

  datatype Ending = Refusal | Success | Failure(forward: seq<Call>, at: Stop, rec: Recovery)

  /** The log says so: it is empty, or all of it succeeded, or one call raised and the rest compensated. */
  ghost predicate EndsIn(e: Ending, entry: Entry, before: Bytes, after: Bytes, log: seq<Call>) {
    match e
    case Refusal => !Admitted(entry, before, before) && log == []
    case Success => Admitted(entry, before, before) && Succeeded(after, 1, log)
    case Failure(forward, at, rec) =>
      && Admitted(entry, before, before) && log == forward + rec.Calls() && FailedAt(after, 1, forward, at)
      && Compensates(rec, Reached(1, at), before, PhaseAt(at), Loaded(at), Disk(before, forward + rec.rollbacks))
  }

  /** The reference files that keep their new bytes: rollback was called, and a write in front of theirs raised. */
  function LeftBehind(h: Host, e: Ending): seq<Target> {
    if e.Failure? && Reached(1, e.at) == 1 then
      var s := RefAfter(h, e.forward);
      s.written[..Unreached(h.faults, |s.written|, s.clock)]
    else []
  }

  /** The faults under which the files of a merge that raised are what they were before it. */
  predicate FilesBack(h: Host, before: Bytes, after: Bytes, e: Ending) {
    (e.Failure? ==> ConfigBack(before, after, e.forward, e.rec)) && Changeless(LeftBehind(h, e))
  }

  /**
    What a failed merge leaves.  The config file holds the old bytes if and only if the new ones never reached it, were
    the same, or were overwritten by the restoring write; the reference files hold theirs if and only if rollback came to
    every one it had to change.
   */
  lemma {:induction false} FailedMerge(env: nat -> Fault, h: Host, entry: Entry, before: Bytes, after: Bytes, log: seq<Call>, e: Ending)
    requires e.Failure? && EndsIn(e, entry, before, after, log) && AllLawful(before, log)
    requires AllChosen(Hosting(env, h), before, log) && Distinct(h.plan) && h.start.written == []
    ensures Disk(before, log) == before <==> ConfigBack(before, after, e.forward, e.rec)
    ensures RefAfter(h, log).content == PutAll(h.start.content, LeftBehind(h, e)) && LeftBehind(h, e) <= h.plan
    ensures RefAfter(h, log).content == h.start.content <==> Changeless(LeftBehind(h, e))
  {
    LogFollows(env, h, before, log);
    ForwardDisk(before, after, e.forward, e.at, e.rec, log);
    RestoredExactly(before, e.forward, e.rec, log, Reached(1, e.at), PhaseAt(e.at), Loaded(e.at));
    CallsOf(entry, before, after, log, e);
    FilesLeft(h, log, e);
    PutAllChanges(h.start.content, LeftBehind(h, e));
  }

  /** The participant's calls in the log of a failure. */
  lemma {:induction false} CallsOf(entry: Entry, before: Bytes, after: Bytes, log: seq<Call>, e: Ending)
    requires e.Failure? && EndsIn(e, entry, before, after, log)
    ensures CalledAt(log, |e.forward|, Reached(1, e.at)) && RollsBack(e.rec.rollbacks, Reached(1, e.at)) && Reached(1, e.at) <= 1
    ensures Reached(1, e.at) == 0 ==> |e.forward| <= 5
  {
    ParticipantCalls(before, after, e.forward, e.at, e.rec, log, Disk(before, e.forward + e.rec.rollbacks));
    FailedOps(after, e.forward, e.at, 0);
  }

  lemma {:induction false} FilesLeft(h: Host, log: seq<Call>, e: Ending)
    requires e.Failure? && log == e.forward + e.rec.Calls() && Reached(1, e.at) <= 1 && (Reached(1, e.at) == 0 ==> |e.forward| <= 5)
    requires CalledAt(log, |e.forward|, Reached(1, e.at)) && RollsBack(e.rec.rollbacks, Reached(1, e.at))
    requires Follows(h.plan, log, StatesOf(h, log)) && Distinct(h.plan) && h.start.written == []
    ensures RefAfter(h, log).content == PutAll(h.start.content, LeftBehind(h, e)) && LeftBehind(h, e) <= h.plan
    ensures At(h.start.content, LeftBehind(h, e)) && Distinct(LeftBehind(h, e))
  {
    assert log[..|log|] == log;
    if Reached(1, e.at) == 0 {
      NeverCalled(h, log, |e.forward|);
    } else {
      RolledBackFiles(h, log, e, |e.forward|);
      IdleBehind(h, log, |e.forward| + 1);
    }
  }

  lemma {:induction false} NeverCalled(h: Host, log: seq<Call>, n: nat)
    requires Follows(h.plan, log, StatesOf(h, log)) && CalledAt(log, n, 0) && n <= 5
    ensures Last(StatesOf(h, log)).content == h.start.content == PutAll(h.start.content, [])
  {
    assert log[..0] == [];
    Idle(h.plan, log, StatesOf(h, log), 0, |log|);
  }

  lemma {:induction false} IdleBehind(h: Host, log: seq<Call>, n: nat)
    requires 0 < n <= |log| && Follows(h.plan, log, StatesOf(h, log)) && CalledAt(log, n - 1, 1)
    ensures Last(StatesOf(h, log)).content == StatesOf(h, log)[n].content
  {
    Idle(h.plan, log, StatesOf(h, log), n, |log|);
  }

  lemma {:induction false} RolledBackFiles(h: Host, log: seq<Call>, e: Ending, n: nat)
    requires e.Failure? && log == e.forward + e.rec.Calls() && n == |e.forward| && RollsBack(e.rec.rollbacks, 1) && Reached(1, e.at) == 1
    requires Follows(h.plan, log, StatesOf(h, log)) && CalledAt(log, n, 1) && Distinct(h.plan) && h.start.written == []
    ensures n < |log| && StatesOf(h, log)[n + 1].content == PutAll(h.start.content, LeftBehind(h, e))
    ensures LeftBehind(h, e) <= h.plan && At(h.start.content, LeftBehind(h, e)) && Distinct(LeftBehind(h, e))
  {
    assert log[n] == e.rec.rollbacks[0] && log[..n] == e.forward && log[..0] == [];
    WrittenAt(h.plan, log, StatesOf(h, log), n);
    RefAfterSnoc(h, log, n);
    PutBackSome(h, RefAfter(h, e.forward));
  }

  /** Rollback leaves the files that it does not come to. */
  lemma {:induction false} PutBackSome(h: Host, s: RefState)
    requires Distinct(s.written) && At(h.start.content, s.written) && s.content == PutAll(h.start.content, s.written)
    ensures var left := s.written[..Unreached(h.faults, |s.written|, s.clock)];
      PlayRollback(h.faults, s).state.content == PutAll(h.start.content, left) && At(h.start.content, left) && Distinct(left)
  {
    PutBackPart(h.start.content, s.written, Unreached(h.faults, |s.written|, s.clock));
  }

  /** The transaction of a merge, or of its rollback, with its participant on the files. */
  method RunMerge(env: nat -> Fault, first: Manifest, files: Files, p: ReferenceParticipant, before: Bytes, after: Bytes, entry: Entry,
                  checking: bool)
    returns (world: World, r: Transaction.Result, h: Host, ghost e: Ending)
    requires p.written == [] && Distinct(p.plan)
    modifies files, p
    ensures fresh(world) && world.Valid() && world.base == before && world.first == first && world.oracle == Hosting(env, h)
    ensures h == Host(files.oracle, p.plan, checking, RefState(old(files.content), [], old(files.clock)))
    ensures RefState(files.content, p.written, files.clock) == RefAfter(h, world.log)
    ensures EndsIn(e, entry, before, after, world.log) && (r.Refused? <==> e.Refusal?) && (r.Finished? <==> e.Success?)
    ensures e.Success? ==>
      world.config == after && At(old(files.content), p.plan) && files.content == PutAll(old(files.content), p.plan)
    ensures !e.Success? ==> files.content == PutAll(old(files.content), LeftBehind(h, e)) && LeftBehind(h, e) <= p.plan
    ensures !e.Success? ==> (files.content == old(files.content) <==> Changeless(LeftBehind(h, e)))
    ensures !e.Success? ==> (world.config == before <==> (e.Failure? ==> ConfigBack(before, after, e.forward, e.rec)))
    ensures !e.Success? && (e.Refusal? || StatusOf(e.rec) == RolledBack) ==>
      world.config == before && files.content == old(files.content)
  {
    h := Host(files.oracle, p.plan, checking, RefState(files.content, [], files.clock));
    world := new World(Hosting(env, h), before, first);
    ghost var forward, at, rec, disk;
    r, forward, at, rec, disk := ApplyOperatorConfigTransaction(world, before, after, 1, entry);
    e := if r.Refused? then Refusal else if r.Finished? then Success else Failure(forward, at, rec);
    Replay(world.log, p, files, h, checking);
    LogFollows(env, h, before, world.log);
    if r.Finished? {
      MergeCompleted(p.plan, before, after, world.log, StatesOf(h, world.log), first);
    } else if r.Raised? {
      FailedMerge(env, h, entry, before, after, world.log, e);
      if r.status == RolledBack {
        MergeRolledBack(p.plan, before, after, forward, at, rec, world.log, StatesOf(h, world.log), first);
      }
    }
  }

  /** The reference files are not the manifest. */
  lemma {:induction false} ManifestKept(f: Content, plan: seq<Target>, left: seq<Target>, manifest: Path)
    requires left <= plan && manifest in f && forall i :: 0 <= i < |plan| ==> plan[i].path != manifest
    ensures manifest in PutAll(f, left) && PutAll(f, left)[manifest] == f[manifest]
  {
    PutAllElsewhere(f, left, manifest);
  }

  lemma {:induction false} Elsewhere(f: Content, applied: Bytes, behind: Content, g: Content, manifest: Path)
    requires manifest in behind && behind[manifest] == applied
    requires manifest in g && g == behind[manifest := g[manifest]]
    ensures SameElsewhere(f, g, manifest) <==> behind == f[manifest := applied]
  {
    if SameElsewhere(f, g, manifest) {
      var h := f[manifest := applied];
      forall q: Path ensures (q in behind <==> q in h) && (q in behind ==> behind[q] == h[q]) {
        assert q != manifest ==> (q in g <==> q in behind);
      }
      assert behind == h;
    }
  }

  /** The two contents hold the same under every path but this one. */
  ghost predicate SameElsewhere(f: Content, g: Content, path: Path) {
    forall q: Path :: q != path ==> (q in f <==> q in g) && (q in f ==> f[q] == g[q])
  }

  // ---------- the merge's own manifest ----------

  /** Reading the manifest and writing it back, from time `t` on, leaves the new one on disk. */
  predicate Noted(oracle: nat -> Fault, t: nat) {
    !oracle(t).raises && (!oracle(t + 1).raises || oracle(t + 1).takesEffect)
  }

  /** The `except` block of `apply_provider_merge`: the manifest's status becomes `rolled_back`. */
  method NoteRolledBack(files: Files, manifest: Path, mark: Bytes -> Bytes)
    requires manifest in files.content
    modifies files
    ensures files.content ==
      if Noted(files.oracle, old(files.clock)) then old(files.content)[manifest := mark(old(files.content)[manifest])]
      else old(files.content)
  {
    var raised, bytes := files.Read(manifest);
    if !raised {
      raised := files.WriteConfigFile(manifest, mark(bytes));
    }
  }

  /** Besides the manifest, the files are as before exactly if they were so behind the transaction. */
  method MarkRolledBack(files: Files, ghost f: Content, manifest: Path, ghost applied: Bytes, mark: Bytes -> Bytes)
    requires manifest in files.content && files.content[manifest] == applied
    modifies files
    ensures manifest in files.content
    ensures files.content[manifest] == (if Noted(files.oracle, old(files.clock)) then mark(applied) else applied)
    ensures SameElsewhere(f, files.content, manifest) <==> old(files.content) == f[manifest := applied]
  {
    ghost var behind := files.content;
    NoteRolledBack(files, manifest, mark);
    Elsewhere(f, applied, behind, files.content, manifest);
  }

  datatype MergeOutcome = NotStarted | MergeApplied | MergeRaised

  /**
    `apply_provider_merge`, from the manifest on.  `e` is how the log of its transaction ends, and `RefAfter(h, world.log)`
    the state of its reference files then.  A merge that raises marks its manifest as rolled back if and only if the manifest
    could be read and written at that time; that is true of the files if and only if `FilesBack` holds.
   */
  method ApplyProviderMerge(env: nat -> Fault, first: Manifest, files: Files, p: ReferenceParticipant, manifest: Path, applied: Bytes,
                            mark: Bytes -> Bytes, before: Bytes, after: Bytes, entry: Entry)
    returns (o: MergeOutcome, world: World, h: Host, ghost e: Ending)
    requires p.written == [] && Distinct(p.plan) && forall i :: 0 <= i < |p.plan| ==> p.plan[i].path != manifest
    modifies files, p
    ensures fresh(world) && world.Valid() && world.base == before && world.oracle == Hosting(env, h)
    ensures o.NotStarted? <==> files.oracle(old(files.clock)).raises
    ensures o.NotStarted? ==> world.log == []
    ensures o.NotStarted? ==>
      files.content == (if Late(files.oracle, old(files.clock)) then old(files.content)[manifest := applied] else old(files.content))
    ensures h == Host(files.oracle, p.plan, false, RefState(old(files.content)[manifest := applied], [], old(files.clock) + 1))
    ensures !o.NotStarted? ==> EndsIn(e, entry, before, after, world.log) && (o.MergeApplied? <==> e.Success?)
    ensures o.MergeApplied? ==>
      && world.config == after && At(h.start.content, p.plan) && files.content == PutAll(h.start.content, p.plan)
    ensures o.MergeRaised? ==> manifest in files.content
    ensures o.MergeRaised? ==>
      files.content[manifest] == (if Noted(files.oracle, RefAfter(h, world.log).clock) then mark(applied) else applied)
    ensures o.MergeRaised? && mark(applied) != applied ==>
      (files.content[manifest] == mark(applied) <==> Noted(files.oracle, RefAfter(h, world.log).clock))
    ensures o.MergeRaised? ==>
      (world.config == before && SameElsewhere(old(files.content), files.content, manifest) <==> FilesBack(h, before, after, e))
  {
    e := Refusal;
    h := Host(files.oracle, p.plan, false, RefState(files.content[manifest := applied], [], files.clock + 1));
    var raised := files.WriteConfigFile(manifest, applied);
    if raised {
      world := new World(Hosting(env, h), before, first);
      return NotStarted, world, h, e;
    }
    var r;
    world, r, h, e := RunMerge(env, first, files, p, before, after, entry, false);
    if r.Finished? {
      return MergeApplied, world, h, e;
    }
    o := MergeRaised;
    ManifestKept(h.start.content, p.plan, LeftBehind(h, e), manifest);
    MarkRolledBack(files, old(files.content), manifest, applied, mark);
  }

  // ---------- a manifest that is wrong ----------

  /** Validation fails, and so does the write that should bring the old bytes back. */
  function TwoFaults(): nat -> Fault {
    i => Fault(i == 2 || i == 4, false, None)
  }

  /**
    The manifest can be wrong: under these faults of the config file, and none of the others, every merge ends with its
    manifest marked as rolled back while the config file keeps the new bytes.
   */
  method FalselyRolledBack(plan: seq<Target>, content: Content, manifest: Path, applied: Bytes, mark: Bytes -> Bytes, first: Manifest,
                           before: Bytes, after: Bytes)
    returns (o: MergeOutcome, world: World, files: Files)
    requires before != after && Distinct(plan) && forall i :: 0 <= i < |plan| ==> plan[i].path != manifest
    ensures o.MergeRaised? && manifest in files.content && files.content[manifest] == mark(applied)
    ensures world.base == before && world.config == after && world.manifest.status == RollbackFailed
  {
    files := new Files(t => Fault(false, false, None), content);
    var p := new ReferenceParticipant(plan);
    var h;
    ghost var e;
    var entry := Entry(true, true, true, true);
    o, world, h, e := ApplyProviderMerge(TwoFaults(), first, files, p, manifest, applied, mark, before, after, entry);
    FaultyLog(h, entry, before, after, world.log, e);
  }

  lemma {:induction false} Faulty(h: Host, before: Bytes, after: Bytes, log: seq<Call>, i: nat)
    requires AllChosen(Hosting(TwoFaults(), h), before, log) && i < |log| && i <= 2 && log[i].op == FullOps(after)[i]
    ensures log[i].raised <==> i == 2
  {
    ChosenAt(TwoFaults(), h, before, log, i);
  }

  lemma {:induction false} FaultyForward(h: Host, entry: Entry, before: Bytes, after: Bytes, log: seq<Call>, e: Ending)
    requires Admitted(entry, before, before) && EndsIn(e, entry, before, after, log)
    requires AllChosen(Hosting(TwoFaults(), h), before, log)
    ensures e.Failure? && |e.forward| == 3 && e.at == AtPrologue(2)
  {
    if e.Success? {
      FullOpsParts(after);
      assert Prologue(after) + Rounds(1) + Epilogue() == FullOps(after);
      Faulty(h, before, after, log, 2);
    } else {
      assert forall i :: 0 <= i < |e.forward| ==> log[i] == e.forward[i];
      FaultyStop(h, before, after, log, e.forward, e.at);
    }
  }

  lemma {:induction false} FaultyStop(h: Host, before: Bytes, after: Bytes, log: seq<Call>, forward: seq<Call>, at: Stop)
    requires FailedAt(after, 1, forward, at) && |forward| <= |log| && forall i :: 0 <= i < |forward| ==> log[i] == forward[i]
    requires AllChosen(Hosting(TwoFaults(), h), before, log)
    ensures |forward| == 3 && at == AtPrologue(2)
  {
    var m := |forward| - 1;
    OpsArePrefix(after, at, OpsUpTo(after, 1, at));
    assert m > 2 ==> Front(forward)[2] == log[2];
    if m < 2 {
      Faulty(h, before, after, log, m);
    } else if m > 2 {
      Faulty(h, before, after, log, 2);
    } else {
      StopOf(after, at);
    }
  }

  lemma {:induction false} StopOf(after: Bytes, at: Stop)
    requires Within(1, at) && |OpsUpTo(after, 1, at)| == 3
    ensures at == AtPrologue(2)
  {
  }

  lemma {:induction false} FaultyTail(h: Host, before: Bytes, after: Bytes, log: seq<Call>, forward: seq<Call>, rec: Recovery)
    requires before != after && log == forward + rec.Calls() && FailedAt(after, 1, forward, AtPrologue(2)) && |forward| == 3
    requires AllChosen(Hosting(TwoFaults(), h), before, log)
    requires Compensates(rec, 0, before, ValidatePhase, false, Disk(before, forward + rec.rollbacks))
    ensures Disk(before, log) == after
    ensures forall first :: ManifestOn(first, log).status == RollbackFailed
  {
    var ops := OpsUpTo(after, 1, AtPrologue(2));
    assert ops == [AssertOwned, WriteConfig(after), Validate];
    assert rec.rollbacks == [] && forward + rec.rollbacks == forward;
    FaultyStart(h, before, after, log, forward);
    assert rec.Calls() == [rec.readback] + rec.restore + rec.reload + [rec.manifest];
    assert log[3] == rec.readback;
    assert log[4] == rec.restore[0];
    FaultyRestore(h, before, after, log, rec);
    assert log == forward + [rec.readback, rec.restore[0], rec.manifest];
    ChosenAt(TwoFaults(), h, before, log, 5);
    DiskAt(before, log, 1, after);
  }

  lemma {:induction false} FaultyRestore(h: Host, before: Bytes, after: Bytes, log: seq<Call>, rec: Recovery)
    requires before != after && AllChosen(Hosting(TwoFaults(), h), before, log) && |log| > 4
    requires Repaired(rec, 0, before, false, after) && log[3] == rec.readback && log[4] == rec.restore[0]
    ensures |rec.restore| == 1 && rec.reload == [] && log[3].leaves.None? && log[4].leaves.None? && OfConfig in Blames(rec)
  {
    ChosenAt(TwoFaults(), h, before, log, 3);
    ChosenAt(TwoFaults(), h, before, log, 4);
    assert rec.restore[0].raised;
  }

  lemma {:induction false} FaultyStart(h: Host, before: Bytes, after: Bytes, log: seq<Call>, forward: seq<Call>)
    requires forward <= log && |forward| == 3 && AllChosen(Hosting(TwoFaults(), h), before, log)
    requires Made(forward, [AssertOwned, WriteConfig(after), Validate])
    ensures Disk(before, forward) == after && log[1].leaves == Some(after) && log[2].leaves.None?
  {
    ChosenAt(TwoFaults(), h, before, log, 1);
    ChosenAt(TwoFaults(), h, before, log, 2);
    DiskAt(before, forward, 1, after);
  }

  lemma {:induction false} FaultyLog(h: Host, entry: Entry, before: Bytes, after: Bytes, log: seq<Call>, e: Ending)
    requires before != after && Admitted(entry, before, before) && EndsIn(e, entry, before, after, log)
    requires AllChosen(Hosting(TwoFaults(), h), before, log)
    ensures e.Failure? && Disk(before, log) == after
    ensures forall first :: ManifestOn(first, log).status == RollbackFailed
  {
    FaultyForward(h, entry, before, after, log, e);
    FaultyTail(h, before, after, log, e.forward, e.rec);
  }

  // ---------- a merge and its rollback ----------

  /**
    A merge and then its rollback.  They restore the config file and every reference file byte for byte when both logs
    succeed, and `restored` says exactly whether they do.
   */
  method MergeAndRollBack(env: nat -> Fault, backEnv: nat -> Fault, first: Manifest, files: Files, p: ReferenceParticipant,
                          q: ReferenceParticipant, before: Bytes, after: Bytes, entry: Entry, again: Entry)
    returns (restored: bool, world: World, back: World, ghost e: Ending, ghost u: Ending)
    requires p != q && p.written == [] && Distinct(p.plan) && q.written == [] && q.plan == Swap(p.plan)
    modifies files, p, q
    ensures EndsIn(e, entry, before, after, world.log) && world.base == before
    ensures e.Success? ==> EndsIn(u, again, after, before, back.log) && back.base == after
    ensures restored <==> e.Success? && u.Success?
    ensures restored ==> world.config == after && back.config == before && files.content == old(files.content)
    ensures !restored && e.Success? && (u.Refusal? || StatusOf(u.rec) == RolledBack) ==>
      back.config == after && files.content == PutAll(old(files.content), p.plan)
  {
    ghost var f := files.content;
    var r, h;
    world, r, h, e := RunMerge(env, first, files, p, before, after, entry, false);
    back, u := world, Refusal;
    restored := r.Finished?;
    if restored {
      SwapUndoes(f, p.plan);
      back, r, h, u := RunMerge(backEnv, first, files, q, after, before, again, true);
      restored := r.Finished?;
    }
  }
}
