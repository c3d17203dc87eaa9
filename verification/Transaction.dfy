/**
  `apply_operator_config_transaction`: one config file, a runtime that is reloaded from it, a manifest and a list of
  participants, run against an environment that may fail at every call.

  The environment is a `World`.  Every call that leaves the process goes through it and is recorded in `log` with what
  it did: whether it raised, what it left in the config file, what the runtime read, which manifest reached the disk.
  An atomic write may raise before or after its replace; a participant may raise anywhere and may change the config
  file itself.
 */
module Transaction {
  import opened Wrappers

  newtype Byte = x: int | 0 <= x < 256
  type Bytes = seq<Byte>

  datatype Status = Prepared | Reloaded | Completed | RolledBack | RollbackFailed

  datatype Phase = NoPhase | WritePhase | ValidatePhase | ReloadPhase | ManifestReloadedPhase | ApplyPhase | VerifyPhase |
                   ManifestCompletedPhase

  /** What a rollback error names. */
  datatype Blame = OfParticipant(i: nat) | OfReadback | OfConfig | OfReload

  datatype Manifest = Manifest(status: Status, failurePhase: Phase, rollbackErrors: seq<Blame>)

  datatype Op =
    | AssertOwned
    | WriteConfig(payload: Bytes)
    | ReadConfig
    | Validate
    | Reload
    | WriteManifest(manifest: Manifest)
    | Apply(i: nat)
    | Verify(i: nat)
    | Rollback(i: nat)

  datatype Call = Call(op: Op, raised: bool, leaves: Option<Bytes>, loads: Option<Bytes>, writes: Option<Manifest>)

  predicate IsParticipant(op: Op) {
    op.Apply? || op.Verify? || op.Rollback?
  }

  // ---------- what a sequence of calls does ----------

  function Last<T>(s: seq<T>): T
    requires s != []
  {
    s[|s| - 1]
  }

  function Front<T>(s: seq<T>): seq<T>
    requires s != []
  {
    s[..|s| - 1]
  }

  /** The bytes of the config file behind the calls. */
  function Disk(base: Bytes, calls: seq<Call>): Bytes {
    if calls == [] then base else if Last(calls).leaves.Some? then Last(calls).leaves.value else Disk(base, Front(calls))
  }

  /** The bytes the runtime was last loaded from, if it was. */
  function Runtime(calls: seq<Call>): Option<Bytes> {
    if calls == [] then None else if Last(calls).loads.Some? then Last(calls).loads else Runtime(Front(calls))
  }

  function ManifestOn(first: Manifest, calls: seq<Call>): Manifest {
    if calls == [] then first
    else if Last(calls).writes.Some? then Last(calls).writes.value
    else ManifestOn(first, Front(calls))
  }

  /** What the environment may make of a call, the config file holding `disk`. */
  predicate Lawful(c: Call, disk: Bytes) {
    && (match c.op
        case WriteConfig(payload) => c.leaves == Some(payload) || (c.raised && c.leaves.None?)
        case _ => c.leaves.Some? ==> IsParticipant(c.op))
    && (if c.op.Reload? then c.loads == Some(disk) || (c.raised && c.loads.None?) else c.loads.None?)
    && (match c.op
        case WriteManifest(m) => c.writes == Some(m) || (c.raised && c.writes.None?)
        case _ => c.writes.None?)
  }

  ghost predicate AllLawful(base: Bytes, calls: seq<Call>) {
    forall i :: 0 <= i < |calls| ==> Lawful(calls[i], Disk(base, calls[..i]))
  }

  /** What the environment chooses for one call. */
  datatype Fault = Fault(raises: bool, takesEffect: bool, touches: Option<Bytes>)

  /** It may choose by everything that has been called before. */
  type Environment = (seq<Call>, Op) -> Fault

  /** What a call does then. */
  function Outcome(op: Op, fault: Fault, disk: Bytes): (c: Call)
    ensures Lawful(c, disk) && c.op == op && c.raised == fault.raises
  {
    var lands := !fault.raises || fault.takesEffect;
    Call(op, fault.raises,
         if op.WriteConfig? then (if lands then Some(op.payload) else None) else if IsParticipant(op) then fault.touches else None,
         if op.Reload? && lands then Some(disk) else None,
         if op.WriteManifest? && lands then Some(op.manifest) else None)
  }

  predicate Chosen(oracle: Environment, base: Bytes, calls: seq<Call>, i: nat)
    requires i < |calls|
  {
    calls[i] == Outcome(calls[i].op, oracle(calls[..i], calls[i].op), Disk(base, calls[..i]))
  }

  ghost predicate AllChosen(oracle: Environment, base: Bytes, calls: seq<Call>) {
    forall i: nat :: i < |calls| ==> Chosen(oracle, base, calls, i)
  }

  lemma {:induction false} ChosenSnoc(oracle: Environment, base: Bytes, calls: seq<Call>, c: Call)
    requires AllChosen(oracle, base, calls) && c == Outcome(c.op, oracle(calls, c.op), Disk(base, calls))
    ensures AllChosen(oracle, base, calls + [c])
  {
    var more := calls + [c];
    forall i: nat | i < |more| ensures Chosen(oracle, base, more, i) {
      assert more[..i] == calls[..i];
      assert calls[..|calls|] == calls;
      assert i < |calls| ==> Chosen(oracle, base, calls, i);
    }
  }

  lemma {:induction false} Snoc<T>(s: seq<T>, x: T)
    ensures Front(s + [x]) == s && Last(s + [x]) == x
  {
  }

  lemma {:induction false} LawfulSnoc(base: Bytes, calls: seq<Call>, c: Call)
    requires AllLawful(base, calls) && Lawful(c, Disk(base, calls))
    ensures AllLawful(base, calls + [c])
  {
    var more := calls + [c];
    forall i | 0 <= i < |more| ensures Lawful(more[i], Disk(base, more[..i])) {
      assert more[..i] == calls[..i];
      assert calls[..|calls|] == calls;
    }
  }

  // ---------- the environment ----------

  class World {
    const oracle: Environment
    ghost const base: Bytes
    ghost const first: Manifest
    var config: Bytes
    var runtime: Option<Bytes>
    var manifest: Manifest
    var log: seq<Call>

    constructor (oracle: Environment, config: Bytes, manifest: Manifest)
      ensures Valid() && log == [] && base == config && first == manifest && this.oracle == oracle
    {
      this.oracle := oracle;
      this.base := config;
      this.first := manifest;
      this.config := config;
      this.runtime := None;
      this.manifest := manifest;
      this.log := [];
    }

    ghost predicate Valid()
      reads this
    {
      && config == Disk(base, log) && runtime == Runtime(log) && manifest == ManifestOn(first, log)
      && AllLawful(base, log) && AllChosen(oracle, base, log)
    }

    /** One call: the environment chooses what becomes of it. */
    method Record(op: Op) returns (raised: bool)
      requires Valid()
      modifies this
      ensures Valid() && Called(old(log), op, raised)
    {
      var c := Outcome(op, oracle(log, op), config);
      raised := c.raised;
      Snoc(log, c);
      LawfulSnoc(base, log, c);
      ChosenSnoc(oracle, base, log, c);
      log := log + [c];
      if c.leaves.Some? {
        config := c.leaves.value;
      }
      if c.loads.Some? {
        runtime := c.loads;
      }
      if c.writes.Some? {
        manifest := c.writes.value;
      }
    }

    /** A call that changes nothing here: the ownership test and the validation of the persisted config. */
    method Check(op: Op) returns (raised: bool)
      requires Valid() && (op.AssertOwned? || op.Validate?)
      modifies this
      ensures Valid() && Called(old(log), op, raised)
    {
      raised := Record(op);
    }

    method Read() returns (raised: bool, bytes: Bytes)
      requires Valid()
      modifies this
      ensures Valid() && Called(old(log), ReadConfig, raised) && bytes == config == old(config)
    {
      bytes := config;
      raised := Record(ReadConfig);
    }

    /** `_strict_atomic_write` on the config file */
    method Write(payload: Bytes) returns (raised: bool)
      requires Valid()
      modifies this
      ensures Valid() && Called(old(log), WriteConfig(payload), raised)
    {
      raised := Record(WriteConfig(payload));
    }

    method ReloadConfig() returns (raised: bool)
      requires Valid()
      modifies this
      ensures Valid() && Called(old(log), Reload, raised)
    {
      raised := Record(Reload);
    }

    /** `_update_transaction_manifest` */
    method UpdateManifest(m: Manifest) returns (raised: bool)
      requires Valid()
      modifies this
      ensures Valid() && Called(old(log), WriteManifest(m), raised)
    {
      raised := Record(WriteManifest(m));
    }

    /** `participant.apply()`, `.verify()` or `.rollback()` */
    method Participant(op: Op) returns (raised: bool)
      requires Valid() && IsParticipant(op)
      modifies this
      ensures Valid() && Called(old(log), op, raised)
    {
      raised := Record(op);
    }

    ghost predicate Called(before: seq<Call>, op: Op, raised: bool)
      reads this
    {
      log != [] && log == before + [Last(log)] && Last(log).op == op && Last(log).raised == raised
    }
  }

  // ---------- the calls of the `try` block ----------

  /** The call a run stopped at: one of the five up to the first manifest, one of a participant's four, one of the last two. */
  datatype Stop = AtPrologue(step: nat) | AtRound(i: nat, step: nat) | AtEpilogue(step: nat)

  function Prologue(after: Bytes): seq<Op> {
    [AssertOwned, WriteConfig(after), Validate, Reload, WriteManifest(Manifest(Reloaded, NoPhase, []))]
  }

  function RoundOps(i: nat): seq<Op> {
    [AssertOwned, Apply(i), Verify(i), AssertOwned]
  }

  function Rounds(n: nat): seq<Op> {
    if n == 0 then [] else Rounds(n - 1) + RoundOps(n - 1)
  }

  function Epilogue(): seq<Op> {
    [AssertOwned, WriteManifest(Manifest(Completed, NoPhase, []))]
  }

  predicate Within(n: nat, at: Stop) {
    match at
    case AtPrologue(step) => step < 5
    case AtRound(i, step) => i < n && step < 4
    case AtEpilogue(step) => step < 2
  }

  /** The calls of a run up to and including the one it stopped at. */
  function OpsUpTo(after: Bytes, n: nat, at: Stop): seq<Op>
    requires Within(n, at)
  {
    match at
    case AtPrologue(step) => Prologue(after)[..step + 1]
    case AtRound(i, step) => UpToRound(after, i, step + 1)
    case AtEpilogue(step) => Prologue(after) + Rounds(n) + Epilogue()[..step + 1]
  }

  /** The calls in front of a call of a round. */
  function UpToRound(after: Bytes, i: nat, step: nat): seq<Op>
    requires step <= 4
  {
    Prologue(after) + Rounds(i) + RoundOps(i)[..step]
  }

  /** The phase the source reports for it. */
  function PhaseAt(at: Stop): Phase {
    match at
    case AtPrologue(step) =>
      if step < 2 then WritePhase else if step == 2 then ValidatePhase else if step == 3 then ReloadPhase
      else ManifestReloadedPhase
    case AtRound(_, step) => if step < 2 then ApplyPhase else VerifyPhase
    case AtEpilogue(_) => ManifestCompletedPhase
  }

  /** How many participants the loop has reached: the last one perhaps before its `apply` ran. */
  function Reached(n: nat, at: Stop): nat {
    match at
    case AtPrologue(_) => 0
    case AtRound(i, _) => i + 1
    case AtEpilogue(_) => n
  }

  predicate Made(calls: seq<Call>, ops: seq<Op>) {
    |calls| == |ops| && forall p :: 0 <= p < |calls| ==> calls[p].op == ops[p]
  }

  predicate Quiet(calls: seq<Call>) {
    forall p :: 0 <= p < |calls| ==> !calls[p].raised
  }

  /** Every call up to the stop was made, and only the last of them raised. */
  ghost predicate FailedAt(after: Bytes, n: nat, calls: seq<Call>, at: Stop) {
    && Within(n, at) && Made(calls, OpsUpTo(after, n, at))
    && calls != [] && Quiet(Front(calls)) && Last(calls).raised
  }

  ghost predicate Succeeded(after: Bytes, n: nat, calls: seq<Call>) {
    Made(calls, Prologue(after) + Rounds(n) + Epilogue()) && Quiet(calls)
  }

  lemma {:induction false} OneMore(calls: seq<Call>, ops: seq<Op>, c: Call, op: Op, more: seq<Call>, moreOps: seq<Op>)
    requires Made(calls, ops) && Quiet(calls) && c.op == op && more == calls + [c] && moreOps == ops + [op]
    ensures Made(more, moreOps) && Front(more) == calls && Last(more) == c
    ensures !c.raised ==> Quiet(more)
  {
  }

  lemma {:induction false} OneMoreInRound(after: Bytes, i: nat, step: nat, calls: seq<Call>, c: Call, more: seq<Call>)
    requires step < 4 && Made(calls, UpToRound(after, i, step)) && Quiet(calls)
    requires c.op == RoundOps(i)[step] && more == calls + [c]
    ensures Made(more, UpToRound(after, i, step + 1)) && Front(more) == calls && Last(more) == c
    ensures !c.raised ==> Quiet(more)
  {
    OneMore(calls, UpToRound(after, i, step), c, c.op, more, UpToRound(after, i, step + 1));
  }

  lemma {:induction false} RoundEnds(after: Bytes, i: nat)
    ensures UpToRound(after, i, 4) == Prologue(after) + Rounds(i + 1)
    ensures UpToRound(after, i, 0) == Prologue(after) + Rounds(i)
  {
    Regroup(Prologue(after), Rounds(i), RoundOps(i));
  }

  lemma {:induction false} Regroup(a: seq<Op>, b: seq<Op>, c: seq<Op>)
    ensures a + b + c[..|c|] == a + (b + c) && a + b + c[..0] == a + b
  {
  }

  /** Call `step` of participant `i`'s round. */
  method RoundCall(world: World, ghost n: nat, i: nat, step: nat, after: Bytes) returns (raised: bool)
    requires i < n && step < 4 && world.Valid() && Made(world.log, UpToRound(after, i, step)) && Quiet(world.log)
    modifies world
    ensures world.Valid()
    ensures if raised then FailedAt(after, n, world.log, AtRound(i, step))
            else Made(world.log, UpToRound(after, i, step + 1)) && Quiet(world.log)
  {
    ghost var calls := world.log;
    if step == 1 {
      raised := world.Participant(Apply(i));
    } else if step == 2 {
      raised := world.Participant(Verify(i));
    } else {
      raised := world.Check(AssertOwned);
    }
    OneMoreInRound(after, i, step, calls, Last(world.log), world.log);
  }

  /** One round of the participant loop. */
  method Round(world: World, n: nat, i: nat, after: Bytes) returns (raised: bool, failurePhase: Phase, ghost at: Stop)
    requires world.Valid() && i < n && Made(world.log, UpToRound(after, i, 0)) && Quiet(world.log)
    modifies world
    ensures world.Valid()
    ensures if raised then FailedAt(after, n, world.log, at) && at.AtRound? && at.i == i && failurePhase == PhaseAt(at)
            else Made(world.log, UpToRound(after, i, 4)) && Quiet(world.log)
  {
    failurePhase := ApplyPhase;
    at := AtRound(i, 0);
    raised := RoundCall(world, n, i, 0, after);
    if raised {
      return;
    }
    at := AtRound(i, 1);
    raised := RoundCall(world, n, i, 1, after);
    if raised {
      return;
    }
    failurePhase := VerifyPhase;
    at := AtRound(i, 2);
    raised := RoundCall(world, n, i, 2, after);
    if raised {
      return;
    }
    at := AtRound(i, 3);
    raised := RoundCall(world, n, i, 3, after);
  }

  lemma {:induction false} OneMoreInPrologue(after: Bytes, step: nat, calls: seq<Call>, c: Call, more: seq<Call>)
    requires step < 5 && Made(calls, Prologue(after)[..step]) && Quiet(calls)
    requires c.op == Prologue(after)[step] && more == calls + [c]
    ensures Made(more, Prologue(after)[..step + 1]) && Front(more) == calls && Last(more) == c
    ensures !c.raised ==> Quiet(more)
  {
    OneMore(calls, Prologue(after)[..step], c, c.op, more, Prologue(after)[..step + 1]);
  }

  /** Call `step` of the first five. */
  /** One call of the prologue. */
  method PrologueStep(world: World, step: nat, after: Bytes) returns (raised: bool)
    requires step < 5 && world.Valid()
    modifies world
    ensures world.Valid() && world.Called(old(world.log), Prologue(after)[step], raised)
  {
    if step == 0 {
      raised := world.Check(AssertOwned);
    } else if step == 1 {
      raised := world.Write(after);
    } else if step == 2 {
      raised := world.Check(Validate);
    } else if step == 3 {
      raised := world.ReloadConfig();
    } else {
      raised := world.UpdateManifest(Manifest(Reloaded, NoPhase, []));
    }
  }

  method PrologueCall(world: World, ghost n: nat, step: nat, after: Bytes) returns (raised: bool)
    requires step < 5 && world.Valid() && Made(world.log, Prologue(after)[..step]) && Quiet(world.log)
    modifies world
    ensures world.Valid()
    ensures if raised then FailedAt(after, n, world.log, AtPrologue(step))
            else Made(world.log, Prologue(after)[..step + 1]) && Quiet(world.log)
  {
    ghost var calls := world.log;
    raised := PrologueStep(world, step, after);
    OneMoreInPrologue(after, step, calls, Last(world.log), world.log);
  }

  /** The calls up to the manifest that says `reloaded`. */
  method Persist(world: World, n: nat, after: Bytes)
    returns (raised: bool, failurePhase: Phase, runtimeReloaded: bool, ghost at: Stop)
    requires world.Valid() && world.log == []
    modifies world
    ensures world.Valid()
    ensures if raised then FailedAt(after, n, world.log, at) && at.AtPrologue? && failurePhase == PhaseAt(at)
            else Made(world.log, Prologue(after)) && Quiet(world.log)
    ensures runtimeReloaded <==> !raised || at == AtPrologue(4)
  {
    runtimeReloaded := false;
    failurePhase := WritePhase;
    at := AtPrologue(0);
    raised := PrologueCall(world, n, 0, after);
    if raised {
      return;
    }
    at := AtPrologue(1);
    raised := PrologueCall(world, n, 1, after);
    if raised {
      return;
    }
    failurePhase := ValidatePhase;
    at := AtPrologue(2);
    raised := PrologueCall(world, n, 2, after);
    if raised {
      return;
    }
    failurePhase := ReloadPhase;
    at := AtPrologue(3);
    raised := PrologueCall(world, n, 3, after);
    if raised {
      return;
    }
    runtimeReloaded := true;
    failurePhase := ManifestReloadedPhase;
    at := AtPrologue(4);
    raised := PrologueCall(world, n, 4, after);
  }

  // ---------- the failure phase, by the calls that were made ----------

  /** Every participant has been applied. */
  ghost predicate AllApplied(n: nat, calls: seq<Call>) {
    n == 0 || exists p :: 0 <= p < |calls| && calls[p].op == Apply(n - 1)
  }

  /** The phase that the last call of a failed run belongs to; for an ownership test the call in front of it decides. */
  ghost predicate PhaseFits(n: nat, calls: seq<Call>, phase: Phase) {
    && calls != []
    && match Last(calls).op
       case WriteConfig(_) => phase == WritePhase
       case Validate => phase == ValidatePhase
       case Reload => phase == ReloadPhase
       case WriteManifest(m) => phase == if m.status == Reloaded then ManifestReloadedPhase else ManifestCompletedPhase
       case Apply(_) => phase == ApplyPhase
       case Verify(_) => phase == VerifyPhase
       case AssertOwned =>
         if |calls| == 1 then phase == WritePhase
         else if calls[|calls| - 2].op.Verify? then phase == VerifyPhase
         else phase == if AllApplied(n, calls) then ManifestCompletedPhase else ApplyPhase
       case _ => false
  }

  lemma {:induction false} AppliedSoFar(i: nat, p: nat)
    requires p < |Rounds(i)|
    ensures Rounds(i)[p].Apply? ==> Rounds(i)[p].i < i
  {
    if p < |Rounds(i - 1)| {
      AppliedSoFar(i - 1, p);
    }
  }

  lemma {:induction false} NotYetApplied(after: Bytes, n: nat, i: nat, calls: seq<Call>)
    requires i < n && Made(calls, UpToRound(after, i, 1))
    ensures !AllApplied(n, calls)
  {
    forall p | 0 <= p < |calls| ensures calls[p].op != Apply(n - 1) {
      if 5 <= p < 5 + |Rounds(i)| {
        AppliedSoFar(i, p - 5);
      }
    }
  }

  lemma {:induction false} AppliedAll(after: Bytes, n: nat, calls: seq<Call>, ops: seq<Op>)
    requires Made(calls, ops) && Prologue(after) + Rounds(n) <= ops
    ensures AllApplied(n, calls)
  {
    if n > 0 {
      RoundsAt(n, n - 1, 1);
      assert ops[5 + 4 * (n - 1) + 1] == Rounds(n)[4 * (n - 1) + 1];
      assert calls[5 + 4 * (n - 1) + 1].op == Apply(n - 1);
    }
  }

  /** The call in front of a round, or of the last two calls. */
  lemma {:induction false} BeforeRound(after: Bytes, i: nat, ops: seq<Op>)
    requires Prologue(after) + Rounds(i) <= ops
    ensures |ops| >= 5 + 4 * i && !ops[4 + 4 * i].Verify?
  {
    RoundsLength(i);
    if i > 0 {
      RoundsAt(i, i - 1, 3);
      assert ops[4 + 4 * i] == Rounds(i)[4 * (i - 1) + 3];
    }
  }

  lemma {:induction false} PhaseInRound(after: Bytes, n: nat, calls: seq<Call>, i: nat, step: nat)
    requires i < n && step < 4 && Made(calls, UpToRound(after, i, step + 1))
    ensures PhaseFits(n, calls, PhaseAt(AtRound(i, step)))
  {
    var ops := UpToRound(after, i, step + 1);
    RoundsLength(i);
    assert ops[5 + 4 * i + step] == RoundOps(i)[step];
    if step == 0 {
      BeforeRound(after, i, ops);
      NotYetApplied(after, n, i, calls);
    } else {
      assert ops[5 + 4 * i + step - 1] == RoundOps(i)[step - 1];
    }
  }

  lemma {:induction false} PhaseAtEnd(after: Bytes, n: nat, calls: seq<Call>, step: nat)
    requires step < 2 && Made(calls, Prologue(after) + Rounds(n) + Epilogue()[..step + 1])
    ensures PhaseFits(n, calls, ManifestCompletedPhase)
  {
    var ops := Prologue(after) + Rounds(n) + Epilogue()[..step + 1];
    RoundsLength(n);
    assert ops[5 + 4 * n + step] == Epilogue()[step];
    BeforeRound(after, n, ops);
    AppliedAll(after, n, calls, ops);
  }

  lemma {:induction false} PhaseIs(after: Bytes, n: nat, calls: seq<Call>, at: Stop)
    requires FailedAt(after, n, calls, at)
    ensures PhaseFits(n, calls, PhaseAt(at))
  {
    match at
    case AtPrologue(step) =>
    case AtRound(i, step) => PhaseInRound(after, n, calls, i, step);
    case AtEpilogue(step) => PhaseAtEnd(after, n, calls, step);
  }

  /** The last ownership test and the manifest that says `completed`. */
  method Finish(world: World, n: nat, after: Bytes) returns (raised: bool, ghost at: Stop)
    requires world.Valid() && Made(world.log, Prologue(after) + Rounds(n)) && Quiet(world.log)
    modifies world
    ensures world.Valid()
    ensures if raised then FailedAt(after, n, world.log, at) && at.AtEpilogue? else Succeeded(after, n, world.log)
  {
    ghost var calls := world.log;
    ghost var ops := Prologue(after) + Rounds(n);
    at := AtEpilogue(0);
    raised := world.Check(AssertOwned);
    OneMore(calls, ops, Last(world.log), AssertOwned, world.log, ops + Epilogue()[..1]);
    if raised {
      return;
    }
    raised, at := Complete(world, n, after);
  }

  /** The last call. */
  method Complete(world: World, n: nat, after: Bytes) returns (raised: bool, ghost at: Stop)
    requires world.Valid() && Made(world.log, Prologue(after) + Rounds(n) + Epilogue()[..1]) && Quiet(world.log)
    modifies world
    ensures world.Valid()
    ensures if raised then FailedAt(after, n, world.log, at) && at.AtEpilogue? else Succeeded(after, n, world.log)
  {
    ghost var calls := world.log;
    ghost var ops := Prologue(after) + Rounds(n);
    at := AtEpilogue(1);
    raised := world.UpdateManifest(Manifest(Completed, NoPhase, []));
    WholeEpilogue(ops);
    OneMore(calls, ops + Epilogue()[..1], Last(world.log), Epilogue()[1], world.log, ops + Epilogue());
  }

  lemma {:induction false} WholeEpilogue(ops: seq<Op>)
    ensures ops + Epilogue()[..1] + [Epilogue()[1]] == ops + Epilogue()
  {
    assert Epilogue()[..1] + [Epilogue()[1]] == Epilogue();
  }

  /** The participant loop. */
  method RunParticipants(world: World, n: nat, after: Bytes)
    returns (raised: bool, failurePhase: Phase, applied: nat, ghost at: Stop)
    requires world.Valid() && Made(world.log, Prologue(after)) && Quiet(world.log)
    modifies world
    ensures world.Valid()
    ensures if raised then FailedAt(after, n, world.log, at) && at.AtRound? && failurePhase == PhaseAt(at)
            else Made(world.log, Prologue(after) + Rounds(n)) && Quiet(world.log)
    ensures applied == if raised then Reached(n, at) else n
  {
    applied, raised, failurePhase, at := 0, false, ManifestReloadedPhase, AtRound(0, 0);
    assert Prologue(after) + Rounds(0) == Prologue(after);
    while applied < n
      invariant applied <= n && !raised
      invariant world.Valid() && Made(world.log, Prologue(after) + Rounds(applied)) && Quiet(world.log)
    {
      RoundEnds(after, applied);
      applied := applied + 1;
      raised, failurePhase, at := Round(world, n, applied - 1, after);
      if raised {
        return;
      }
    }
  }

  /** The `try` block; `applied` is the number of participants it has put on the list. */
  method Attempt(world: World, n: nat, after: Bytes)
    returns (raised: bool, failurePhase: Phase, runtimeReloaded: bool, applied: nat, ghost at: Stop)
    requires world.Valid() && world.log == []
    modifies world
    ensures world.Valid()
    ensures if raised then FailedAt(after, n, world.log, at) else Succeeded(after, n, world.log)
    ensures raised ==> failurePhase == PhaseAt(at) && applied == Reached(n, at)
    ensures raised ==> PhaseFits(n, world.log, failurePhase)
    ensures runtimeReloaded <==> !raised || Loaded(at)
  {
    applied := 0;
    raised, failurePhase, runtimeReloaded, at := Persist(world, n, after);
    if raised {
      PhaseIs(after, n, world.log, at);
      return;
    }
    raised, failurePhase, applied, at := RunParticipants(world, n, after);
    if raised {
      PhaseIs(after, n, world.log, at);
      return;
    }
    failurePhase := ManifestCompletedPhase;
    raised, at := Finish(world, n, after);
    if raised {
      PhaseIs(after, n, world.log, at);
    }
  }

  // ---------- the calls of the `except` block ----------

  /** The compensating calls: a rollback for every participant on the list, and what becomes of the config file. */
  datatype Recovery = Recovery(rollbacks: seq<Call>, readback: Call, restore: seq<Call>, reload: seq<Call>, manifest: Call) {
    function Repairs(): seq<Call> {
      rollbacks + [readback] + restore + reload
    }

    /** Everything behind the rollbacks. */
    function Tail(): seq<Call> {
      [readback] + restore + reload + [manifest]
    }

    function Calls(): seq<Call> {
      Repairs() + [manifest]
    }
  }

  /** The participants whose rollback raised, in the order they were rolled back. */
  function RollbackBlames(rollbacks: seq<Call>): seq<Blame> {
    if rollbacks == [] then []
    else
      var c := Last(rollbacks);
      RollbackBlames(Front(rollbacks)) + (if c.raised && c.op.Rollback? then [OfParticipant(c.op.i)] else [])
  }

  function BlameIf(raised: bool, b: Blame): seq<Blame> {
    if raised then [b] else []
  }

  predicate AnyRaised(calls: seq<Call>) {
    exists p :: 0 <= p < |calls| && calls[p].raised
  }

  function Blames(rec: Recovery): seq<Blame> {
    RollbackBlames(rec.rollbacks) + BlameIf(rec.readback.raised, OfReadback) + BlameIf(AnyRaised(rec.restore), OfConfig) +
    BlameIf(AnyRaised(rec.reload), OfReload)
  }

  function StatusOf(rec: Recovery): Status {
    if Blames(rec) == [] && !rec.manifest.raised then RolledBack else RollbackFailed
  }

  predicate RollsBack(rollbacks: seq<Call>, applied: nat) {
    |rollbacks| == applied && forall p :: 0 <= p < applied ==> rollbacks[p].op == Rollback(applied - 1 - p)
  }

  /** Whether the file is not known to hold the old bytes. */
  predicate NeedsRestore(rec: Recovery, disk: Bytes, before: Bytes) {
    rec.readback.raised || disk != before
  }

  /** Written back and read again. */
  predicate Restores(restore: seq<Call>, before: Bytes) {
    && 1 <= |restore| <= 2 && restore[0].op == WriteConfig(before) && (restore[0].raised <==> |restore| == 1)
    && (|restore| == 2 ==> restore[1].op == ReadConfig)
  }

  /** `disk` is what the file holds when it is read back. */
  predicate Repaired(rec: Recovery, applied: nat, before: Bytes, runtimeReloaded: bool, disk: Bytes) {
    var needs := NeedsRestore(rec, disk, before);
    && RollsBack(rec.rollbacks, applied) && rec.readback.op == ReadConfig
    && (if needs then Restores(rec.restore, before) else rec.restore == [])
    && (if !AnyRaised(rec.restore) && (needs || runtimeReloaded) then |rec.reload| == 1 && rec.reload[0].op == Reload
        else rec.reload == [])
  }

  predicate Compensates(rec: Recovery, applied: nat, before: Bytes, phase: Phase, runtimeReloaded: bool, disk: Bytes) {
    && Repaired(rec, applied, before, runtimeReloaded, disk)
    && rec.manifest.op ==
       WriteManifest(Manifest(if Blames(rec) == [] then RolledBack else RollbackFailed, phase, Blames(rec)))
  }

  method RollbackParticipants(world: World, applied: nat) returns (rollbackErrors: seq<Blame>, ghost rollbacks: seq<Call>)
    requires world.Valid()
    modifies world
    ensures world.Valid() && world.log == old(world.log) + rollbacks
    ensures RollsBack(rollbacks, applied) && rollbackErrors == RollbackBlames(rollbacks)
  {
    rollbackErrors := [];
    rollbacks := [];
    var i := applied;
    while i > 0
      invariant 0 <= i <= applied && world.Valid() && world.log == old(world.log) + rollbacks
      invariant |rollbacks| == applied - i
      invariant forall p :: 0 <= p < applied - i ==> rollbacks[p].op == Rollback(applied - 1 - p)
      invariant rollbackErrors == RollbackBlames(rollbacks)
    {
      i := i - 1;
      var raised := world.Participant(Rollback(i));
      Snoc(rollbacks, Last(world.log));
      rollbacks := rollbacks + [Last(world.log)];
      if raised {
        rollbackErrors := rollbackErrors + [OfParticipant(i)];
      }
    }
  }

  /** Write the old bytes back and read them again. */
  method RestoreBytes(world: World, before: Bytes) returns (raised: bool, ghost restore: seq<Call>)
    requires world.Valid()
    modifies world
    ensures world.Valid() && world.log == old(world.log) + restore
    ensures Restores(restore, before) && raised == AnyRaised(restore)
  {
    ghost var start := world.log;
    raised := world.Write(before);
    ghost var write := Last(world.log);
    restore := [write];
    if raised {
      OneRestore(before, write);
      return;
    }
    var bytes;
    raised, bytes := world.Read();
    restore := [write, Last(world.log)];
    TwoRestores(before, write, Last(world.log));
    assert world.log == start + restore;
    if bytes != before {
      raised := true;
    }
  }

  lemma {:induction false} OneRestore(before: Bytes, write: Call)
    requires write.op == WriteConfig(before) && write.raised
    ensures Restores([write], before) && AnyRaised([write])
  {
    assert [write][0].raised;
  }

  lemma {:induction false} TwoRestores(before: Bytes, write: Call, read: Call)
    requires write.op == WriteConfig(before) && !write.raised && read.op == ReadConfig
    ensures Restores([write, read], before) && (AnyRaised([write, read]) <==> read.raised)
  {
    assert read.raised ==> [write, read][1].raised;
  }

  /** Restore the file if need be, then reload the runtime from it. */
  method RestoreConfig(world: World, before: Bytes, needsRestore: bool, runtimeReloaded: bool)
    returns (rollbackErrors: seq<Blame>, ghost restore: seq<Call>, ghost reload: seq<Call>)
    requires world.Valid()
    modifies world
    ensures world.Valid() && world.log == old(world.log) + (restore + reload)
    ensures if needsRestore then Restores(restore, before) else restore == []
    ensures if !AnyRaised(restore) && (needsRestore || runtimeReloaded) then |reload| == 1 && reload[0].op == Reload
            else reload == []
    ensures rollbackErrors == BlameIf(AnyRaised(restore), OfConfig) + BlameIf(AnyRaised(reload), OfReload)
  {
    rollbackErrors, restore, reload := [], [], [];
    var configRestored := !needsRestore;
    if needsRestore {
      var raised;
      raised, restore := RestoreBytes(world, before);
      configRestored := !raised;
      if raised {
        rollbackErrors := [OfConfig];
      }
    }
    ghost var calls := world.log;
    if configRestored && (needsRestore || runtimeReloaded) {
      rollbackErrors, reload := ReloadOld(world);
    }
    Joined(old(world.log), restore, reload, calls, world.log);
  }

  lemma {:induction false} Joined(start: seq<Call>, a: seq<Call>, b: seq<Call>, calls: seq<Call>, log: seq<Call>)
    requires calls == start + a && log == calls + b
    ensures log == start + (a + b) && !AnyRaised([])
  {
  }

  method ReloadOld(world: World) returns (rollbackErrors: seq<Blame>, ghost reload: seq<Call>)
    requires world.Valid()
    modifies world
    ensures world.Valid() && world.log == old(world.log) + reload && |reload| == 1 && reload[0].op == Reload
    ensures rollbackErrors == BlameIf(AnyRaised(reload), OfReload)
  {
    var raised := world.ReloadConfig();
    reload := [Last(world.log)];
    QuietOne(reload[0]);
    rollbackErrors := if raised then [OfReload] else [];
  }

  /** Everything the `except` block does before it writes the manifest. */
  method Repair(world: World, applied: nat, before: Bytes, runtimeReloaded: bool)
    returns (rollbackErrors: seq<Blame>, ghost rec: Recovery, ghost disk: Bytes)
    requires world.Valid()
    modifies world
    ensures world.Valid() && world.log == old(world.log) + rec.Repairs()
    ensures disk == Disk(world.base, old(world.log) + rec.rollbacks)
    ensures Repaired(rec, applied, before, runtimeReloaded, disk) && rollbackErrors == Blames(rec)
  {
    ghost var start := world.log;
    var participantErrors, rollbacks := RollbackParticipants(world, applied);
    disk := world.config;
    var readRaised, observed := world.Read();
    ghost var readback := Last(world.log);
    var needsRestore := readRaised || observed != before;
    var readErrors := if readRaised then [OfReadback] else [];
    var restoreErrors, restore, reload := RestoreConfig(world, before, needsRestore, runtimeReloaded);
    rollbackErrors := participantErrors + readErrors + restoreErrors;
    rec := Recovery(rollbacks, readback, restore, reload, readback);
    RepairsTogether(start, rec, world.log);
    BlamesTogether(rec, participantErrors, restoreErrors, rollbackErrors);
  }

  lemma {:induction false} RepairsTogether(start: seq<Call>, rec: Recovery, log: seq<Call>)
    requires log == start + rec.rollbacks + [rec.readback] + (rec.restore + rec.reload)
    ensures log == start + rec.Repairs()
  {
  }

  /** The `except` block. */
  method Compensate(world: World, applied: nat, before: Bytes, failurePhase: Phase, runtimeReloaded: bool)
    returns (status: Status, ghost rec: Recovery, ghost disk: Bytes)
    requires world.Valid()
    modifies world
    ensures world.Valid() && world.log == old(world.log) + rec.Calls()
    ensures disk == Disk(world.base, old(world.log) + rec.rollbacks)
    ensures Compensates(rec, applied, before, failurePhase, runtimeReloaded, disk)
    ensures status == StatusOf(rec)
  {
    ghost var start := world.log;
    var rollbackErrors;
    rollbackErrors, rec, disk := Repair(world, applied, before, runtimeReloaded);
    status := if rollbackErrors != [] then RollbackFailed else RolledBack;
    var raised := world.UpdateManifest(Manifest(status, failurePhase, rollbackErrors));
    if raised {
      status := RollbackFailed;
    }
    AppendOne(start, rec.Repairs(), Last(world.log));
    rec := Noted(rec, Last(world.log), applied, before, runtimeReloaded, disk);
  }

  lemma {:induction false} AppendOne<T>(a: seq<T>, b: seq<T>, x: T)
    ensures (a + b) + [x] == a + (b + [x])
  {
  }

  lemma {:induction false} Noted(was: Recovery, m: Call, applied: nat, before: Bytes, runtimeReloaded: bool, disk: Bytes)
    returns (rec: Recovery)
    requires Repaired(was, applied, before, runtimeReloaded, disk)
    ensures Repaired(rec, applied, before, runtimeReloaded, disk) && rec.manifest == m && rec.rollbacks == was.rollbacks
    ensures Blames(rec) == Blames(was) && rec.Calls() == was.Repairs() + [m]
  {
    rec := was.(manifest := m);
  }

  lemma {:induction false} BlamesTogether(rec: Recovery, first: seq<Blame>, last: seq<Blame>, all: seq<Blame>)
    requires first == RollbackBlames(rec.rollbacks)
    requires last == BlameIf(AnyRaised(rec.restore), OfConfig) + BlameIf(AnyRaised(rec.reload), OfReload)
    requires all == first + BlameIf(rec.readback.raised, OfReadback) + last
    ensures all == Blames(rec)
  {
  }

  // ---------- what the calls amount to ----------

  /** Calls that leave the file alone do not change what it holds. */
  lemma {:induction false} DiskFrom(base: Bytes, calls: seq<Call>, m: nat)
    requires m <= |calls| && forall p :: m <= p < |calls| ==> calls[p].leaves.None?
    ensures Disk(base, calls) == Disk(base, calls[..m])
    decreases |calls|
  {
    if m == |calls| {
      assert calls[..m] == calls;
    } else {
      DiskFrom(base, Front(calls), m);
      assert Front(calls)[..m] == calls[..m];
    }
  }

  lemma {:induction false} DiskAt(base: Bytes, calls: seq<Call>, k: nat, payload: Bytes)
    requires k < |calls| && calls[k].leaves == Some(payload) && forall p :: k < p < |calls| ==> calls[p].leaves.None?
    ensures Disk(base, calls) == payload
  {
    DiskFrom(base, calls, k + 1);
  }

  lemma {:induction false} RuntimeFrom(calls: seq<Call>, m: nat)
    requires m <= |calls| && forall p :: m <= p < |calls| ==> calls[p].loads.None?
    ensures Runtime(calls) == Runtime(calls[..m])
    decreases |calls|
  {
    if m == |calls| {
      assert calls[..m] == calls;
    } else {
      RuntimeFrom(Front(calls), m);
      assert Front(calls)[..m] == calls[..m];
    }
  }

  lemma {:induction false} ManifestLast(first: Manifest, calls: seq<Call>)
    requires calls != [] && Last(calls).writes.Some?
    ensures ManifestOn(first, calls) == Last(calls).writes.value
  {
  }

  lemma {:induction false} RoundsAt(n: nat, i: nat, step: nat)
    requires i < n && step < 4
    ensures |Rounds(n)| == 4 * n && Rounds(n)[4 * i + step] == RoundOps(i)[step]
  {
    RoundsLength(n - 1);
    if i < n - 1 {
      RoundsAt(n - 1, i, step);
    }
  }

  lemma {:induction false} RoundsLength(n: nat)
    ensures |Rounds(n)| == 4 * n
  {
    if n > 0 {
      RoundsLength(n - 1);
    }
  }

  predicate InLoop(op: Op) {
    op.AssertOwned? || op.Apply? || op.Verify?
  }

  lemma {:induction false} RoundsInLoop(n: nat, p: nat)
    requires p < |Rounds(n)|
    ensures InLoop(Rounds(n)[p])
  {
    if p < |Rounds(n - 1)| {
      RoundsInLoop(n - 1, p);
    }
  }

  // ---------- completed runs ----------

  /** A call other than the first five and the last is an ownership test, an `apply` or a `verify`. */
  lemma {:induction false} CompletedOps(after: Bytes, n: nat, calls: seq<Call>)
    requires Succeeded(after, n, calls)
    ensures |calls| == 7 + 4 * n
    ensures calls[1].op == WriteConfig(after) && calls[2].op == Validate && calls[3].op == Reload
    ensures calls[4].op == Prologue(after)[4] && Last(calls).op == Epilogue()[1]
    ensures forall p :: 5 <= p < |calls| - 1 ==> InLoop(calls[p].op)
  {
    RoundsLength(n);
    var ops := Prologue(after) + Rounds(n) + Epilogue();
    forall p | 5 <= p < |calls| - 1 ensures InLoop(calls[p].op) {
      if p < 5 + 4 * n {
        assert ops[p] == Rounds(n)[p - 5];
        RoundsInLoop(n, p - 5);
      } else {
        assert ops[p] == Epilogue()[0];
      }
    }
  }

  /**
    A completed run: the runtime was loaded from the new bytes, the manifest on disk says so, and the file holds the new
    bytes unless a participant has changed it.
   */
  lemma {:induction false} CompletedRun(before: Bytes, after: Bytes, n: nat, calls: seq<Call>, first: Manifest)
    requires Succeeded(after, n, calls) && AllLawful(before, calls)
    ensures Runtime(calls) == Some(after) && ManifestOn(first, calls) == Manifest(Completed, NoPhase, [])
    ensures Untouched(calls) ==> Disk(before, calls) == after
  {
    CompletedOps(after, n, calls);
    assert Lawful(calls[1], Disk(before, calls[..1])) && Lawful(calls[2], Disk(before, calls[..2]));
    assert calls[..3][1] == calls[1] && calls[..3][2] == calls[2];
    DiskAt(before, calls[..3], 1, after);
    assert Lawful(calls[3], Disk(before, calls[..3]));
    forall p | 4 <= p < |calls| ensures calls[p].loads.None? {
      assert Lawful(calls[p], Disk(before, calls[..p]));
    }
    RuntimeFrom(calls, 4);
    assert Last(calls[..4]) == calls[3];
    assert Lawful(calls[|calls| - 1], Disk(before, calls[..|calls| - 1]));
    ManifestLast(first, calls);
    if Untouched(calls) {
      forall p | 1 < p < |calls| ensures calls[p].leaves.None? {
        assert Lawful(calls[p], Disk(before, calls[..p]));
      }
      DiskAt(before, calls, 1, after);
    }
  }

  /** No participant changes the config file. */
  predicate Untouched(calls: seq<Call>) {
    forall p :: 0 <= p < |calls| && IsParticipant(calls[p].op) ==> calls[p].leaves.None?
  }

  /** Every participant was applied and then verified, in list order, and neither raised; none was rolled back. */
  lemma {:induction false} CompletedInOrder(after: Bytes, n: nat, calls: seq<Call>, i: nat)
    requires Succeeded(after, n, calls)
    ensures |calls| == 7 + 4 * n && Quiet(calls) && InOrder(after, n, calls) && RoundInOrder(i, n, calls)
    ensures forall p :: 0 <= p < |calls| ==> !calls[p].op.Rollback?
  {
    CompletedOps(after, n, calls);
    var ops := Prologue(after) + Rounds(n) + Epilogue();
    AllInOrder(after, n, calls, ops, i);
  }

  /** The calls up to the participants, and the last two. */
  predicate InOrder(after: Bytes, n: nat, calls: seq<Call>) {
    && (|calls| > 0 ==> calls[0].op == AssertOwned) && (|calls| > 1 ==> calls[1].op == WriteConfig(after))
    && (|calls| > 2 ==> calls[2].op == Validate) && (|calls| > 3 ==> calls[3].op == Reload)
    && (|calls| > 4 ==> calls[4].op == WriteManifest(Manifest(Reloaded, NoPhase, [])))
    && (|calls| > 5 + 4 * n ==> calls[5 + 4 * n].op == AssertOwned)
    && (|calls| > 6 + 4 * n ==> calls[6 + 4 * n].op == WriteManifest(Manifest(Completed, NoPhase, [])))
    && |calls| <= 7 + 4 * n
  }

  /** A participant is applied and then verified between two ownership tests. */
  predicate RoundInOrder(i: nat, n: nat, calls: seq<Call>) {
    i < n ==>
      && (|calls| > 5 + 4 * i ==> calls[5 + 4 * i].op == AssertOwned) && (|calls| > 6 + 4 * i ==> calls[6 + 4 * i].op == Apply(i))
      && (|calls| > 7 + 4 * i ==> calls[7 + 4 * i].op == Verify(i)) && (|calls| > 8 + 4 * i ==> calls[8 + 4 * i].op == AssertOwned)
  }

  lemma {:induction false} AllInOrder(after: Bytes, n: nat, calls: seq<Call>, ops: seq<Op>, i: nat)
    requires Made(calls, ops) && ops <= Prologue(after) + Rounds(n) + Epilogue()
    ensures InOrder(after, n, calls) && RoundInOrder(i, n, calls)
  {
    var all := Prologue(after) + Rounds(n) + Epilogue();
    RoundsLength(n);
    assert all[5 + 4 * n] == Epilogue()[0] && all[6 + 4 * n] == Epilogue()[1];
    forall p | 0 <= p < |calls| ensures calls[p].op == all[p] {
      assert calls[p].op == ops[p];
    }
    if i < n {
      OfRound(after, n, i, 0);
      OfRound(after, n, i, 1);
      OfRound(after, n, i, 2);
      OfRound(after, n, i, 3);
    }
  }

  lemma {:induction false} OfRound(after: Bytes, n: nat, i: nat, step: nat)
    requires i < n && step < 4
    ensures var all := Prologue(after) + Rounds(n) + Epilogue();
      5 + 4 * i + step < |all| && all[5 + 4 * i + step] == RoundOps(i)[step]
  {
    RoundsAt(n, i, step);
  }

  /** The calls of a run that fails are in the same order, up to the one that raised. */
  lemma {:induction false} FailedInOrder(after: Bytes, n: nat, calls: seq<Call>, at: Stop, i: nat)
    requires FailedAt(after, n, calls, at)
    ensures InOrder(after, n, calls) && RoundInOrder(i, n, calls)
    ensures calls != [] && Last(calls).raised && Quiet(Front(calls))
  {
    UpToIsPrefix(after, n, at);
    AllInOrder(after, n, calls, OpsUpTo(after, n, at), i);
  }

  lemma {:induction false} UpToIsPrefix(after: Bytes, n: nat, at: Stop)
    requires Within(n, at)
    ensures OpsUpTo(after, n, at) <= Prologue(after) + Rounds(n) + Epilogue()
  {
    if at.AtRound? {
      RoundsPrefix(n, at.i + 1);
      Starts(Prologue(after) + Rounds(at.i), RoundOps(at.i), at.step + 1, Rounds(n), Prologue(after));
    }
  }

  lemma {:induction false} Starts(a: seq<Op>, b: seq<Op>, k: nat, all: seq<Op>, p: seq<Op>)
    requires k <= |b| && p <= a && a[|p|..] + b <= all
    ensures a + b[..k] <= p + all
  {
  }

  lemma {:induction false} RoundsPrefix(n: nat, i: nat)
    requires i <= n
    ensures Rounds(i) <= Rounds(n)
  {
    if i < n {
      RoundsPrefix(n - 1, i);
    }
  }

  // ---------- rolled-back runs ----------

  lemma {:induction false} NoBlame(rollbacks: seq<Call>)
    requires forall p :: 0 <= p < |rollbacks| ==> rollbacks[p].op.Rollback?
    ensures RollbackBlames(rollbacks) == [] <==> Quiet(rollbacks)
  {
    if rollbacks != [] {
      NoBlame(Front(rollbacks));
      assert forall p :: 0 <= p < |rollbacks| - 1 ==> Front(rollbacks)[p] == rollbacks[p];
    }
  }

  /** The source reports `rolled_back` exactly when no compensating call raised. */
  lemma {:induction false} StatusExactly(rec: Recovery, applied: nat)
    requires RollsBack(rec.rollbacks, applied)
    ensures StatusOf(rec) == RolledBack <==> Quiet(rec.Calls())
  {
    NoBlame(rec.rollbacks);
    QuietParts(rec);
    assert (Blames(rec) == []) <==>
      (Quiet(rec.rollbacks) && !rec.readback.raised && !AnyRaised(rec.restore) && !AnyRaised(rec.reload));
  }

  lemma {:induction false} QuietAppend(a: seq<Call>, b: seq<Call>)
    ensures Quiet(a + b) <==> Quiet(a) && Quiet(b)
  {
    if Quiet(a + b) {
      assert forall p :: 0 <= p < |a| ==> a[p] == (a + b)[p];
      assert forall p :: 0 <= p < |b| ==> b[p] == (a + b)[|a| + p];
    }
  }

  lemma {:induction false} QuietParts(rec: Recovery)
    ensures Quiet(rec.Calls()) <==>
      Quiet(rec.rollbacks) && !rec.readback.raised && Quiet(rec.restore) && Quiet(rec.reload) && !rec.manifest.raised
  {
    QuietAppend(rec.Repairs(), [rec.manifest]);
    QuietAppend(rec.rollbacks + [rec.readback] + rec.restore, rec.reload);
    QuietAppend(rec.rollbacks + [rec.readback], rec.restore);
    QuietAppend(rec.rollbacks, [rec.readback]);
    QuietOne(rec.readback);
    QuietOne(rec.manifest);
  }

  lemma {:induction false} QuietOne(c: Call)
    ensures Quiet([c]) <==> !c.raised
  {
    assert [c][0] == c;
  }

  /** Where the compensating calls stand in the log. */
  lemma {:induction false} Positions(forward: seq<Call>, rec: Recovery, calls: seq<Call>, m: nat)
    requires calls == forward + rec.Calls() && m == |forward| + |rec.rollbacks|
    ensures |calls| == m + 2 + |rec.restore| + |rec.reload|
    ensures calls[..m] == forward + rec.rollbacks && calls[m] == rec.readback && Last(calls) == rec.manifest
    ensures forall j :: 0 <= j < |rec.restore| ==> calls[m + 1 + j] == rec.restore[j]
    ensures forall j :: 0 <= j < |rec.reload| ==> calls[m + 1 + |rec.restore| + j] == rec.reload[j]
    ensures forall p :: |forward| <= p < m ==> calls[p] == rec.rollbacks[p - |forward|]
  {
  }

  lemma {:induction false} TailCalls(rec: Recovery, calls: seq<Call>, m: nat, before: Bytes, p: nat)
    requires |calls| == m + 2 + |rec.restore| + |rec.reload| && Last(calls) == rec.manifest && calls[m] == rec.readback
    requires forall j :: 0 <= j < |rec.restore| ==> calls[m + 1 + j] == rec.restore[j]
    requires forall j :: 0 <= j < |rec.reload| ==> calls[m + 1 + |rec.restore| + j] == rec.reload[j]
    requires rec.readback.op.ReadConfig? && rec.manifest.op.WriteManifest? && (rec.restore == [] || Restores(rec.restore, before))
    requires rec.reload == [] || (|rec.reload| == 1 && rec.reload[0].op == Reload)
    requires m <= p < |calls|
    ensures !IsParticipant(calls[p].op)
    ensures calls[p].op.WriteConfig? ==> rec.restore != [] && p == m + 1
    ensures calls[p].op.Reload? ==> rec.reload != [] && p == |calls| - 2
  {
    if m < p <= m + |rec.restore| {
      assert calls[p] == rec.restore[p - m - 1];
    } else if m + |rec.restore| < p < |calls| - 1 {
      assert calls[p] == rec.reload[p - m - 1 - |rec.restore|];
    }
  }

  lemma {:induction false} DiskAppend(base: Bytes, a: seq<Call>, b: seq<Call>)
    ensures Disk(base, a + b) == Disk(Disk(base, a), b)
    decreases |b|
  {
    if b == [] {
      assert a + b == a;
    } else {
      DiskAppend(base, a, Front(b));
      assert Front(a + b) == a + Front(b);
    }
  }

  lemma {:induction false} RuntimeAppend(a: seq<Call>, b: seq<Call>)
    ensures Runtime(a + b) == if Runtime(b).Some? then Runtime(b) else Runtime(a)
    decreases |b|
  {
    if b == [] {
      assert a + b == a;
    } else {
      RuntimeAppend(a, Front(b));
      assert Front(a + b) == a + Front(b);
    }
  }

  lemma {:induction false} LawfulAppend(base: Bytes, a: seq<Call>, b: seq<Call>)
    requires AllLawful(base, a + b)
    ensures AllLawful(base, a) && AllLawful(Disk(base, a), b)
  {
    forall i | 0 <= i < |a| ensures Lawful(a[i], Disk(base, a[..i])) {
      assert a[i] == (a + b)[i] && a[..i] == (a + b)[..i];
    }
    forall i | 0 <= i < |b| ensures Lawful(b[i], Disk(Disk(base, a), b[..i])) {
      assert b[i] == (a + b)[|a| + i] && a + b[..i] == (a + b)[..|a| + i];
      DiskAppend(base, a, b[..i]);
    }
  }

  lemma {:induction false} OneCall(disk: Bytes, c: Call)
    requires AllLawful(disk, [c])
    ensures Lawful(c, disk)
    ensures Disk(disk, [c]) == (if c.leaves.Some? then c.leaves.value else disk) && Runtime([c]) == c.loads
  {
    assert [c][0] == c && [c][..0] == [] && Front([c]) == [] && Last([c]) == c;
    assert Lawful([c][0], Disk(disk, [c][..0]));
  }

  lemma {:induction false} RestoredFile(disk: Bytes, restore: seq<Call>, before: Bytes)
    requires AllLawful(disk, restore) && Restores(restore, before) && !AnyRaised(restore)
    ensures Disk(disk, restore) == before && Runtime(restore).None?
  {
    assert !restore[0].raised;
    assert restore == [restore[0]] + [restore[1]];
    LawfulAppend(disk, [restore[0]], [restore[1]]);
    OneCall(disk, restore[0]);
    DiskAppend(disk, [restore[0]], [restore[1]]);
    OneCall(before, restore[1]);
    RuntimeAppend([restore[0]], [restore[1]]);
  }

  /**
    The compensating calls behind the rollbacks, the file holding `disk`: if writing back did not fail, the file ends up
    with the old bytes, whatever the participants did to it; and a reload that does not fail reads those.
   */
  lemma {:induction false} TailRestores(disk: Bytes, rec: Recovery, applied: nat, before: Bytes, phase: Phase, reloaded: bool)
    requires AllLawful(disk, rec.Tail()) && Compensates(rec, applied, before, phase, reloaded, disk)
    requires !AnyRaised(rec.restore)
    ensures Disk(disk, rec.Tail()) == before
    ensures rec.reload == [] ==> Runtime(rec.Tail()).None?
    ensures rec.reload != [] && !AnyRaised(rec.reload) ==> Runtime(rec.Tail()) == Some(before)
  {
    var a, b, c, d := [rec.readback], rec.restore, rec.reload, [rec.manifest];
    FourParts(disk, a, b, c, d);
    OneCall(disk, rec.readback);
    if b != [] {
      RestoredFile(disk, b, before);
    }
    FewCalls(before, c);
    OneCall(before, rec.manifest);
  }

  /** At most one call, which is no write of the config file and no participant's. */
  lemma {:induction false} FewCalls(disk: Bytes, c: seq<Call>)
    requires AllLawful(disk, c) && |c| <= 1 && (c != [] ==> c[0].op.Reload?)
    ensures Disk(disk, c) == disk && (c == [] ==> Runtime(c).None?)
    ensures c != [] && !AnyRaised(c) ==> Runtime(c) == Some(disk)
  {
    if c != [] {
      assert c == [c[0]];
      OneCall(disk, c[0]);
    }
  }

  lemma {:induction false} FourParts(disk: Bytes, a: seq<Call>, b: seq<Call>, c: seq<Call>, d: seq<Call>)
    requires AllLawful(disk, a + b + c + d)
    ensures var x := Disk(disk, a); var y := Disk(x, b); var z := Disk(y, c);
      AllLawful(disk, a) && AllLawful(x, b) && AllLawful(y, c) && AllLawful(z, d) && Disk(disk, a + b + c + d) == Disk(z, d)
    ensures Runtime(a + b + c + d) ==
      if Runtime(d).Some? then Runtime(d) else if Runtime(c).Some? then Runtime(c) else if Runtime(b).Some? then Runtime(b) else Runtime(a)
  {
    LawfulAppend(disk, a + b + c, d);
    LawfulAppend(disk, a + b, c);
    LawfulAppend(disk, a, b);
    DiskAppend(disk, a, b);
    DiskAppend(disk, a + b, c);
    DiskAppend(disk, a + b + c, d);
    RuntimeAppend(a, b);
    RuntimeAppend(a + b, c);
    RuntimeAppend(a + b + c, d);
  }

  /** The write that should bring the old bytes back was made, and it reached the file. */
  predicate WriteLanded(restore: seq<Call>) {
    restore != [] && restore[0].leaves.Some?
  }

  lemma {:induction false} RestoreLeaves(disk: Bytes, restore: seq<Call>, before: Bytes)
    requires AllLawful(disk, restore) && (restore == [] || Restores(restore, before))
    ensures Disk(disk, restore) == if WriteLanded(restore) then before else disk
  {
    if restore != [] {
      if |restore| == 1 {
        assert restore == [restore[0]];
        OneCall(disk, restore[0]);
      } else {
        assert restore == [restore[0]] + [restore[1]];
        LawfulAppend(disk, [restore[0]], [restore[1]]);
        DiskAppend(disk, [restore[0]], [restore[1]]);
        OneCall(disk, restore[0]);
        OneCall(Disk(disk, [restore[0]]), restore[1]);
      }
    }
  }

  /**
    Whatever fails during compensation, the config file holds the old bytes in the end if and only if it held them when
    it was read back, or the write that should bring them back reached it.
   */
  lemma {:induction false} RestoredExactly(before: Bytes, forward: seq<Call>, rec: Recovery, calls: seq<Call>, applied: nat,
                                           phase: Phase, reloaded: bool)
    requires calls == forward + rec.Calls() && AllLawful(before, calls)
    requires Compensates(rec, applied, before, phase, reloaded, Disk(before, forward + rec.rollbacks))
    ensures Disk(before, calls) == before <==> Disk(before, forward + rec.rollbacks) == before || WriteLanded(rec.restore)
  {
    var start := forward + rec.rollbacks;
    TailOf(forward, rec);
    LawfulAppend(before, start, rec.Tail());
    DiskAppend(before, start, rec.Tail());
    TailLeaves(Disk(before, start), rec, applied, before, phase, reloaded);
  }

  lemma {:induction false} TailLeaves(disk: Bytes, rec: Recovery, applied: nat, before: Bytes, phase: Phase, reloaded: bool)
    requires AllLawful(disk, rec.Tail()) && Compensates(rec, applied, before, phase, reloaded, disk)
    ensures Disk(disk, rec.Tail()) == if WriteLanded(rec.restore) then before else disk
  {
    var a, b, c, d := [rec.readback], rec.restore, rec.reload, [rec.manifest];
    FourParts(disk, a, b, c, d);
    OneCall(disk, rec.readback);
    RestoreLeaves(disk, b, before);
    FewCalls(Disk(disk, b), c);
    OneCall(Disk(disk, b), rec.manifest);
  }

  lemma {:induction false} FailedEarly(after: Bytes, n: nat, forward: seq<Call>, at: Stop, front: seq<Call>)
    requires FailedAt(after, n, forward, at) && at.AtPrologue? && front == Front(forward)
    ensures |front| == at.step < 5 && forward == front + [Last(forward)] && Quiet(front)
    ensures forall p :: 0 <= p < |front| ==> front[p].op == Prologue(after)[p]
  {
    assert OpsUpTo(after, n, at) == Prologue(after)[..at.step + 1];
    forall p | 0 <= p < |front| ensures front[p].op == Prologue(after)[p] {
      assert front[p] == forward[p];
    }
  }

  /** In front of a failed reload no participant has run, so the file holds the new bytes. */
  lemma {:induction false} EarlyRuntime(before: Bytes, after: Bytes, n: nat, forward: seq<Call>, at: Stop)
    requires FailedAt(after, n, forward, at) && AllLawful(before, forward) && !Loaded(at)
    ensures Runtime(forward).None? || (Runtime(forward) == Some(after) == Some(Disk(before, forward)))
  {
    var front, c := Front(forward), Last(forward);
    FailedEarly(after, n, forward, at, front);
    LawfulAppend(before, front, [c]);
    OneCall(Disk(before, front), c);
    NoLoad(before, front);
    if at.step == 3 {
      WrittenOnce(before, after, front);
    }
  }

  lemma {:induction false} NoLoad(base: Bytes, calls: seq<Call>)
    requires AllLawful(base, calls) && forall p :: 0 <= p < |calls| ==> !calls[p].op.Reload?
    ensures Runtime(calls).None?
  {
    forall p | 0 <= p < |calls| ensures calls[p].loads.None? {
      assert Lawful(calls[p], Disk(base, calls[..p]));
    }
    RuntimeFrom(calls, 0);
  }

  lemma {:induction false} WrittenOnce(base: Bytes, after: Bytes, calls: seq<Call>)
    requires AllLawful(base, calls) && |calls| == 3
    requires Quiet(calls) && forall p :: 0 <= p < 3 ==> calls[p].op == Prologue(after)[p]
    ensures Disk(base, calls) == after
  {
    assert Lawful(calls[1], Disk(base, calls[..1])) && Lawful(calls[2], Disk(base, calls[..2]));
    DiskAt(base, calls, 1, after);
  }

  lemma {:induction false} TailOf(forward: seq<Call>, rec: Recovery)
    ensures forward + rec.Calls() == (forward + rec.rollbacks) + rec.Tail()
  {
  }

  /**
    A run that reports `rolled_back`: the file holds the old bytes, the runtime was never reloaded or was reloaded from
    them, and the manifest on disk says `rolled_back` and in which phase the run failed.
   */
  lemma {:induction false} RolledBackRun(before: Bytes, after: Bytes, n: nat, forward: seq<Call>, at: Stop, rec: Recovery,
                                         calls: seq<Call>, first: Manifest)
    requires FailedAt(after, n, forward, at) && calls == forward + rec.Calls() && AllLawful(before, calls)
    requires Compensates(rec, Reached(n, at), before, PhaseAt(at), Loaded(at), Disk(before, forward + rec.rollbacks))
    requires StatusOf(rec) == RolledBack
    ensures Disk(before, calls) == before && (Runtime(calls) == None || Runtime(calls) == Some(before))
    ensures ManifestOn(first, calls) == Manifest(RolledBack, PhaseAt(at), [])
  {
    var start := forward + rec.rollbacks;
    TailOf(forward, rec);
    LawfulAppend(before, start, rec.Tail());
    StatusExactly(rec, Reached(n, at));
    QuietParts(rec);
    TailRestores(Disk(before, start), rec, Reached(n, at), before, PhaseAt(at), Loaded(at));
    DiskAppend(before, start, rec.Tail());
    RuntimeAppend(start, rec.Tail());
    if rec.reload == [] {
      assert rec.rollbacks == [] && start == forward;
      LawfulAppend(before, forward, rec.Tail());
      EarlyRuntime(before, after, n, forward, at);
    }
    ManifestWritten(before, calls, rec.manifest, first);
  }

  lemma {:induction false} ManifestWritten(base: Bytes, calls: seq<Call>, c: Call, first: Manifest)
    requires AllLawful(base, calls) && calls != [] && Last(calls) == c && c.op.WriteManifest? && !c.raised
    ensures ManifestOn(first, calls) == c.op.manifest
  {
    assert Lawful(calls[|calls| - 1], Disk(base, calls[..|calls| - 1]));
    ManifestLast(first, calls);
  }

  /**
    In every failed run, however much of the compensation fails too, the rollback calls are exactly one for each
    participant the loop reached, the last one first.
   */
  lemma {:induction false} RollbacksExactly(after: Bytes, n: nat, forward: seq<Call>, at: Stop, rec: Recovery, before: Bytes,
                                            disk: Bytes, p: nat)
    requires FailedAt(after, n, forward, at) && p < |forward + rec.Calls()|
    requires Compensates(rec, Reached(n, at), before, PhaseAt(at), Loaded(at), disk)
    ensures var c := (forward + rec.Calls())[p];
      && (c.op.Rollback? <==> |forward| <= p < |forward| + Reached(n, at))
      && (c.op.Rollback? ==> c.op.i == Reached(n, at) - 1 - (p - |forward|))
  {
    var calls := forward + rec.Calls();
    var m := |forward| + |rec.rollbacks|;
    Positions(forward, rec, calls, m);
    if p >= m {
      TailCalls(rec, calls, m, before, p);
    } else if p < |forward| {
      ForwardOps(after, n, forward, at, p);
    }
  }

  lemma {:induction false} ForwardOps(after: Bytes, n: nat, forward: seq<Call>, at: Stop, p: nat)
    requires FailedAt(after, n, forward, at) && p < |forward|
    ensures !forward[p].op.Rollback?
  {
    match at
    case AtPrologue(step) =>
    case AtRound(i, step) =>
      if 5 <= p < 5 + |Rounds(i)| {
        RoundsInLoop(i, p - 5);
      }
    case AtEpilogue(step) =>
      if 5 <= p < 5 + |Rounds(n)| {
        RoundsInLoop(n, p - 5);
      }
  }

  /**
    The participants reached are those whose first ownership test was made; all but the last of them were applied and
    verified without raising.
   */
  lemma {:induction false} ReachedExactly(after: Bytes, n: nat, forward: seq<Call>, at: Stop, i: nat)
    requires FailedAt(after, n, forward, at)
    ensures i < Reached(n, at) <==> i < n && |forward| > 5 + 4 * i
    ensures i + 1 < Reached(n, at) ==>
      && |forward| > 9 + 4 * i && forward[6 + 4 * i].op == Apply(i) && !forward[6 + 4 * i].raised
      && forward[7 + 4 * i].op == Verify(i) && !forward[7 + 4 * i].raised
  {
    match at
    case AtPrologue(step) =>
    case AtRound(j, step) =>
      RoundsLength(j);
      if i < j {
        RoundsAt(j, i, 1);
        RoundsAt(j, i, 2);
      }
    case AtEpilogue(step) =>
      RoundsLength(n);
      if i < n {
        RoundsAt(n, i, 1);
        RoundsAt(n, i, 2);
      }
  }

  // ---------- what the manifest of a failed run says ----------

  /** A rollback error is noted for each compensating step that failed, and for no other. */
  ghost predicate BlamesFit(errors: seq<Blame>, rec: Recovery) {
    && (forall i :: OfParticipant(i) in errors <==>
          exists p :: 0 <= p < |rec.rollbacks| && rec.rollbacks[p].op == Rollback(i) && rec.rollbacks[p].raised)
    && (OfReadback in errors <==> rec.readback.raised)
    && (OfConfig in errors <==> AnyRaised(rec.restore)) && (OfReload in errors <==> AnyRaised(rec.reload))
  }

  lemma {:induction false} ParticipantBlames(rollbacks: seq<Call>, i: nat)
    ensures OfParticipant(i) in RollbackBlames(rollbacks) <==>
            exists p :: 0 <= p < |rollbacks| && rollbacks[p].op == Rollback(i) && rollbacks[p].raised
  {
    if rollbacks != [] {
      var front, c := Front(rollbacks), Last(rollbacks);
      ParticipantBlames(front, i);
      if exists p :: 0 <= p < |front| && front[p].op == Rollback(i) && front[p].raised {
        var p :| 0 <= p < |front| && front[p].op == Rollback(i) && front[p].raised;
        assert rollbacks[p] == front[p];
      }
      if c.op == Rollback(i) && c.raised {
        assert rollbacks[|rollbacks| - 1] == c;
      }
    }
  }

  lemma {:induction false} OnlyParticipants(rollbacks: seq<Call>)
    ensures forall b :: b in RollbackBlames(rollbacks) ==> b.OfParticipant?
  {
    if rollbacks != [] {
      OnlyParticipants(Front(rollbacks));
    }
  }

  lemma {:induction false} BlamesExactly(rec: Recovery)
    ensures BlamesFit(Blames(rec), rec)
  {
    OnlyParticipants(rec.rollbacks);
    forall i: nat
      ensures OfParticipant(i) in Blames(rec) <==>
              exists p :: 0 <= p < |rec.rollbacks| && rec.rollbacks[p].op == Rollback(i) && rec.rollbacks[p].raised
    {
      ParticipantBlames(rec.rollbacks, i);
    }
  }

  /** If the last manifest could be written, it has the reported status, the phase of the failure and the rollback errors. */
  lemma {:induction false} FailedManifest(base: Bytes, after: Bytes, n: nat, forward: seq<Call>, at: Stop, rec: Recovery,
                                          calls: seq<Call>, before: Bytes, disk: Bytes, first: Manifest)
    requires FailedAt(after, n, forward, at) && calls == forward + rec.Calls() && AllLawful(base, calls)
    requires Compensates(rec, Reached(n, at), before, PhaseAt(at), Loaded(at), disk) && !Last(calls).raised
    ensures var m := ManifestOn(first, calls);
      m.status == StatusOf(rec) && PhaseFits(n, forward, m.failurePhase) && BlamesFit(m.rollbackErrors, rec)
  {
    PhaseIs(after, n, forward, at);
    BlamesExactly(rec);
    Positions(forward, rec, calls, |forward| + |rec.rollbacks|);
    ManifestWritten(base, calls, rec.manifest, first);
  }

  // ---------- what the compensation touches ----------

  ghost predicate SomeWrite(calls: seq<Call>) {
    exists p :: 0 <= p < |calls| && calls[p].op.WriteConfig?
  }

  ghost predicate SomeReload(calls: seq<Call>) {
    exists p :: 0 <= p < |calls| && calls[p].op.Reload?
  }

  ghost predicate SomeLoaded(calls: seq<Call>) {
    exists p :: 0 <= p < |calls| && calls[p].op.Reload? && !calls[p].raised
  }

  /** The runtime was reloaded by the run exactly if one of its reloads did not raise. */
  lemma {:induction false} LoadedExactly(after: Bytes, n: nat, forward: seq<Call>, at: Stop)
    requires FailedAt(after, n, forward, at)
    ensures Loaded(at) <==> SomeLoaded(forward)
  {
    FailedInOrder(after, n, forward, at, 0);
    if Loaded(at) {
      UpToLength(after, n, at);
      assert forward[3].op.Reload? && forward[3] == Front(forward)[3];
    }
  }

  lemma {:induction false} UpToLength(after: Bytes, n: nat, at: Stop)
    requires Within(n, at)
    ensures at.AtPrologue? ==> |OpsUpTo(after, n, at)| == at.step + 1
    ensures !at.AtPrologue? ==> |OpsUpTo(after, n, at)| > 5
  {
  }

  /**
    Behind the failed call the config file is written exactly if it could not be read back or did not hold the old bytes,
    and the runtime is reloaded exactly if the file was written back without an error, or needed not be although the run
    had reloaded the runtime.
   */
  lemma {:induction false} TouchesExactly(after: Bytes, n: nat, forward: seq<Call>, at: Stop, rec: Recovery, before: Bytes, disk: Bytes)
    requires FailedAt(after, n, forward, at)
    requires Compensates(rec, Reached(n, at), before, PhaseAt(at), Loaded(at), disk)
    ensures SomeWrite(rec.Calls()) <==> rec.readback.raised || disk != before
    ensures SomeReload(rec.Calls()) <==>
      !AnyRaised(rec.restore) && (rec.readback.raised || disk != before || SomeLoaded(forward))
    ensures forall p :: 0 <= p < |rec.Calls()| && rec.Calls()[p].op.WriteConfig? ==> rec.Calls()[p].op.payload == before
  {
    LoadedExactly(after, n, forward, at);
    TouchesAre(rec, Reached(n, at), before, Loaded(at), disk);
  }

  lemma {:induction false} TouchesAre(rec: Recovery, applied: nat, before: Bytes, reloaded: bool, disk: Bytes)
    requires Repaired(rec, applied, before, reloaded, disk) && rec.manifest.op.WriteManifest?
    ensures (SomeWrite(rec.Calls()) <==> rec.restore != []) && (SomeReload(rec.Calls()) <==> rec.reload != [])
    ensures forall p :: 0 <= p < |rec.Calls()| && rec.Calls()[p].op.WriteConfig? ==> rec.Calls()[p].op.payload == before
  {
    var calls := rec.Calls();
    forall p | 0 <= p < |calls| ensures TouchFits(rec, calls[p]) {
      TouchAt(rec, applied, before, reloaded, disk, p);
    }
    TouchesMade(rec, calls, |rec.rollbacks|);
    TouchesFrom(rec, calls, before);
  }

  lemma {:induction false} TouchesMade(rec: Recovery, calls: seq<Call>, m: nat)
    requires calls == rec.Calls() && m == |rec.rollbacks|
    ensures rec.restore != [] ==> rec.restore[0] in calls
    ensures rec.reload != [] ==> rec.reload[0] in calls
  {
    assert [] + calls == calls;
    Positions([], rec, calls, m);
    assert rec.restore != [] ==> calls[m + 1 + 0] == rec.restore[0];
    assert rec.reload != [] ==> calls[m + 1 + |rec.restore| + 0] == rec.reload[0];
  }

  lemma {:induction false} TouchesFrom(rec: Recovery, calls: seq<Call>, before: Bytes)
    requires forall p :: 0 <= p < |calls| ==> TouchFits(rec, calls[p])
    requires rec.restore != [] ==> rec.restore[0].op == WriteConfig(before) && rec.restore[0] in calls
    requires rec.reload != [] ==> rec.reload[0].op == Reload && rec.reload[0] in calls
    ensures (SomeWrite(calls) <==> rec.restore != []) && (SomeReload(calls) <==> rec.reload != [])
    ensures forall p :: 0 <= p < |calls| && calls[p].op.WriteConfig? ==> calls[p].op.payload == before
  {
  }

  predicate TouchFits(rec: Recovery, c: Call) {
    && (c.op.WriteConfig? ==> rec.restore != [] && c == rec.restore[0]) && (c.op.Reload? ==> rec.reload != [])
  }

  lemma {:induction false} TouchAt(rec: Recovery, applied: nat, before: Bytes, reloaded: bool, disk: Bytes, p: nat)
    requires Repaired(rec, applied, before, reloaded, disk) && rec.manifest.op.WriteManifest? && p < |rec.Calls()|
    ensures TouchFits(rec, rec.Calls()[p])
  {
    var calls, m := rec.Calls(), |rec.rollbacks|;
    assert [] + calls == calls;
    Positions([], rec, calls, m);
    if p >= m {
      TouchInTail(rec, calls, m, before, p);
    } else {
      assert calls[p] == rec.rollbacks[p];
    }
  }

  lemma {:induction false} TouchInTail(rec: Recovery, calls: seq<Call>, m: nat, before: Bytes, p: nat)
    requires |calls| == m + 2 + |rec.restore| + |rec.reload| && Last(calls) == rec.manifest && calls[m] == rec.readback
    requires forall j :: 0 <= j < |rec.restore| ==> calls[m + 1 + j] == rec.restore[j]
    requires forall j :: 0 <= j < |rec.reload| ==> calls[m + 1 + |rec.restore| + j] == rec.reload[j]
    requires rec.readback.op.ReadConfig? && rec.manifest.op.WriteManifest? && (rec.restore == [] || Restores(rec.restore, before))
    requires rec.reload == [] || (|rec.reload| == 1 && rec.reload[0].op == Reload)
    requires m <= p < |calls|
    ensures TouchFits(rec, calls[p])
  {
    TailCalls(rec, calls, m, before, p);
    if calls[p].op.WriteConfig? {
      assert calls[m + 1 + 0] == rec.restore[0];
    }
  }

  /** While the participants run, the manifest on disk says `reloaded` and the runtime has the new bytes. */
  lemma {:induction false} InTheLoop(before: Bytes, after: Bytes, calls: seq<Call>, more: seq<Call>, first: Manifest)
    requires Made(calls, Prologue(after)) && Quiet(calls) && AllLawful(before, calls + more)
    requires forall p :: 0 <= p < |more| ==> InLoop(more[p].op)
    ensures ManifestOn(first, calls + more) == Manifest(Reloaded, NoPhase, []) && Runtime(calls + more) == Some(after)
  {
    LawfulAppend(before, calls, more);
    PersistedRun(before, after, calls, first);
    NoLoad(Disk(before, calls), more);
    RuntimeAppend(calls, more);
    NoManifest(Disk(before, calls), calls, more, first);
  }

  lemma {:induction false} PersistedRun(before: Bytes, after: Bytes, calls: seq<Call>, first: Manifest)
    requires Made(calls, Prologue(after)) && Quiet(calls) && AllLawful(before, calls)
    ensures ManifestOn(first, calls) == Manifest(Reloaded, NoPhase, []) && Runtime(calls) == Some(after)
  {
    assert calls == calls[..3] + [calls[3]] + [calls[4]];
    LawfulAppend(before, calls[..3] + [calls[3]], [calls[4]]);
    LawfulAppend(before, calls[..3], [calls[3]]);
    WrittenOnce(before, after, calls[..3]);
    OneCall(after, calls[3]);
    RuntimeAppend(calls[..3], [calls[3]]);
    OneCall(Disk(before, calls[..3] + [calls[3]]), calls[4]);
    RuntimeAppend(calls[..3] + [calls[3]], [calls[4]]);
    ManifestWritten(before, calls, calls[4], first);
  }

  lemma {:induction false} NoManifest(disk: Bytes, calls: seq<Call>, more: seq<Call>, first: Manifest)
    requires AllLawful(disk, more) && forall p :: 0 <= p < |more| ==> InLoop(more[p].op)
    ensures ManifestOn(first, calls + more) == ManifestOn(first, calls)
    decreases |more|
  {
    if more == [] {
      assert calls + more == calls;
    } else {
      assert more == Front(more) + [Last(more)];
      LawfulAppend(disk, Front(more), [Last(more)]);
      OneCall(Disk(disk, Front(more)), Last(more));
      assert forall p :: 0 <= p < |Front(more)| ==> Front(more)[p] == more[p];
      NoManifest(disk, calls, Front(more), first);
      assert Front(calls + more) == calls + Front(more) && Last(calls + more) == Last(more);
    }
  }

  // ---------- the transaction ----------

  datatype Result = Refused | Finished | Raised(status: Status)

  /** What the source checks before it writes anything. */
  datatype Entry = Entry(lockHeld: bool, readable: bool, hashMatches: bool, artifactsWritten: bool)

  predicate Admitted(entry: Entry, current: Bytes, before: Bytes) {
    entry.lockHeld && entry.readable && current == before && entry.hashMatches && entry.artifactsWritten
  }

  /** `apply_operator_config_transaction` with `n` participants */
  method ApplyOperatorConfigTransaction(world: World, before: Bytes, after: Bytes, n: nat, entry: Entry)
    returns (r: Result, ghost forward: seq<Call>, ghost at: Stop, ghost rec: Recovery, ghost disk: Bytes)
    requires world.Valid() && world.log == []
    modifies world
    ensures world.Valid()
    ensures r.Refused? <==>
      !entry.lockHeld || !entry.readable || world.base != before || !entry.hashMatches || !entry.artifactsWritten
    ensures r.Refused? ==> world.log == []
    ensures r.Finished? ==> Succeeded(after, n, world.log)
    ensures r.Raised? ==>
      && world.log == forward + rec.Calls() && FailedAt(after, n, forward, at)
      && disk == Disk(before, forward + rec.rollbacks)
      && Compensates(rec, Reached(n, at), before, PhaseAt(at), Loaded(at), disk)
      && r.status == StatusOf(rec)
    ensures r.Finished? ==> world.runtime == Some(after) && world.manifest == Manifest(Completed, NoPhase, []) &&
                            (Untouched(world.log) ==> world.config == after)
    ensures r == Raised(RolledBack) ==>
      && world.config == before && (world.runtime == None || world.runtime == Some(before))
      && world.manifest == Manifest(RolledBack, PhaseAt(at), []) && PhaseFits(n, forward, world.manifest.failurePhase)
    ensures r.Raised? && !Last(world.log).raised ==>
      && world.manifest.status == r.status && PhaseFits(n, forward, world.manifest.failurePhase)
      && BlamesFit(world.manifest.rollbackErrors, rec)
  {
    forward, at := [], AtPrologue(0);
    disk := [];
    var noCall := Call(AssertOwned, false, None, None, None);
    rec := Recovery([], noCall, [], [], noCall);
    if !Admitted(entry, world.config, before) {
      return Refused, forward, at, rec, disk;
    }
    var raised, failurePhase, runtimeReloaded, applied;
    raised, failurePhase, runtimeReloaded, applied, at := Attempt(world, n, after);
    if !raised {
      CompletedRun(before, after, n, world.log, world.first);
      return Finished, forward, at, rec, disk;
    }
    forward := world.log;
    var status;
    status, rec, disk := Compensate(world, applied, before, failurePhase, runtimeReloaded);
    PhaseIs(after, n, forward, at);
    if !Last(world.log).raised {
      FailedManifest(world.base, after, n, forward, at, rec, world.log, before, disk, world.first);
    }
    if status == RolledBack {
      RolledBackRun(before, after, n, forward, at, rec, world.log, world.first);
    }
    r := Raised(status);
  }

  /** `runtime_reloaded` when the run stopped there. */
  predicate Loaded(at: Stop) {
    !at.AtPrologue? || at.step == 4
  }
}
