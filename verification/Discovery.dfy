/** `record_discovery_success` and `record_discovery_failure`: the model catalog of one Provider. */
module Discovery {
  import opened Text
  import opened Wrappers
  import opened Collections
  import opened Capabilities

  /** A verification or a reasoning contract: made for one fingerprint, stale under another. */
  datatype Check = Check(fingerprint: string, status: string, details: string)

  datatype Entry = Entry(upstreamId: string, title: string, availability: string, capabilities: RawRecord, limits: string,
                         verification: Option<Check>, reasoning: Option<Check>)

  type Catalog = map<string, Entry>

  datatype ObservedModel = ObservedModel(upstreamId: string, title: string, capabilities: RawRecord, limits: string)

  datatype PinnedModel = PinnedModel(upstreamId: string, title: string, capabilities: RawRecord)

  type Pinned = map<string, PinnedModel>

  // ---------- capabilities of one model ----------

  function ObservationsOf(caps: RawRecord, defaultSource: string): map<string, Observation> {
    map f | f in caps :: Observed(f, caps[f], defaultSource)
  }

  /** `_labeled_capability_observations` */
  function Labeled(caps: RawRecord, source: string): map<string, Observation> {
    map f | f in caps :: Observed(f, caps[f], source).(source := source)
  }

  function StoredRecord(m: Record): RawRecord {
    map f | f in m :: Stored(m[f])
  }

  predicate AllValid(seen: map<string, Observation>) {
    forall f :: f in seen ==> Valid(seen[f])
  }

  /** What is known of a model: its prior record, what the Provider says, what the operator says. */
  function CapabilitiesOf(prior: RawRecord, provider: RawRecord, operator: RawRecord): Record {
    Over(Upgrade(map[], ObservationsOf(prior, "driver_default")), provider, operator)
  }

  function Over(m: Record, provider: RawRecord, operator: RawRecord): Record {
    Upgrade(Upgrade(m, Labeled(provider, "provider_endpoint")), Labeled(operator, "operator_override"))
  }

  predicate CapabilitiesValid(prior: RawRecord, provider: RawRecord, operator: RawRecord) {
    && AllValid(ObservationsOf(prior, "driver_default")) && AllValid(Labeled(provider, "provider_endpoint"))
    && AllValid(Labeled(operator, "operator_override"))
  }

  lemma {:induction false} UpgradeMerged(m: Record, seen: map<string, Observation>)
    requires (forall f :: f in m ==> IsMerged(m[f])) && AllValid(seen)
    ensures forall f :: f in Upgrade(m, seen) ==> IsMerged(Upgrade(m, seen)[f])
  {
  }

  lemma {:induction false} RereadsRecord(m: Record)
    requires forall f :: f in m ==> IsMerged(m[f])
    ensures Upgrade(map[], ObservationsOf(StoredRecord(m), "driver_default")) == m
  {
    var obs := ObservationsOf(StoredRecord(m), "driver_default");
    assert obs.Keys == m.Keys;
    forall f | f in m ensures Recorded(obs[f]) == m[f] {
      RereadsItself(f, m[f], "driver_default");
    }
    RecordedAlone(m, obs);
  }

  lemma {:induction false} RecordedAlone(m: Record, obs: map<string, Observation>)
    requires obs.Keys == m.Keys && forall f :: f in m ==> Recorded(obs[f]) == m[f]
    ensures Upgrade(map[], obs) == m
  {
  }

  /** Hearing the same again changes nothing: the operator outranks the Provider, and each repeats itself. */
  lemma {:induction false} OverTwice(m: Record, provider: RawRecord, operator: RawRecord)
    ensures Over(Over(m, provider, operator), provider, operator) == Over(m, provider, operator)
  {
    var once := Over(m, provider, operator);
    var twice := Over(once, provider, operator);
    forall f ensures (f in twice <==> f in once) && (f in once ==> twice[f] == once[f]) {
      OverField(m, provider, operator, f);
      OverField(once, provider, operator, f);
    }
  }

  /** One field of it. */
  lemma {:induction false} OverField(m: Record, provider: RawRecord, operator: RawRecord, f: string)
    ensures var r := Over(m, provider, operator);
      && (f in r <==> f in m || f in provider || f in operator)
      && (f in operator && (f !in m || Priority(m[f].source) <= 50) ==>
           r[f] == Recorded(Labeled(operator, "operator_override")[f]) && r[f].source == "operator_override")
      && (f in operator && f in m && Priority(m[f].source) > 50 ==> r[f] == m[f])
      && (f !in operator && f in provider && (f !in m || Priority(m[f].source) <= 30) ==>
           r[f] == Recorded(Labeled(provider, "provider_endpoint")[f]) && r[f].source == "provider_endpoint")
      && (f !in operator && f in provider && f in m && Priority(m[f].source) > 30 ==> r[f] == m[f])
      && (f !in operator && f !in provider && f in m ==> r[f] == m[f])
  {
    UpgradeField(m, Labeled(provider, "provider_endpoint"), f, 30);
    UpgradeField(Upgrade(m, Labeled(provider, "provider_endpoint")), Labeled(operator, "operator_override"), f, 50);
  }

  /** One field of one merge, of observations that all have the rank `rank`. */
  lemma {:induction false} UpgradeField(m: Record, seen: map<string, Observation>, f: string, rank: nat)
    requires f in seen ==> Priority(seen[f].source) == rank
    ensures var r := Upgrade(m, seen);
      && (f in r <==> f in m || f in seen)
      && (f in seen && (f !in m || Priority(m[f].source) <= rank) ==> r[f] == Recorded(seen[f]) && r[f].source == seen[f].source)
      && (f in m && (f !in seen || Priority(m[f].source) > rank) ==> r[f] == m[f])
  {
  }

  /** Reading the merged record back and hearing the same again gives the same record. */
  lemma {:induction false} CapabilitiesTwice(prior: RawRecord, provider: RawRecord, operator: RawRecord)
    requires CapabilitiesValid(prior, provider, operator)
    ensures CapabilitiesOf(StoredRecord(CapabilitiesOf(prior, provider, operator)), provider, operator) ==
            CapabilitiesOf(prior, provider, operator)
  {
    var m := Upgrade(map[], ObservationsOf(prior, "driver_default"));
    UpgradeMerged(map[], ObservationsOf(prior, "driver_default"));
    UpgradeMerged(m, Labeled(provider, "provider_endpoint"));
    UpgradeMerged(Upgrade(m, Labeled(provider, "provider_endpoint")), Labeled(operator, "operator_override"));
    RereadsRecord(Over(m, provider, operator));
    OverTwice(m, provider, operator);
  }

  /** The rank of a stored field. */
  function RankOf(caps: RawRecord, f: string): nat
    requires f in caps
  {
    Priority(Observed(f, caps[f], "driver_default").source)
  }

  /** No field is lost and no field's source falls in rank. */
  predicate NeverLower(before: RawRecord, after: RawRecord) {
    forall f :: f in before ==> f in after && RankOf(after, f) >= RankOf(before, f)
  }

  lemma {:induction false} CapabilitiesNeverLower(prior: RawRecord, provider: RawRecord, operator: RawRecord)
    requires CapabilitiesValid(prior, provider, operator)
    ensures NeverLower(prior, StoredRecord(CapabilitiesOf(prior, provider, operator)))
  {
    var m := Upgrade(map[], ObservationsOf(prior, "driver_default"));
    var r := CapabilitiesOf(prior, provider, operator);
    forall f | f in prior ensures f in StoredRecord(r) && RankOf(StoredRecord(r), f) >= RankOf(prior, f) {
      OverField(m, provider, operator, f);
      assert m[f] == Recorded(ObservationsOf(prior, "driver_default")[f]);
      assert Valid(ObservationsOf(prior, "driver_default")[f]);
      SourceKept(f, r[f]);
    }
  }

  lemma {:induction false} SourceKept(f: string, c: Capability)
    requires Priority(c.source) > 0
    ensures Observed(f, Stored(c), "driver_default").source == c.source
  {
  }

  // ---------- entries ----------

  /** `verification["status"] = "stale"` under another fingerprint */
  function Marked(c: Option<Check>, fingerprint: string): Option<Check> {
    if c.Some? && c.value.fingerprint != fingerprint then Some(c.value.(status := "stale")) else c
  }

  const NO_ENTRY := Entry("", "", "", map[], "", None, None)

  function PriorOf(previous: Catalog, key: string): Entry {
    if key in previous then previous[key] else NO_ENTRY
  }

  /** The operator's capabilities count only for the model they were pinned for. */
  function OperatorOf(pinned: Pinned, key: string, upstreamId: string): Option<RawRecord> {
    if key in pinned && pinned[key].upstreamId == upstreamId then Some(pinned[key].capabilities) else None
  }

  function OrEmpty(caps: Option<RawRecord>): RawRecord {
    if caps.Some? then caps.value else map[]
  }

  function ObservedEntry(o: ObservedModel, operator: Option<RawRecord>, prior: Entry, fingerprint: string): Entry {
    Entry(o.upstreamId, Or(o.title, o.upstreamId), if operator.Some? then "pinned" else "observed",
          StoredRecord(CapabilitiesOf(prior.capabilities, o.capabilities, OrEmpty(operator))), o.limits,
          Marked(prior.verification, fingerprint), Marked(prior.reasoning, fingerprint))
  }

  function MissingEntry(p: PinnedModel, prior: Entry, fingerprint: string): Entry {
    prior.(upstreamId := p.upstreamId, title := Or(p.title, Or(prior.title, p.upstreamId)), availability := "missing_remote",
           capabilities := StoredRecord(CapabilitiesOf(prior.capabilities, map[], p.capabilities)),
           verification := Marked(prior.verification, fingerprint), reasoning := Marked(prior.reasoning, fingerprint))
  }

  // ---------- what an entry says, field by field ----------

  /** A check stays as it is under its own fingerprint; under another its status becomes stale, and nothing else of it. */
  predicate CheckFits(now: Option<Check>, was: Option<Check>, fingerprint: string) {
    && (was.None? ==> now.None?)
    && (was.Some? ==>
          && now.Some? && now.value.fingerprint == was.value.fingerprint && now.value.details == was.value.details
          && (was.value.fingerprint == fingerprint ==> now.value.status == was.value.status)
          && (was.value.fingerprint != fingerprint ==> now.value.status == "stale"))
  }

  predicate StoredFrom(r: Raw, o: Observation) {
    && r.Table? && r.value == o.value && r.source == o.source && r.confidence == o.confidence && r.checkedAt == o.checkedAt
    && r.error == ClassifyCapabilityError(o.error)
  }

  /** Only a probe or the operator outranks the Provider's own word. */
  predicate Outranks(source: string) {
    source == "runtime_probe" || source == "operator_override"
  }

  /** One field: what the operator says, else what the Provider says unless the prior record outranks it, else that. */
  ghost predicate FieldFits(after: RawRecord, prior: RawRecord, provider: RawRecord, operator: RawRecord, f: string) {
    && (f in after <==> f in prior || f in provider || f in operator)
    && (f in operator ==> StoredFrom(after[f], Observed(f, operator[f], "").(source := "operator_override")))
    && (f !in operator && f in provider && !(f in prior && Outranks(Observed(f, prior[f], "driver_default").source)) ==>
          StoredFrom(after[f], Observed(f, provider[f], "").(source := "provider_endpoint")))
    && (f !in operator && f in prior && (f in provider ==> Outranks(Observed(f, prior[f], "driver_default").source)) ==>
          StoredFrom(after[f], Observed(f, prior[f], "driver_default")))
  }

  ghost predicate CapabilitiesFit(after: RawRecord, prior: RawRecord, provider: RawRecord, operator: RawRecord) {
    forall f :: FieldFits(after, prior, provider, operator, f)
  }

  lemma {:induction false} FieldOfCapabilities(prior: RawRecord, provider: RawRecord, operator: RawRecord, f: string)
    requires CapabilitiesValid(prior, provider, operator)
    ensures FieldFits(StoredRecord(CapabilitiesOf(prior, provider, operator)), prior, provider, operator, f)
  {
    var m := Upgrade(map[], ObservationsOf(prior, "driver_default"));
    PriorField(prior, f, m);
    OverField(m, provider, operator, f);
    if f in provider {
      SameButSource(f, provider[f], "provider_endpoint");
    }
    if f in operator {
      SameButSource(f, operator[f], "operator_override");
    }
  }

  lemma {:induction false} PriorField(prior: RawRecord, f: string, m: Record)
    requires m == Upgrade(map[], ObservationsOf(prior, "driver_default")) && AllValid(ObservationsOf(prior, "driver_default"))
    ensures f in m <==> f in prior
    ensures f in prior ==>
      && m[f] == Recorded(Observed(f, prior[f], "driver_default")) && Priority(m[f].source) <= 50
      && (Priority(m[f].source) > 30 <==> Outranks(m[f].source))
  {
    if f in prior {
      var o := ObservationsOf(prior, "driver_default")[f];
      assert Valid(o);
      SourcesRanked(o.source);
    }
  }

  lemma {:induction false} SameButSource(f: string, raw: Raw, source: string)
    ensures Observed(f, raw, source).(source := source) == Observed(f, raw, "").(source := source)
  {
  }

  lemma {:induction false} CapabilitiesAre(prior: RawRecord, provider: RawRecord, operator: RawRecord)
    requires CapabilitiesValid(prior, provider, operator)
    ensures CapabilitiesFit(StoredRecord(CapabilitiesOf(prior, provider, operator)), prior, provider, operator)
  {
    forall f ensures FieldFits(StoredRecord(CapabilitiesOf(prior, provider, operator)), prior, provider, operator, f) {
      FieldOfCapabilities(prior, provider, operator, f);
    }
  }

  /** What the catalog knew under a key, blank where it knew nothing. */
  predicate IsPrior(previous: Catalog, key: string, e: Entry) {
    && (key in previous ==> e == previous[key])
    && (key !in previous ==>
          && e.upstreamId == e.title == e.availability == e.limits == "" && e.capabilities == map[]
          && e.verification.None? && e.reasoning.None?)
  }

  /** A model the Provider lists: it is pinned if the operator pinned this very model under the key. */
  ghost predicate ObservedFits(e: Entry, o: ObservedModel, pinned: Pinned, key: string, prior: Entry, fingerprint: string) {
    var isPinned := key in pinned && pinned[key].upstreamId == o.upstreamId;
    && e.upstreamId == o.upstreamId && IsFirst(e.title, o.title, o.upstreamId) && e.limits == o.limits
    && (isPinned ==> e.availability == "pinned") && (!isPinned ==> e.availability == "observed")
    && CapabilitiesFit(e.capabilities, prior.capabilities, o.capabilities, if isPinned then pinned[key].capabilities else map[])
    && CheckFits(e.verification, prior.verification, fingerprint) && CheckFits(e.reasoning, prior.reasoning, fingerprint)
  }

  /** A pinned model that the Provider does not list: what was known of it stays, and it is marked as missing. */
  ghost predicate MissingFits(e: Entry, p: PinnedModel, prior: Entry, fingerprint: string) {
    && e.upstreamId == p.upstreamId && e.availability == "missing_remote" && e.limits == prior.limits
    && (p.title != "" ==> e.title == p.title) && (p.title == "" ==> IsFirst(e.title, prior.title, p.upstreamId))
    && CapabilitiesFit(e.capabilities, prior.capabilities, map[], p.capabilities)
    && CheckFits(e.verification, prior.verification, fingerprint) && CheckFits(e.reasoning, prior.reasoning, fingerprint)
  }

  /** The last model of the answer that goes to this key. */
  predicate IsLastFor(a: Answer, key: string, i: nat) {
    && i < |a.observed| && a.observed[i].upstreamId != "" && a.keyOf(a.observed[i].upstreamId) == key
    && forall j :: i < j < |a.observed| ==> a.observed[j].upstreamId == "" || a.keyOf(a.observed[j].upstreamId) != key
  }

  /** A pinned model whose upstream id is not in the answer, whatever the keys. */
  predicate NotListed(a: Answer, key: string) {
    && key in a.pinned && a.pinned[key].upstreamId != ""
    && forall i :: 0 <= i < |a.observed| ==> a.observed[i].upstreamId != a.pinned[key].upstreamId
  }

  lemma {:induction false} MissingExactly(a: Answer, key: string)
    ensures IsMissing(a, key) <==> NotListed(a, key)
  {
  }

  ghost predicate EntryFits(a: Answer, previous: Catalog, key: string, e: Entry) {
    exists prior :: IsPrior(previous, key, prior) &&
      if NotListed(a, key) then MissingFits(e, a.pinned[key], prior, a.fingerprint)
      else exists i: nat :: IsLastFor(a, key, i) && ObservedFits(e, a.observed[i], a.pinned, key, prior, a.fingerprint)
  }

  /** The catalog holds exactly the models that are listed or pinned and missing, each as it should be. */
  ghost predicate CatalogFits(a: Answer, previous: Catalog, next: Catalog) {
    && (forall key :: key in next <==> NotListed(a, key) || exists i: nat :: IsLastFor(a, key, i))
    && forall key :: key in next ==> EntryFits(a, previous, key, next[key])
  }

  lemma {:induction false} LastForExactly(a: Answer, n: nat, key: string) returns (i: nat)
    requires n <= |a.observed|
    requires forall j :: n <= j < |a.observed| ==> a.observed[j].upstreamId == "" || a.keyOf(a.observed[j].upstreamId) != key
    ensures LastFor(a, n, key).Some? ==> IsLastFor(a, key, i) && a.observed[i] == LastFor(a, n, key).value
    ensures LastFor(a, n, key).None? ==> forall j: nat :: !IsLastFor(a, key, j)
  {
    i := 0;
    if n > 0 {
      var o := a.observed[n - 1];
      if o.upstreamId != "" && a.keyOf(o.upstreamId) == key {
        i := n - 1;
      } else {
        i := LastForExactly(a, n - 1, key);
      }
    }
  }

  lemma {:induction false} PriorExactly(previous: Catalog, key: string)
    ensures IsPrior(previous, key, PriorOf(previous, key))
  {
  }

  lemma {:induction false} ObservedIs(o: ObservedModel, pinned: Pinned, key: string, prior: Entry, fingerprint: string)
    requires CapabilitiesValid(prior.capabilities, o.capabilities, OrEmpty(OperatorOf(pinned, key, o.upstreamId)))
    ensures ObservedFits(ObservedEntry(o, OperatorOf(pinned, key, o.upstreamId), prior, fingerprint), o, pinned, key, prior, fingerprint)
  {
    CapabilitiesAre(prior.capabilities, o.capabilities, OrEmpty(OperatorOf(pinned, key, o.upstreamId)));
  }

  lemma {:induction false} MissingIs(p: PinnedModel, prior: Entry, fingerprint: string)
    requires CapabilitiesValid(prior.capabilities, map[], p.capabilities)
    ensures MissingFits(MissingEntry(p, prior, fingerprint), p, prior, fingerprint)
  {
    CapabilitiesAre(prior.capabilities, map[], p.capabilities);
  }

  lemma {:induction false} EntryIs(a: Answer, previous: Catalog, key: string, e: Entry)
    requires Catalogued(a, key) && Rewritten(a, WritersOf(a, previous), key) == Some(e)
    ensures EntryFits(a, previous, key, e)
  {
    var prior := PriorOf(previous, key);
    PriorExactly(previous, key);
    MissingExactly(a, key);
    if IsMissing(a, key) {
      MissingIs(a.pinned[key], prior, a.fingerprint);
    } else {
      var i := LastForExactly(a, |a.observed|, key);
      ObservedIs(a.observed[i], a.pinned, key, prior, a.fingerprint);
    }
  }

  lemma {:induction false} SuccessFits(a: Answer, previous: Catalog, next: Catalog)
    requires IsSuccess(a, previous, next)
    ensures CatalogFits(a, previous, next)
  {
    forall key ensures key in next <==> NotListed(a, key) || exists i: nat :: IsLastFor(a, key, i) {
      MissingExactly(a, key);
      var i := LastForExactly(a, |a.observed|, key);
    }
    forall key | key in next ensures EntryFits(a, previous, key, next[key]) {
      EntryIs(a, previous, key, next[key]);
    }
  }

  // ---------- the catalog after a discovery ----------

  /** One successful discovery of a Provider. */
  datatype Answer = Answer(fingerprint: string, observed: seq<ObservedModel>, pinned: Pinned, keyOf: string -> string)

  /** The last observation that goes to this key; models without an id are skipped. */
  function LastFor(a: Answer, n: nat, key: string): Option<ObservedModel>
    requires n <= |a.observed|
  {
    if n == 0 then None
    else
      var o := a.observed[n - 1];
      if o.upstreamId != "" && a.keyOf(o.upstreamId) == key then Some(o) else LastFor(a, n - 1, key)
  }

  predicate Answered(a: Answer, upstreamId: string) {
    exists i :: 0 <= i < |a.observed| && a.observed[i].upstreamId == upstreamId
  }

  /** A pinned model that the Provider did not list. */
  predicate IsMissing(a: Answer, key: string) {
    key in a.pinned && a.pinned[key].upstreamId != "" && !Answered(a, a.pinned[key].upstreamId)
  }

  predicate Catalogued(a: Answer, key: string) {
    IsMissing(a, key) || LastFor(a, |a.observed|, key).Some?
  }

  /** What the loops write under a key: None when a capability cannot be merged. */
  datatype Writers = Writers(observe: (string, ObservedModel) -> Option<Entry>, complete: string -> Option<Entry>)

  function ObserveEntry(a: Answer, previous: Catalog, key: string, o: ObservedModel): Option<Entry> {
    var operator := OperatorOf(a.pinned, key, o.upstreamId);
    var prior := PriorOf(previous, key);
    if CapabilitiesValid(prior.capabilities, o.capabilities, OrEmpty(operator)) then
      Some(ObservedEntry(o, operator, prior, a.fingerprint))
    else None
  }

  function CompleteEntry(a: Answer, previous: Catalog, key: string): Option<Entry> {
    var prior := PriorOf(previous, key);
    if key in a.pinned && CapabilitiesValid(prior.capabilities, map[], a.pinned[key].capabilities) then
      Some(MissingEntry(a.pinned[key], prior, a.fingerprint))
    else None
  }

  function WritersOf(a: Answer, previous: Catalog): Writers {
    Writers((key: string, o: ObservedModel) => ObserveEntry(a, previous, key, o), (key: string) => CompleteEntry(a, previous, key))
  }

  /** What a discovery makes of the entry of one key. */
  function Rewritten(a: Answer, w: Writers, key: string): Option<Entry>
    requires Catalogued(a, key)
  {
    if IsMissing(a, key) then w.complete(key) else w.observe(key, LastFor(a, |a.observed|, key).value)
  }

  /** The catalog a discovery leaves, key by key. */
  ghost predicate IsSuccessWith(a: Answer, w: Writers, next: Catalog) {
    && (forall key :: key in next <==> Catalogued(a, key))
    && (forall key :: key in next ==> Rewritten(a, w, key) == Some(next[key]))
  }

  ghost predicate IsSuccess(a: Answer, previous: Catalog, next: Catalog) {
    IsSuccessWith(a, WritersOf(a, previous), next)
  }

  lemma {:induction false} ObservedTwice(o: ObservedModel, operator: Option<RawRecord>, prior: Entry, fingerprint: string)
    requires CapabilitiesValid(prior.capabilities, o.capabilities, OrEmpty(operator))
    ensures ObservedEntry(o, operator, ObservedEntry(o, operator, prior, fingerprint), fingerprint) ==
            ObservedEntry(o, operator, prior, fingerprint)
  {
    CapabilitiesTwice(prior.capabilities, o.capabilities, OrEmpty(operator));
  }

  lemma {:induction false} MissingTwice(p: PinnedModel, prior: Entry, fingerprint: string)
    requires CapabilitiesValid(prior.capabilities, map[], p.capabilities) && p.upstreamId != ""
    ensures MissingEntry(p, MissingEntry(p, prior, fingerprint), fingerprint) == MissingEntry(p, prior, fingerprint)
  {
    CapabilitiesTwice(prior.capabilities, map[], p.capabilities);
  }

  lemma {:induction false} RewrittenTwice(a: Answer, key: string, previous: Catalog, once: Catalog)
    requires Catalogued(a, key) && key in once && Rewritten(a, WritersOf(a, previous), key) == Some(once[key])
    ensures Rewritten(a, WritersOf(a, once), key).Some? ==> Rewritten(a, WritersOf(a, once), key) == Some(once[key])
  {
    var prior := PriorOf(previous, key);
    if IsMissing(a, key) {
      MissingTwice(a.pinned[key], prior, a.fingerprint);
    } else {
      var o := LastFor(a, |a.observed|, key).value;
      ObservedTwice(o, OperatorOf(a.pinned, key, o.upstreamId), prior, a.fingerprint);
    }
  }

  /** Repeating the same discovery success changes nothing. */
  lemma {:induction false} SuccessTwice(a: Answer, previous: Catalog, once: Catalog, twice: Catalog)
    requires IsSuccess(a, previous, once) && IsSuccess(a, once, twice)
    ensures twice == once
  {
    forall key | key in once
      ensures Rewritten(a, WritersOf(a, once), key).Some? ==> Rewritten(a, WritersOf(a, once), key) == Some(once[key])
    {
      RewrittenTwice(a, key, previous, once);
    }
    SameCatalog(a, WritersOf(a, previous), WritersOf(a, once), once, twice);
  }

  lemma {:induction false} SameCatalog(a: Answer, v: Writers, w: Writers, once: Catalog, twice: Catalog)
    requires IsSuccessWith(a, v, once) && IsSuccessWith(a, w, twice)
    requires forall key :: key in once ==> (Rewritten(a, w, key).Some? ==> Rewritten(a, w, key) == Some(once[key]))
    ensures twice == once
  {
    assert forall key :: key in twice <==> key in once;
  }

  /** While a model stays catalogued, no capability is lost and no source falls in rank. */
  lemma {:induction false} SuccessNeverLower(a: Answer, previous: Catalog, next: Catalog, key: string)
    requires IsSuccess(a, previous, next) && key in previous && key in next
    ensures NeverLower(previous[key].capabilities, next[key].capabilities)
  {
    if IsMissing(a, key) {
      CapabilitiesNeverLower(previous[key].capabilities, map[], a.pinned[key].capabilities);
    } else {
      var o := LastFor(a, |a.observed|, key).value;
      CapabilitiesNeverLower(previous[key].capabilities, o.capabilities, OrEmpty(OperatorOf(a.pinned, key, o.upstreamId)));
    }
  }

  // ---------- runs ----------

  /** A failed discovery keeps the models. */
  datatype Event = Success(answer: Answer) | Failure

  ghost predicate Follows(e: Event, previous: Catalog, next: Catalog) {
    match e
    case Success(a) => IsSuccess(a, previous, next)
    case Failure => next == previous
  }

  /** Over any run of discoveries in which the model stays catalogued, its sources never fall in rank. */
  lemma {:induction false} RunNeverLower(events: seq<Event>, states: seq<Catalog>, key: string)
    requires |states| == |events| + 1 && forall i :: 0 <= i < |events| ==> Follows(events[i], states[i], states[i + 1])
    requires forall i :: 0 <= i < |states| ==> key in states[i]
    ensures NeverLower(states[0][key].capabilities, states[|events|][key].capabilities)
    decreases |events|
  {
    if events != [] {
      var n := |events| - 1;
      RunNeverLower(events[..n], states[..n + 1], key);
      assert Follows(events[n], states[n], states[n + 1]);
      if events[n].Success? {
        SuccessNeverLower(events[n].answer, states[n], states[n + 1], key);
      }
    }
  }

  // ---------- the source's loops ----------

  /** The items of a dictionary, as a list. */
  method ListObservations(seen: map<string, Observation>) returns (list: seq<Observation>)
    requires forall f :: f in seen ==> seen[f].field == f
    ensures Lists(list, seen)
  {
    list := [];
    var rest := seen.Keys;
    while rest != {}
      invariant rest <= seen.Keys && Listed(list, seen, seen.Keys - rest)
      decreases rest
    {
      var f :| f in rest;
      ListOneMore(list, seen, seen.Keys - rest, f);
      OneLess(seen.Keys, rest, f);
      list := list + [seen[f]];
      rest := rest - {f};
    }
    NoneLess(seen.Keys);
  }

  ghost predicate Listed(list: seq<Observation>, seen: map<string, Observation>, done: set<string>) {
    && (forall f :: f in done && f in seen ==> seen[f] in list)
    && (forall i :: 0 <= i < |list| ==> list[i].field in done && list[i].field in seen && list[i] == seen[list[i].field])
    && (forall i, j :: 0 <= i < j < |list| ==> list[i].field != list[j].field)
  }

  lemma {:induction false} ListOneMore(list: seq<Observation>, seen: map<string, Observation>, done: set<string>, f: string)
    requires Listed(list, seen, done) && f in seen && f !in done && seen[f].field == f
    ensures Listed(list + [seen[f]], seen, done + {f})
  {
    var more := list + [seen[f]];
    assert more[|list|] == seen[f];
    forall g | g in done + {f} && g in seen ensures seen[g] in more {
      if g != f {
        assert seen[g] in list;
      }
    }
  }

  lemma {:induction false} ListedValid(list: seq<Observation>, seen: map<string, Observation>)
    requires Lists(list, seen)
    ensures (forall i :: 0 <= i < |list| ==> Valid(list[i])) <==> AllValid(seen)
  {
    if forall i :: 0 <= i < |list| ==> Valid(list[i]) {
      forall f | f in seen ensures Valid(seen[f]) {
        var i :| 0 <= i < |list| && list[i] == seen[f];
      }
    }
  }

  predicate EachValid(list: seq<Observation>) {
    forall i :: 0 <= i < |list| ==> Valid(list[i])
  }

  lemma {:induction false} EachValidAppend(a: seq<Observation>, b: seq<Observation>)
    ensures EachValid(a + b) <==> EachValid(a) && EachValid(b)
  {
    if EachValid(a + b) {
      assert forall i :: 0 <= i < |a| ==> a[i] == (a + b)[i];
      assert forall i :: 0 <= i < |b| ==> b[i] == (a + b)[|a| + i];
    }
  }

  /** The three lists of observations of one model, merged. */
  method MergeModelCapabilities(prior: RawRecord, provider: RawRecord, operator: RawRecord) returns (r: Option<RawRecord>)
    ensures r.Some? <==> CapabilitiesValid(prior, provider, operator)
    ensures r.Some? ==> r.value == StoredRecord(CapabilitiesOf(prior, provider, operator))
  {
    var x := ListObservations(ObservationsOf(prior, "driver_default"));
    var y := ListObservations(Labeled(provider, "provider_endpoint"));
    var z := ListObservations(Labeled(operator, "operator_override"));
    var merged := MergeCapabilityObservations(x + y + z);
    ListsMerge(x, y, z, prior, provider, operator);
    assert merged.Some? <==> EachValid(x + y + z);
    r := if merged.Some? then Some(StoredRecord(merged.value)) else None;
  }

  lemma {:induction false} ListsMerge(x: seq<Observation>, y: seq<Observation>, z: seq<Observation>,
                                      prior: RawRecord, provider: RawRecord, operator: RawRecord)
    requires Lists(x, ObservationsOf(prior, "driver_default")) && Lists(y, Labeled(provider, "provider_endpoint"))
    requires Lists(z, Labeled(operator, "operator_override"))
    ensures EachValid(x + y + z) <==> CapabilitiesValid(prior, provider, operator)
    ensures MergeFrom(map[], x + y + z) == CapabilitiesOf(prior, provider, operator)
  {
    ListedValid(x, ObservationsOf(prior, "driver_default"));
    ListedValid(y, Labeled(provider, "provider_endpoint"));
    ListedValid(z, Labeled(operator, "operator_override"));
    EachValidAppend(x + y, z);
    EachValidAppend(x, y);
    MergeAppend(map[], x + y, z);
    MergeAppend(map[], x, y);
    MergeLists(map[], x, ObservationsOf(prior, "driver_default"));
    MergeLists(MergeFrom(map[], x), y, Labeled(provider, "provider_endpoint"));
    MergeLists(MergeFrom(map[], x + y), z, Labeled(operator, "operator_override"));
  }

  /** One turn of the first loop. */
  method WriteObserved(a: Answer, previous: Catalog, key: string, o: ObservedModel) returns (r: Option<Entry>)
    ensures r == ObserveEntry(a, previous, key, o)
  {
    var operator := OperatorOf(a.pinned, key, o.upstreamId);
    var prior := PriorOf(previous, key);
    var caps := MergeModelCapabilities(prior.capabilities, o.capabilities, OrEmpty(operator));
    if caps.None? {
      return None;
    }
    r := Some(Entry(o.upstreamId, Or(o.title, o.upstreamId), if operator.Some? then "pinned" else "observed", caps.value, o.limits,
                    Marked(prior.verification, a.fingerprint), Marked(prior.reasoning, a.fingerprint)));
  }

  /** One turn of the second loop. */
  method WriteMissing(a: Answer, previous: Catalog, key: string) returns (r: Option<Entry>)
    requires key in a.pinned
    ensures r == CompleteEntry(a, previous, key)
  {
    var p, prior := a.pinned[key], PriorOf(previous, key);
    var caps := MergeModelCapabilities(prior.capabilities, map[], p.capabilities);
    if caps.None? {
      return None;
    }
    r := Some(prior.(upstreamId := p.upstreamId, title := Or(p.title, Or(prior.title, p.upstreamId)),
                     availability := "missing_remote", capabilities := caps.value,
                     verification := Marked(prior.verification, a.fingerprint),
                     reasoning := Marked(prior.reasoning, a.fingerprint)));
  }

  /** The first `n` observations could be written, and the entries are theirs. */
  ghost predicate Observing(a: Answer, w: Writers, n: nat, models: Catalog)
    requires n <= |a.observed|
  {
    && (forall i :: 0 <= i < n ==> Writable(a, w, a.observed[i]))
    && (forall key :: key in models <==> LastFor(a, n, key).Some?)
    && (forall key :: key in models ==> w.observe(key, LastFor(a, n, key).value) == Some(models[key]))
  }

  predicate Writable(a: Answer, w: Writers, o: ObservedModel) {
    o.upstreamId != "" ==> w.observe(a.keyOf(o.upstreamId), o).Some?
  }

  lemma {:induction false} ObserveMore(a: Answer, w: Writers, n: nat, models: Catalog, e: Option<Entry>)
    requires n < |a.observed| && Observing(a, w, n, models)
    requires var o := a.observed[n]; o.upstreamId != "" ==> e.Some? && w.observe(a.keyOf(o.upstreamId), o) == e
    ensures Observing(a, w, n + 1, if a.observed[n].upstreamId == "" then models else models[a.keyOf(a.observed[n].upstreamId) := e.value])
  {
  }

  /** The loop over what the Provider lists. */
  method RecordObserved(a: Answer, previous: Catalog, ghost w: Writers) returns (r: Option<Catalog>)
    requires w == WritersOf(a, previous)
    ensures r.Some? <==> forall i :: 0 <= i < |a.observed| ==> Writable(a, w, a.observed[i])
    ensures r.Some? ==> Observing(a, w, |a.observed|, r.value)
  {
    var models: Catalog := map[];
    for n := 0 to |a.observed|
      invariant Observing(a, w, n, models)
    {
      var o := a.observed[n];
      var entry: Option<Entry> := None;
      if o.upstreamId != "" {
        entry := WriteObserved(a, previous, a.keyOf(o.upstreamId), o);
        if entry.None? {
          assert !Writable(a, w, o);
          return None;
        }
      }
      ObserveMore(a, w, n, models, entry);
      if entry.Some? {
        models := models[a.keyOf(o.upstreamId) := entry.value];
      }
    }
    r := Some(models);
  }

  /** The entries after the pinned models in `done`. */
  ghost predicate Completing(a: Answer, w: Writers, done: set<string>, models: Catalog) {
    && (forall key :: key in done && IsMissing(a, key) ==> w.complete(key).Some?)
    && (forall key :: key in models <==> LastFor(a, |a.observed|, key).Some? || (key in done && IsMissing(a, key)))
    && (forall key :: key in models ==>
          Some(models[key]) == if key in done && IsMissing(a, key) then w.complete(key)
                               else w.observe(key, LastFor(a, |a.observed|, key).value))
  }

  lemma {:induction false} CompleteMore(a: Answer, w: Writers, done: set<string>, models: Catalog, key: string, e: Option<Entry>)
    requires Completing(a, w, done, models) && (IsMissing(a, key) ==> e.Some? && w.complete(key) == e)
    ensures Completing(a, w, done + {key}, if IsMissing(a, key) then models[key := e.value] else models)
  {
  }

  /** The loop over the pinned models the Provider did not list. */
  method RecordMissing(a: Answer, previous: Catalog, ghost w: Writers, observed: Catalog) returns (r: Option<Catalog>)
    requires w == WritersOf(a, previous) && Observing(a, w, |a.observed|, observed)
    ensures r.Some? <==> forall key :: key in a.pinned && IsMissing(a, key) ==> w.complete(key).Some?
    ensures r.Some? ==> Completing(a, w, a.pinned.Keys, r.value)
  {
    var models := observed;
    var rest := a.pinned.Keys;
    while rest != {}
      invariant rest <= a.pinned.Keys && Completing(a, w, a.pinned.Keys - rest, models)
      decreases rest
    {
      var key :| key in rest;
      var entry: Option<Entry> := None;
      if IsMissing(a, key) {
        entry := WriteMissing(a, previous, key);
        if entry.None? {
          return None;
        }
      }
      CompleteMore(a, w, a.pinned.Keys - rest, models, key, entry);
      OneLess(a.pinned.Keys, rest, key);
      if entry.Some? {
        models := models[key := entry.value];
      }
      rest := rest - {key};
    }
    NoneLess(a.pinned.Keys);
    r := Some(models);
  }

  /** Every entry that is written can be. */
  ghost predicate AllWritable(a: Answer, w: Writers) {
    && (forall i :: 0 <= i < |a.observed| ==> Writable(a, w, a.observed[i]))
    && (forall key :: key in a.pinned && IsMissing(a, key) ==> w.complete(key).Some?)
  }

  lemma {:induction false} CompletedIsSuccess(a: Answer, w: Writers, models: Catalog)
    requires Completing(a, w, a.pinned.Keys, models)
    ensures IsSuccessWith(a, w, models)
  {
  }

  /** `record_discovery_success`: it raises exactly when a capability that takes part cannot be merged. */
  method RecordDiscoverySuccess(a: Answer, previous: Catalog) returns (r: Option<Catalog>)
    ensures r.Some? <==> AllWritable(a, WritersOf(a, previous))
    ensures r.Some? ==> IsSuccess(a, previous, r.value) && CatalogFits(a, previous, r.value)
  {
    ghost var w := WritersOf(a, previous);
    r := RecordObserved(a, previous, w);
    if r.Some? {
      r := RecordMissing(a, previous, w, r.value);
      if r.Some? {
        CompletedIsSuccess(a, w, r.value);
        SuccessFits(a, previous, r.value);
      }
    }
  }

  // ---------- a discovery that is repeated ----------

  /** What has been merged and stored can be merged again. */
  lemma {:induction false} StoredValid(prior: RawRecord, provider: RawRecord, operator: RawRecord)
    requires CapabilitiesValid(prior, provider, operator)
    ensures AllValid(ObservationsOf(StoredRecord(CapabilitiesOf(prior, provider, operator)), "driver_default"))
  {
    var m := Upgrade(map[], ObservationsOf(prior, "driver_default"));
    var r := CapabilitiesOf(prior, provider, operator);
    UpgradeMerged(map[], ObservationsOf(prior, "driver_default"));
    UpgradeMerged(m, Labeled(provider, "provider_endpoint"));
    UpgradeMerged(Upgrade(m, Labeled(provider, "provider_endpoint")), Labeled(operator, "operator_override"));
    forall f | f in r ensures Valid(ObservationsOf(StoredRecord(r), "driver_default")[f]) {
      FieldNamed(prior, provider, operator, f);
      StoredField(f, r[f]);
    }
  }

  lemma {:induction false} StoredField(f: string, c: Capability)
    requires IsMerged(c) && f != ""
    ensures Valid(Observed(f, Stored(c), "driver_default"))
  {
    RereadsItself(f, c, "driver_default");
  }

  lemma {:induction false} FieldNamed(prior: RawRecord, provider: RawRecord, operator: RawRecord, f: string)
    requires CapabilitiesValid(prior, provider, operator) && f in CapabilitiesOf(prior, provider, operator)
    ensures f != ""
  {
    OverField(Upgrade(map[], ObservationsOf(prior, "driver_default")), provider, operator, f);
    assert f in prior ==> Valid(ObservationsOf(prior, "driver_default")[f]);
    assert f in provider ==> Valid(Labeled(provider, "provider_endpoint")[f]);
    assert f in operator ==> Valid(Labeled(operator, "operator_override")[f]);
  }

  /** An entry that a success wrote can be merged again. */
  lemma {:induction false} EntryValid(a: Answer, previous: Catalog, once: Catalog, key: string)
    requires IsSuccess(a, previous, once) && key in once
    ensures AllValid(ObservationsOf(once[key].capabilities, "driver_default"))
  {
    var prior := PriorOf(previous, key);
    if IsMissing(a, key) {
      StoredValid(prior.capabilities, map[], a.pinned[key].capabilities);
    } else {
      var o := LastFor(a, |a.observed|, key).value;
      StoredValid(prior.capabilities, o.capabilities, OrEmpty(OperatorOf(a.pinned, key, o.upstreamId)));
    }
  }

  lemma {:induction false} LastIsThere(a: Answer, n: nat, i: nat)
    requires i < n <= |a.observed| && a.observed[i].upstreamId != ""
    ensures LastFor(a, n, a.keyOf(a.observed[i].upstreamId)).Some?
  {
    if i < n - 1 {
      LastIsThere(a, n - 1, i);
    }
  }

  /** Repeating a success does not raise, and leaves the catalog as it is. */
  lemma {:induction false} SuccessRepeats(a: Answer, previous: Catalog, once: Catalog)
    requires AllWritable(a, WritersOf(a, previous)) && IsSuccess(a, previous, once)
    ensures AllWritable(a, WritersOf(a, once)) && IsSuccess(a, once, once)
  {
    var v, w := WritersOf(a, previous), WritersOf(a, once);
    forall i | 0 <= i < |a.observed| ensures Writable(a, w, a.observed[i]) {
      var o := a.observed[i];
      if o.upstreamId != "" {
        LastIsThere(a, |a.observed|, i);
        EntryValid(a, previous, once, a.keyOf(o.upstreamId));
        assert Writable(a, v, o);
      }
    }
    forall key | key in a.pinned && IsMissing(a, key) ensures w.complete(key).Some? {
      EntryValid(a, previous, once, key);
      assert v.complete(key).Some?;
    }
    RepeatsItself(a, previous, once);
  }

  lemma {:induction false} RepeatsItself(a: Answer, previous: Catalog, once: Catalog)
    requires IsSuccess(a, previous, once) && AllWritable(a, WritersOf(a, once))
    ensures IsSuccess(a, once, once)
  {
    forall key | key in once ensures Rewritten(a, WritersOf(a, once), key) == Some(once[key]) {
      RewrittenTwice(a, key, previous, once);
      RewrittenAgain(a, WritersOf(a, once), key, |a.observed|);
    }
  }

  lemma {:induction false} RewrittenAgain(a: Answer, w: Writers, key: string, n: nat)
    requires n <= |a.observed| && forall i :: 0 <= i < |a.observed| ==> Writable(a, w, a.observed[i])
    ensures LastFor(a, n, key).Some? ==> w.observe(key, LastFor(a, n, key).value).Some?
  {
    if n > 0 {
      assert Writable(a, w, a.observed[n - 1]);
      RewrittenAgain(a, w, key, n - 1);
    }
  }

  /** So the same discovery recorded twice gives the same catalog. */
  method RecordTwice(a: Answer, previous: Catalog) returns (once: Option<Catalog>, twice: Option<Catalog>)
    ensures once.Some? <==> AllWritable(a, WritersOf(a, previous))
    ensures once.Some? ==> twice == once
  {
    once := RecordDiscoverySuccess(a, previous);
    twice := None;
    if once.Some? {
      SuccessRepeats(a, previous, once.value);
      twice := RecordDiscoverySuccess(a, once.value);
      SuccessTwice(a, previous, once.value, twice.value);
    }
  }
}
