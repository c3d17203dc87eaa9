/**
  Capability provenance and the discovered model catalog of config/model_catalog.py.  Names, values and sources are
  stripped and in lower case.
 */
module Capabilities {
  import opened Text
  import opened Wrappers
  import opened Collections

  datatype Observation = Observation(field: string, value: string, source: string, confidence: string, checkedAt: string, error: string)

  datatype Capability = Capability(value: string, source: string, confidence: string, checkedAt: string, error: string)

  type Record = map<string, Capability>

  const VALUES := {"supported", "unsupported", "unknown"}
  const ERRORS := {"", "auth_failed", "blocked", "other", "protocol_mismatch", "timeout", "unsupported"}

  /** `CAPABILITY_SOURCE_PRIORITY`; 0 for a source that is not in it. */
  function Priority(source: string): nat {
    if source == "driver_default" then 10
    else if source == "curated_snapshot" then 20
    else if source == "provider_endpoint" then 30
    else if source == "runtime_probe" then 40
    else if source == "operator_override" then 50
    else 0
  }

  predicate Contains(s: string, t: string) {
    t <= s || (s != "" && Contains(s[1..], t))
  }

  /** The words that give a class of errors away, in the order in which they are looked for. */
  const CLUES: seq<(string, seq<string>)> := [
    ("unsupported", ["not support", "unsupported", "no endpoints found"]),
    ("auth_failed", ["unauthor", "forbidden", "auth", "401", "403"]),
    ("timeout", ["timeout", "timed out"]),
    ("protocol_mismatch", ["protocol", "schema", "decode"]),
    ("blocked", ["blocked", "permission"])]

  /** `word` stands somewhere in `s`. */
  predicate StandsIn(word: string, s: string) {
    exists i :: 0 <= i <= |s| && word <= s[i..]
  }

  predicate Clue(s: string, words: seq<string>) {
    exists j :: 0 <= j < |words| && StandsIn(words[j], s)
  }

  lemma {:induction false} ContainsExactly(s: string, word: string)
    ensures Contains(s, word) <==> StandsIn(word, s)
  {
    if word <= s {
      assert s[0..] == s;
    } else if s != "" {
      ContainsExactly(s[1..], word);
      if StandsIn(word, s[1..]) {
        var i :| 0 <= i <= |s[1..]| && word <= s[1..][i..];
        assert s[1..][i..] == s[i + 1..];
      }
      if StandsIn(word, s) {
        var i :| 0 <= i <= |s| && word <= s[i..];
        assert i > 0 && s[1..][i - 1..] == s[i..];
      }
    }
  }

  lemma {:induction false} NoMore(s: string)
    ensures !Clue(s, [])
  {
  }

  lemma {:induction false} OneMoreClue(s: string, word: string, words: seq<string>)
    ensures Clue(s, [word] + words) <==> Contains(s, word) || Clue(s, words)
  {
    var all := [word] + words;
    ContainsExactly(s, word);
    assert all[0] == word && forall j :: 0 <= j < |words| ==> all[j + 1] == words[j];
    if Clue(s, all) {
      var j :| 0 <= j < |all| && StandsIn(all[j], s);
      assert j > 0 ==> all[j] == words[j - 1];
    }
  }

  lemma {:induction false} TwoClues(s: string, a: string, b: string)
    ensures Clue(s, [a, b]) <==> Contains(s, a) || Contains(s, b)
  {
    NoMore(s);
    OneMoreClue(s, b, []);
    OneMoreClue(s, a, [b]);
    assert [b] == [b] + [] && [a, b] == [a] + [b];
  }

  lemma {:induction false} ThreeClues(s: string, a: string, b: string, c: string)
    ensures Clue(s, [a, b, c]) <==> Contains(s, a) || Contains(s, b) || Contains(s, c)
  {
    TwoClues(s, b, c);
    OneMoreClue(s, a, [b, c]);
    assert [a, b, c] == [a] + [b, c];
  }

  lemma {:induction false} FiveClues(s: string, a: string, b: string, c: string, d: string, e: string)
    ensures Clue(s, [a, b, c, d, e]) <==> Contains(s, a) || Contains(s, b) || Contains(s, c) || Contains(s, d) || Contains(s, e)
  {
    ThreeClues(s, c, d, e);
    OneMoreClue(s, b, [c, d, e]);
    OneMoreClue(s, a, [b, c, d, e]);
    assert [b, c, d, e] == [b] + [c, d, e] && [a, b, c, d, e] == [a] + [b, c, d, e];
  }

  /** A class is kept; any other message gets the first class with a clue in it, and `other` if there is none. */
  lemma {:induction false} ClassOfMessage(raw: string, n: nat)
    requires raw !in ERRORS && n <= |CLUES|
    requires forall k :: 0 <= k < n ==> !Clue(raw, CLUES[k].1)
    requires n < |CLUES| ==> Clue(raw, CLUES[n].1)
    ensures ClassifyCapabilityError(raw) == if n < |CLUES| then CLUES[n].0 else "other"
  {
    ThreeClues(raw, "not support", "unsupported", "no endpoints found");
    FiveClues(raw, "unauthor", "forbidden", "auth", "401", "403");
    TwoClues(raw, "timeout", "timed out");
    ThreeClues(raw, "protocol", "schema", "decode");
    TwoClues(raw, "blocked", "permission");
    var clues := CLUES;
    assert |clues| == 5 && clues[0].0 == "unsupported" && clues[1].0 == "auth_failed" && clues[2].0 == "timeout";
    assert forall k :: 0 <= k < n ==> !Clue(raw, clues[k].1);
    assert clues[0].1 == ["not support", "unsupported", "no endpoints found"];
    assert clues[1].1 == ["unauthor", "forbidden", "auth", "401", "403"];
    assert clues[2].1 == ["timeout", "timed out"];
    assert clues[3].1 == ["protocol", "schema", "decode"];
    assert clues[4].1 == ["blocked", "permission"];
  }

  function ClassifyCapabilityError(raw: string): (r: string)
    ensures r in ERRORS && (raw in ERRORS ==> r == raw)
  {
    if raw in ERRORS then raw
    else if Contains(raw, "not support") || Contains(raw, "unsupported") || Contains(raw, "no endpoints found") then "unsupported"
    else if Contains(raw, "unauthor") || Contains(raw, "forbidden") || Contains(raw, "auth") || Contains(raw, "401") ||
            Contains(raw, "403") then "auth_failed"
    else if Contains(raw, "timeout") || Contains(raw, "timed out") then "timeout"
    else if Contains(raw, "protocol") || Contains(raw, "schema") || Contains(raw, "decode") then "protocol_mismatch"
    else if Contains(raw, "blocked") || Contains(raw, "permission") then "blocked"
    else "other"
  }

  // ---------- merging ----------

  predicate Valid(o: Observation) {
    o.field != "" && o.value in VALUES && Priority(o.source) > 0
  }

  function Recorded(o: Observation): Capability {
    Capability(o.value, o.source, o.confidence, o.checkedAt, ClassifyCapabilityError(o.error))
  }

  /** The newer record wins unless the older one's source ranks higher. */
  function Newer(m: Record, field: string, c: Capability): Record {
    if field !in m || Priority(c.source) >= Priority(m[field].source) then m[field := c] else m
  }

  function MergeFrom(m: Record, observations: seq<Observation>): Record {
    if observations == [] then m
    else
      var o := observations[|observations| - 1];
      Newer(MergeFrom(m, observations[..|observations| - 1]), o.field, Recorded(o))
  }

  /** `merge_capability_observations` */
  method MergeCapabilityObservations(observations: seq<Observation>) returns (r: Option<Record>)
    ensures r.None? <==> exists i :: 0 <= i < |observations| && !Valid(observations[i])
    ensures r.Some? ==> r.value == MergeFrom(map[], observations)
  {
    var merged: Record := map[];
    for n := 0 to |observations|
      invariant forall i :: 0 <= i < n ==> Valid(observations[i])
      invariant merged == MergeFrom(map[], observations[..n])
    {
      var o := observations[n];
      if !Valid(o) {
        return None;
      }
      assert forall i :: 0 <= i < n + 1 ==> Valid(observations[i]);
      TakeMore(observations, n);
      Last(observations[..n], o);
      merged := Newer(merged, o.field, Recorded(o));
    }
    TakeAll(observations);
    r := Some(merged);
  }

  lemma {:induction false} Last(s: seq<Observation>, o: Observation)
    ensures (s + [o])[..|s + [o]| - 1] == s && (s + [o])[|s + [o]| - 1] == o
  {
  }

  function Rank(o: Observation): nat {
    Priority(o.source)
  }

  /** `k` is the last of the observations of `field` whose source ranks highest. */
  predicate LastOfHighest(observations: seq<Observation>, field: string, k: nat) {
    && k < |observations| && observations[k].field == field
    && (forall j :: 0 <= j < |observations| && observations[j].field == field ==> Rank(observations[j]) <= Rank(observations[k]))
    && (forall j :: k < j < |observations| && observations[j].field == field ==> Rank(observations[j]) < Rank(observations[k]))
  }

  lemma {:induction false} HighestMore(front: seq<Observation>, o: Observation, all: seq<Observation>, field: string, k: nat, rank: nat)
    requires LastOfHighest(front, field, k) && all == front + [o] && rank == Rank(front[k])
    ensures o.field != field || Rank(o) < rank ==> LastOfHighest(all, field, k)
    ensures o.field == field && Rank(o) >= rank ==> LastOfHighest(all, field, |front|)
  {
  }

  lemma {:induction false} HighestFirst(front: seq<Observation>, o: Observation, all: seq<Observation>, field: string)
    requires (forall j :: 0 <= j < |front| ==> front[j].field != field) && all == front + [o] && o.field == field
    ensures LastOfHighest(all, field, |front|)
  {
  }

  /** A record keeps what was observed, its error by class. */
  predicate Keeps(c: Capability, o: Observation) {
    && c.value == o.value && c.source == o.source && c.confidence == o.confidence && c.checkedAt == o.checkedAt
    && c.error == ClassifyCapabilityError(o.error)
  }

  /** Each field holds the last observation of highest priority, and there is a field for every observed one. */
  lemma {:induction false} MergeHolds(observations: seq<Observation>, field: string, m: Record) returns (k: nat)
    requires m == MergeFrom(map[], observations)
    ensures if field in m then LastOfHighest(observations, field, k) && Keeps(m[field], observations[k])
            else forall j :: 0 <= j < |observations| ==> observations[j].field != field
    ensures field in m ==> m[field] == Recorded(observations[k])
    decreases |observations|
  {
    k := 0;
    if observations != [] {
      var last := |observations| - 1;
      var front, o := observations[..last], observations[last];
      var before := MergeFrom(map[], front);
      assert observations == front + [o];
      k := MergeHolds(front, field, before);
      if field in before {
        HighestMore(front, o, observations, field, k, Rank(front[k]));
      } else if o.field == field {
        HighestFirst(front, o, observations, field);
      }
      NewerField(before, o, field);
      if o.field == field && (field !in before || Rank(o) >= Priority(before[field].source)) {
        k := last;
      }
    }
  }

  lemma {:induction false} NewerField(m: Record, o: Observation, field: string)
    ensures var n := Newer(m, o.field, Recorded(o));
      if o.field == field && (field !in m || Rank(o) >= Priority(m[field].source)) then field in n && n[field] == Recorded(o)
      else (field in n <==> field in m) && (field in m ==> n[field] == m[field])
  {
  }

  lemma {:induction false} MergeAppend(m: Record, a: seq<Observation>, b: seq<Observation>)
    ensures MergeFrom(m, a + b) == MergeFrom(MergeFrom(m, a), b)
    decreases |b|
  {
    if b == [] {
      assert a + b == a;
    } else {
      var front := b[..|b| - 1];
      assert (a + b)[..|a + b| - 1] == a + front;
      MergeAppend(m, a, front);
    }
  }

  // ---------- reading records again ----------

  /** What the catalog holds for one field: a merged record, or an older spelling. */
  datatype Raw =
    | Flag(on: bool)
    | Word(value: string)
    | Table(value: string, capabilityStatus: string, supportsImageInput: Option<bool>, source: string, capabilitySource: string,
            confidence: string, checkedAt: string, capabilityCheckedAt: string, error: string, capabilityError: string)

  type RawRecord = map<string, Raw>

  /** `_capability_observations` for one field */
  function Observed(field: string, raw: Raw, defaultSource: string): Observation {
    match raw
    case Flag(on) => Observation(field, if on then "supported" else "unsupported", defaultSource, "", "", "")
    case Word(value) => Observation(field, Or(value, "unknown"), defaultSource, "", "", "")
    case Table(value, status, supports, source, otherSource, confidence, checkedAt, otherCheckedAt, error, otherError) =>
      var fallback := if supports == Some(true) then "supported" else if supports == Some(false) then "unsupported" else "unknown";
      Observation(field, Or(value, Or(status, fallback)), Or(source, Or(otherSource, defaultSource)), confidence,
                  Or(checkedAt, otherCheckedAt), Or(error, otherError))
  }

  /** The first of two texts that is not blank. */
  predicate IsFirst(r: string, a: string, b: string) {
    (a != "" ==> r == a) && (a == "" ==> r == b)
  }

  /** How each spelling of a field is read: a flag, a word, or a table with two names for most of its entries. */
  predicate ReadsAs(o: Observation, field: string, raw: Raw, defaultSource: string) {
    && o.field == field
    && match raw
       case Flag(on) =>
         && (on ==> o.value == "supported") && (!on ==> o.value == "unsupported")
         && o.source == defaultSource && o.confidence == o.checkedAt == o.error == ""
       case Word(value) =>
         IsFirst(o.value, value, "unknown") && o.source == defaultSource && o.confidence == o.checkedAt == o.error == ""
       case Table(value, status, supports, source, otherSource, confidence, checkedAt, otherCheckedAt, error, otherError) =>
         && (value != "" || status != "" ==> IsFirst(o.value, value, status))
         && (value == "" && status == "" ==>
               && (supports == Some(true) ==> o.value == "supported") && (supports == Some(false) ==> o.value == "unsupported")
               && (supports.None? ==> o.value == "unknown"))
         && (source != "" || otherSource != "" ==> IsFirst(o.source, source, otherSource))
         && (source == "" && otherSource == "" ==> o.source == defaultSource)
         && o.confidence == confidence && IsFirst(o.checkedAt, checkedAt, otherCheckedAt) && IsFirst(o.error, error, otherError)
  }

  lemma {:induction false} ObservedExactly(o: Observation, field: string, raw: Raw, defaultSource: string)
    ensures ReadsAs(o, field, raw, defaultSource) <==> o == Observed(field, raw, defaultSource)
  {
    var r := Observed(field, raw, defaultSource);
    assert o == r <==>
      && o.field == r.field && o.value == r.value && o.source == r.source && o.confidence == r.confidence
      && o.checkedAt == r.checkedAt && o.error == r.error;
    match raw
    case Flag(on) =>
    case Word(value) =>
    case Table(value, status, supports, source, otherSource, confidence, checkedAt, otherCheckedAt, error, otherError) =>
      if supports.Some? {
        assert supports == if supports.value then Some(true) else Some(false);
      }
  }

  /** The sources in the order of their rank; nothing else is a source. */
  lemma {:induction false} SourcesRanked(source: string)
    ensures 0 < Priority("driver_default") < Priority("curated_snapshot") < Priority("provider_endpoint") < Priority("runtime_probe")
    ensures Priority("runtime_probe") < Priority("operator_override")
    ensures Priority(source) > 0 <==>
      || source == "driver_default" || source == "curated_snapshot" || source == "provider_endpoint" || source == "runtime_probe"
      || source == "operator_override"
    ensures Priority(source) <= Priority("operator_override")
  {
  }

  /** How a merged record is stored. */
  function Stored(c: Capability): Raw {
    Table(c.value, "", None, c.source, "", c.confidence, c.checkedAt, "", c.error, "")
  }

  /** A record as merging leaves it. */
  predicate IsMerged(c: Capability) {
    c.value in VALUES && Priority(c.source) > 0 && c.error in ERRORS
  }

  /** Reading a stored record gives the record back, whatever the default source. */
  lemma {:induction false} RereadsItself(field: string, c: Capability, defaultSource: string)
    requires IsMerged(c)
    ensures Recorded(Observed(field, Stored(c), defaultSource)) == c && Observed(field, Stored(c), defaultSource).field == field
  {
  }

  lemma {:induction false} MergedIsMerged(m: Record, observations: seq<Observation>)
    requires forall f :: f in m ==> IsMerged(m[f])
    requires forall i :: 0 <= i < |observations| ==> Valid(observations[i])
    ensures forall f :: f in MergeFrom(m, observations) ==> IsMerged(MergeFrom(m, observations)[f])
  {
    if observations != [] {
      MergedIsMerged(m, observations[..|observations| - 1]);
    }
  }

  /** `observations` lists the observations of a dictionary, in whatever order its fields come. */
  ghost predicate Lists(observations: seq<Observation>, seen: map<string, Observation>) {
    && (forall f :: f in seen ==> seen[f].field == f && seen[f] in observations)
    && (forall i :: 0 <= i < |observations| ==> observations[i].field in seen && observations[i] == seen[observations[i].field])
    && (forall i, j :: 0 <= i < j < |observations| ==> observations[i].field != observations[j].field)
  }

  /** Merging a dictionary's observations, field by field. */
  function Upgrade(m: Record, seen: map<string, Observation>): Record {
    map f | f in m.Keys + seen.Keys ::
      if f in seen && (f !in m || Priority(seen[f].source) >= Priority(m[f].source)) then Recorded(seen[f]) else m[f]
  }

  lemma {:induction false} MergeLists(m: Record, observations: seq<Observation>, seen: map<string, Observation>)
    requires Lists(observations, seen)
    ensures MergeFrom(m, observations) == Upgrade(m, seen)
  {
    forall f ensures (f in MergeFrom(m, observations) <==> f in Upgrade(m, seen)) &&
                     (f in Upgrade(m, seen) ==> MergeFrom(m, observations)[f] == Upgrade(m, seen)[f]) {
      if f in seen {
        var i :| 0 <= i < |observations| && observations[i] == seen[f];
        MergeOnce(m, observations, f, i);
      } else {
        MergeElsewhere(m, observations, f);
      }
    }
  }

  lemma {:induction false} MergeElsewhere(m: Record, observations: seq<Observation>, f: string)
    requires forall i :: 0 <= i < |observations| ==> observations[i].field != f
    ensures (f in MergeFrom(m, observations) <==> f in m) && (f in m ==> MergeFrom(m, observations)[f] == m[f])
  {
    if observations != [] {
      MergeElsewhere(m, observations[..|observations| - 1], f);
    }
  }

  lemma {:induction false} MergeOnce(m: Record, observations: seq<Observation>, f: string, i: nat)
    requires i < |observations| && observations[i].field == f
    requires forall j, k :: 0 <= j < k < |observations| ==> observations[j].field != observations[k].field
    ensures f in MergeFrom(m, observations)
    ensures MergeFrom(m, observations)[f] ==
      if f !in m || Priority(observations[i].source) >= Priority(m[f].source) then Recorded(observations[i]) else m[f]
  {
    var last := |observations| - 1;
    if i == last {
      MergeElsewhere(m, observations[..last], f);
    } else {
      MergeOnce(m, observations[..last], f, i);
    }
  }

  /** The observations read from a stored record. */
  function Rereading(m: Record, defaultSource: string): map<string, Observation> {
    map f | f in m :: Observed(f, Stored(m[f]), defaultSource)
  }

  /**
    Merging can be resumed: storing what `a` merged to, reading it again and merging `b` on top is merging all
    observations at once.
   */
  lemma {:induction false} MergeResumes(a: seq<Observation>, b: seq<Observation>, reread: seq<Observation>, defaultSource: string)
    requires forall i :: 0 <= i < |a| ==> Valid(a[i])
    requires Lists(reread, Rereading(MergeFrom(map[], a), defaultSource))
    ensures MergeFrom(map[], reread + b) == MergeFrom(map[], a + b)
  {
    var m := MergeFrom(map[], a);
    MergedIsMerged(map[], a);
    RereadsAll(m, reread, defaultSource);
    MergeAppend(map[], reread, b);
    MergeAppend(map[], a, b);
  }

  lemma {:induction false} RereadsAll(m: Record, reread: seq<Observation>, defaultSource: string)
    requires (forall f :: f in m ==> IsMerged(m[f])) && Lists(reread, Rereading(m, defaultSource))
    ensures MergeFrom(map[], reread) == m
  {
    MergeLists(map[], reread, Rereading(m, defaultSource));
    forall f | f in m ensures Recorded(Rereading(m, defaultSource)[f]) == m[f] {
      RereadsItself(f, m[f], defaultSource);
    }
  }
}
