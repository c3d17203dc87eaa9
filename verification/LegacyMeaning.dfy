/** What the migration takes a legacy entry's fields to mean, said field by field, and that this is what it computes. */
module LegacyMeaning {
  import opened Text
  import opened Wrappers
  import opened MigrationTypes
  import opened LegacyModels

  // ---------- the pinned model ----------

  predicate NamesContract(protocol: string) {
    protocol == "basic_chat" || protocol == "tool_chat" || protocol == "reasoning_chat" || protocol == "responses_agent"
  }

  /** A protocol that names an interaction contract is one; any other is the model's protocol. */
  predicate BehaviorFits(b: Behavior, e: Entry) {
    && (e.transport != "" ==> b.wireProtocol == e.transport) && (e.transport == "" ==> b.wireProtocol == "chat_completions")
    && (NamesContract(e.protocol) ==> b.interactionContract == e.protocol && b.modelProtocol == "")
    && (!NamesContract(e.protocol) ==> b.modelProtocol == e.protocol)
    && (!NamesContract(e.protocol) && e.contract != "" ==> b.interactionContract == e.contract)
    && (!NamesContract(e.protocol) && e.contract == "" ==> b.interactionContract == "tool_chat")
    && b.copied == e.copied
  }

  lemma {:induction false} BehaviorExactly(b: Behavior, e: Entry)
    ensures BehaviorFits(b, e) <==> b == BehaviorOf(e)
  {
  }

  /** Different transports that are both named give different behaviours. */
  lemma {:induction false} TransportsTell(e: Entry, f: Entry)
    requires BehaviorOf(e) == BehaviorOf(f)
    ensures e.transport != "" && f.transport != "" ==> e.transport == f.transport
  {
    BehaviorExactly(BehaviorOf(e), e);
    BehaviorExactly(BehaviorOf(f), f);
  }

  // ---------- the Provider ----------

  predicate Speaks(p: LegacyProvider, driver: string) {
    p.kind == driver || p.compatMode == driver
  }

  /** Anthropic before Gemini, by kind or compatibility mode; everything else has the driver of OpenAI. */
  predicate DriverFits(c: Classification, p: LegacyProvider) {
    && (c.driver == "anthropic" <==> Speaks(p, "anthropic"))
    && (c.driver == "gemini" <==> Speaks(p, "gemini") && !Speaks(p, "anthropic"))
    && (!Speaks(p, "anthropic") && !Speaks(p, "gemini") ==> c.driver == "openai")
    && (c.driver != "openai" ==> c.adapter == c.driver)
    && (c.driver == "openai" && p.compatMode == "custom" ==> c.adapter == "custom")
    && (c.driver == "openai" && p.compatMode != "custom" ==> c.adapter == "openai_compatible")
  }

  predicate IsLocal(kind: string) {
    kind == "local" || kind == "local_runtime" || kind == "ollama"
  }

  predicate IsAggregator(kind: string) {
    kind == "openrouter" || kind == "aggregator"
  }

  predicate IsVendor(kind: string) {
    kind == "openai" || kind == "anthropic" || kind == "gemini"
  }

  /** A local kind or a loopback host decides first; what no kind tells is a relay. */
  predicate ServiceFits(service: string, p: LegacyProvider, loopback: bool) {
    var local := IsLocal(p.kind) || loopback;
    && (service == "local_runtime" <==> local)
    && (service == "aggregator" <==> !local && IsAggregator(p.kind))
    && (service == "official_api" <==> !local && IsVendor(p.kind))
    && (!local && !IsAggregator(p.kind) && !IsVendor(p.kind) ==> service == "relay")
  }

  predicate ClassFits(c: Classification, env: Env, p: LegacyProvider, baseUrl: string) {
    DriverFits(c, p) && ServiceFits(c.serviceClass, p, env.loopback(baseUrl)) && c.vendor == env.vendorOf(p, baseUrl)
  }

  lemma {:induction false} DriverExactly(c: Classification, p: LegacyProvider)
    ensures DriverFits(c, p) <==> (c.adapter, c.driver) == AdapterAndDriver(p)
  {
  }

  lemma {:induction false} ServiceExactly(service: string, p: LegacyProvider, baseUrl: string, loopback: string -> bool)
    ensures ServiceFits(service, p, loopback(baseUrl)) <==> service == ServiceClass(p, baseUrl, loopback)
  {
  }

  lemma {:induction false} ClassExactly(c: Classification, env: Env, p: LegacyProvider, baseUrl: string)
    ensures ClassFits(c, env, p, baseUrl) <==> c == Classify(env, p, baseUrl)
  {
    DriverExactly(c, p);
    ServiceExactly(c.serviceClass, p, baseUrl, env.loopback);
  }

  /** The reference that is spelled out, else the environment variable, else none. */
  predicate CredentialFits(ref: string, p: LegacyProvider, canonical: string -> string) {
    && (p.credentialRef != "" && canonical(p.credentialRef) != "" ==> ref == canonical(canonical(p.credentialRef)))
    && (p.credentialRef == "" && p.apiKeyEnv != "" && canonical("env:" + p.apiKeyEnv) != "" ==>
          ref == canonical(canonical("env:" + p.apiKeyEnv)))
    && (!NamesCredential(p, canonical) ==> ref == canonical("none"))
  }

  predicate NamesCredential(p: LegacyProvider, canonical: string -> string) {
    if p.credentialRef != "" then canonical(p.credentialRef) != ""
    else p.apiKeyEnv != "" && canonical("env:" + p.apiKeyEnv) != ""
  }

  /** No credential is named although one is needed: the kind is not local, or the entry asks for a key. */
  predicate LacksCredential(p: LegacyProvider, canonical: string -> string) {
    && !NamesCredential(p, canonical)
    && (p.credentialRef == "" && p.apiKeyEnv == "" ==> !IsLocal(p.kind) || p.requiresKey)
  }

  lemma {:induction false} CredentialExactly(ref: string, env: Env, e: Entry)
    ensures CredentialFits(ref, e.provider, env.canonical) <==> ref == CredentialOf(env, e)
    ensures LacksCredential(e.provider, env.canonical) <==> LegacyCredentialRef(e.provider, env.canonical) == ""
  {
  }

  // ---------- the upstream id ----------

  /** The stripped model name; for what looks like a path, the name itself or the one that was split off it, as resolved. */
  predicate UpstreamFits(u: string, e: Entry, resolution: Option<Resolution>) {
    && (!ArtifactPathSuspected(e.model) ==> u == Strip(e.model))
    && (ArtifactPathSuspected(e.model) ==>
          && resolution.Some?
          && (resolution.value == PreserveUpstreamId ==> IsLocal(e.provider.kind) && u == e.model)
          && (resolution.value != PreserveUpstreamId ==> u == resolution.value.upstreamId))
  }

  lemma {:induction false} UpstreamExactly(u: string, e: Entry, resolution: Option<Resolution>)
    ensures UpstreamFits(u, e, resolution) <==> UpstreamId(e, resolution) == Ok(u)
  {
  }

  predicate PlainChar(c: char) {
    c != '.' && c != '/' && c != '\\' && c != ':' && c != '~'
  }

  /** A name without dots, slashes, colons and tildes is taken as it is. */
  lemma {:induction false} PlainIsNoPath(v: string)
    requires forall i :: 0 <= i < |v| ==> PlainChar(v[i])
    ensures !ArtifactPathSuspected(v)
  {
    var c := Strip(v);
    StillPlain(RStrip(v));
    LowerPlain(c);
    assert forall i :: 0 <= i < |c| ==> c[i] != '.' && c[i] != '/' && c[i] != '\\' && c[i] != '~';
    NoDotAtEnd(LowerAscii(c), ".gguf");
    NoDotAtEnd(LowerAscii(c), ".safetensors");
    NoDotAtEnd(LowerAscii(c), ".bin");
    NoColon(LowerAscii(c));
  }

  lemma {:induction false} NoColon(s: string)
    requires forall i :: 0 <= i < |s| ==> PlainChar(s[i])
    ensures !StartsWith(s, "file:")
  {
    assert |s| >= 5 ==> s[4] != "file:"[4];
  }

  lemma {:induction false} StillPlain(s: string)
    requires forall i :: 0 <= i < |s| ==> PlainChar(s[i])
    ensures forall i :: 0 <= i < |LStrip(s)| ==> PlainChar(LStrip(s)[i])
  {
    if s != "" && IsSpace(s[0]) {
      StillPlain(s[1..]);
    }
  }

  lemma {:induction false} NoDotAtEnd(s: string, t: string)
    requires (forall i :: 0 <= i < |s| ==> PlainChar(s[i])) && t != "" && t[0] == '.'
    ensures !EndsWith(s, t)
  {
    if EndsWith(s, t) {
      DotAtEnd(s, t);
    }
  }

  lemma {:induction false} DotAtEnd(s: string, t: string)
    requires EndsWith(s, t) && t != ""
    ensures s[|s| - |t|] == t[0]
  {
    assert s[|s| - |t|..][0] == t[0];
  }

  lemma {:induction false} LowerAt(s: string, i: nat)
    requires i < |s|
    ensures |LowerAscii(s)| == |s|
    ensures LowerAscii(s)[i] == if 'A' <= s[i] <= 'Z' then s[i] - 'A' + 'a' else s[i]
  {
    if i > 0 {
      LowerAt(s[1..], i - 1);
    } else if |s| > 1 {
      LowerAt(s[1..], 0);
    }
  }

  lemma {:induction false} LowerPlain(s: string)
    requires forall i :: 0 <= i < |s| ==> PlainChar(s[i])
    ensures |LowerAscii(s)| == |s| && forall i :: 0 <= i < |s| ==> PlainChar(LowerAscii(s)[i])
  {
    LowerLength(s);
    forall i | 0 <= i < |s| ensures PlainChar(LowerAscii(s)[i]) {
      LowerAt(s, i);
    }
  }

  /** Letters compared without their case. */
  predicate SameLetters(s: string, lower: string) {
    |s| == |lower| && forall i :: 0 <= i < |s| ==> s[i] == lower[i] || ('A' <= s[i] <= 'Z' && s[i] - 'A' + 'a' == lower[i])
  }

  predicate WeightsSuffix(s: string) {
    SameLetters(s, ".gguf") || SameLetters(s, ".safetensors") || SameLetters(s, ".bin")
  }

  lemma {:induction false} LowerEnds(a: string, b: string, lower: string)
    requires SameLetters(b, lower) && forall i :: 0 <= i < |lower| ==> !('A' <= lower[i] <= 'Z')
    ensures EndsWith(LowerAscii(a + b), lower)
  {
    var s := a + b;
    var l := LowerAscii(s);
    LowerLength(s);
    forall i | 0 <= i < |lower| ensures l[|a| + i] == lower[i] {
      LowerAt(s, |a| + i);
    }
    assert l[|l| - |lower|..] == lower;
  }

  lemma {:induction false} LowerLength(s: string)
    ensures |LowerAscii(s)| == |s|
  {
    if s != "" {
      LowerAt(s, 0);
    }
  }

  /** A name that ends like a weights file is a path, whatever the case of its letters. */
  lemma {:induction false} WeightsArePaths(a: string, b: string)
    requires WeightsSuffix(b) && Strip(a + b) == a + b
    ensures ArtifactPathSuspected(a + b)
  {
    if SameLetters(b, ".gguf") {
      LowerEnds(a, b, ".gguf");
    } else if SameLetters(b, ".safetensors") {
      LowerEnds(a, b, ".safetensors");
    } else {
      LowerEnds(a, b, ".bin");
    }
  }

  /** The ways a path starts: from a root, a drive, a share, a home or a directory, or as a file URL. */
  predicate PathStart(v: string) {
    || "/" <= v || "\\\\" <= v || "~/" <= v || "~\\" <= v || "./" <= v || "../" <= v || ".\\" <= v || "..\\" <= v
    || (|v| >= 3 && IsLetter(v[0]) && v[1] == ':' && v[2] in {'/', '\\'}) || (|v| >= 5 && SameLetters(v[..5], "file:"))
  }

  lemma {:induction false} PathsArePaths(v: string)
    requires PathStart(v) && Strip(v) == v
    ensures ArtifactPathSuspected(v)
  {
    if |v| >= 5 && SameLetters(v[..5], "file:") {
      LowerLength(v);
      forall i | 0 <= i < 5 ensures LowerAscii(v)[i] == "file:"[i] {
        LowerAt(v, i);
      }
      assert LowerAscii(v)[..5] == "file:";
    }
  }

  // ---------- what becomes of an entry ----------

  /** The row keeps the entry's id, upstream id, behaviour, classification and title, and the path if the name is one. */
  predicate RowFits(row: Row, env: Env, item: Item, e: Entry, resolution: Option<Resolution>, baseUrl: string) {
    && row.id == item.id && UpstreamFits(row.upstreamId, e, resolution) && BehaviorFits(row.behavior, e)
    && ClassFits(row.classification, env, e.provider, baseUrl) && row.title == e.provider.title
    && (ArtifactPathSuspected(e.model) ==> row.artifactPath == e.model)
    && (!ArtifactPathSuspected(e.model) ==> row.artifactPath == "")
  }

  /** Where an entry goes: the base URL as its own adapter and transport have it, with its credential. */
  predicate KeyFits(key: Key, env: Env, e: Entry, row: Row) {
    && env.root(e.provider.baseUrl, row.classification.adapter, row.behavior.wireProtocol) == Some(key.0)
    && CredentialFits(key.1, e.provider, env.canonical)
  }

  /** A path whose artifact is kept asks for a local Provider. */
  predicate NeedsLocal(e: Entry, resolution: Option<Resolution>) {
    ArtifactPathSuspected(e.model) && resolution == Some(PreserveUpstreamId) && !IsLocal(e.provider.kind)
  }

  predicate Unresolved(e: Entry, resolution: Option<Resolution>) {
    ArtifactPathSuspected(e.model) && resolution.None?
  }

  /** Which entries raise, which are left out and which are placed, where, and what is complained of. */
  ghost predicate ComplainsOf(cs: seq<Conflict>, always: Conflict, also: bool, other: Conflict) {
    forall c :: c in cs <==> c == always || (also && c == other)
  }

  /** An entry that is none is skipped; any other is skipped without a resolution it needs, and fails on one it must not have. */
  ghost predicate NotJoined(p: Placement, item: Item, r: Option<Resolution>) {
    if item.entry.None? then p == Skipped([InvalidEntry(item.id)])
    else
      var e := item.entry.value;
      && (p.Skipped? <==> Unresolved(e, r)) && (p == Failed(LocalProviderRequired) <==> NeedsLocal(e, r))
      && (p.Failed? && !NeedsLocal(e, r) ==> p.error == BadEndpoint)
      && (p.Skipped? ==> ComplainsOf(p.more, ArtifactPath(item.id), e.misspelt, UnknownField(item.id)))
  }

  /** An entry that joins a group: its row, its key, and the conflicts that do not keep it from joining. */
  ghost predicate JoinedExactly(p: Placement, env: Env, item: Item, r: Option<Resolution>)
    requires p.Joined?
  {
    && item.entry.Some? && RowFits(p.row, env, item, item.entry.value, r, p.key.0) && KeyFits(p.key, env, item.entry.value, p.row)
    && forall c :: c in p.more <==>
         (c == UnknownField(item.id) && item.entry.value.misspelt) ||
         (c == CredentialMissing(item.id) && LacksCredential(item.entry.value.provider, env.canonical))
  }

  lemma {:induction false} PlacedExactly(env: Env, resolutions: map<string, Resolution>, item: Item)
    ensures NotJoined(PlaceWith(env, resolutions)(item), item, Find(resolutions, item.id))
    ensures var p := PlaceWith(env, resolutions)(item); p.Joined? ==> JoinedExactly(p, env, item, Find(resolutions, item.id))
  {
    var p := PlaceWith(env, resolutions)(item);
    NotJoinedIs(env, resolutions, item);
    if p.Joined? {
      JoinedIs(env, resolutions, item);
    }
  }

  lemma {:induction false} NotJoinedIs(env: Env, resolutions: map<string, Resolution>, item: Item)
    ensures NotJoined(PlaceWith(env, resolutions)(item), item, Find(resolutions, item.id))
  {
  }

  lemma {:induction false} JoinedIs(env: Env, resolutions: map<string, Resolution>, item: Item)
    requires PlaceWith(env, resolutions)(item).Joined?
    ensures JoinedExactly(PlaceWith(env, resolutions)(item), env, item, Find(resolutions, item.id))
  {
    var p := PlaceWith(env, resolutions)(item);
    JoinedFits(env, resolutions, item, item.entry.value, Find(resolutions, item.id), p);
  }

  lemma {:induction false} JoinedFits(env: Env, resolutions: map<string, Resolution>, item: Item, e: Entry, r: Option<Resolution>,
                                      p: Placement)
    requires item.entry == Some(e) && r == Find(resolutions, item.id) && p == PlaceEntry(env, resolutions, item) && p.Joined?
    ensures RowFits(p.row, env, item, e, r, p.key.0) && KeyFits(p.key, env, e, p.row)
    ensures LacksCredential(e.provider, env.canonical) <==> LegacyCredentialRef(e.provider, env.canonical) == ""
  {
    UpstreamExactly(p.row.upstreamId, e, r);
    BehaviorExactly(p.row.behavior, e);
    ClassExactly(p.row.classification, env, e.provider, p.key.0);
    CredentialExactly(p.key.1, env, e);
  }
}
