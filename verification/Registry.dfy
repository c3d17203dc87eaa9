/**
  The mutations of config/llm_provider_registry.py.  A Provider is its endpoint and credential, by which it is known, the
  rest of its settings, and its pinned models; names are stripped.
 */
module Registry {
  import opened Text
  import opened Wrappers
  import opened Collections
  import opened Identity

  datatype Endpoint = Endpoint(baseUrl: string, credentialRef: string, authKind: string)

  /** A field of a pinned model. */
  datatype Value = Word(s: string) | Number(x: real) | Flag(b: bool) | List(items: seq<Value>) | Object(fields: map<string, Value>)

  type Model = map<string, Value>

  /** `models` is None when the Provider has no such table. */
  datatype Provider = Provider(endpoint: Endpoint, rest: string, models: Option<map<string, Model>>)

  type Providers = map<string, Provider>

  type Mark = Endpoint -> string

  // ---------- validity ----------

  /** `validate_provider_registry`: valid ids, and no two Providers with the same endpoint and credential. */
  predicate ValidRegistry(r: Providers, mark: Mark) {
    && (forall id :: id in r ==> ValidProviderId(id))
    && (forall p, q :: p in r && q in r && p != q ==> mark(r[p].endpoint) != mark(r[q].endpoint))
  }

  /** The loop of `validate_provider_registry`; the digest of each endpoint is computed by the caller's `mark`. */
  method ValidateProviderRegistry(r: Providers, mark: Mark) returns (ok: bool)
    ensures ok <==> ValidRegistry(r, mark)
  {
    var fingerprints: map<string, string> := map[];
    var rest := r.Keys;
    while rest != {}
      invariant rest <= r.Keys && Seen(r, mark, r.Keys - rest, fingerprints)
      decreases rest
    {
      var id :| id in rest;
      var fingerprint := mark(r[id].endpoint);
      if !ValidProviderId(id) || fingerprint in fingerprints {
        return false;
      }
      fingerprints := fingerprints[fingerprint := id];
      rest := rest - {id};
    }
    ok := true;
  }

  /** The fingerprints of the Providers in `done`, all different. */
  ghost predicate Seen(r: Providers, mark: Mark, done: set<string>, fingerprints: map<string, string>) {
    && (forall id :: id in done && id in r ==> ValidProviderId(id) && Holder(fingerprints, mark(r[id].endpoint), id))
    && (forall f :: f in fingerprints ==> fingerprints[f] in done && fingerprints[f] in r && mark(r[fingerprints[f]].endpoint) == f)
  }

  predicate Holder(fingerprints: map<string, string>, f: string, id: string) {
    f in fingerprints && fingerprints[f] == id
  }

  // ---------- Providers ----------

  function Models(p: Provider): map<string, Model> {
    if p.models.Some? then p.models.value else map[]
  }

  /** What adding, updating and deleting a Provider leaves; None when the source raises. */
  function Added(r: Providers, id: string, p: Provider, mark: Mark): Option<Providers> {
    var canonical := ValidateProviderId(id);
    if canonical.None? || canonical.value in r then None
    else
      var next := r[canonical.value := p.(models := Some(Models(p)))];
      if ValidRegistry(next, mark) then Some(next) else None
  }

  function Updated(r: Providers, id: string, p: Provider, mark: Mark): Option<Providers> {
    if id !in r then None
    else
      var next := r[id := p.(models := if p.models.Some? then p.models else Some(Models(r[id])))];
      if ValidRegistry(next, mark) then Some(next) else None
  }

  function Deleted(r: Providers, id: string): Option<Providers> {
    if id !in r || Models(r[id]) != map[] then None else Some(r - {id})
  }

  /** Deleting succeeds exactly for a known Provider without pinned models, and takes nothing else away. */
  lemma {:induction false} DeletedExactly(r: Providers, id: string)
    ensures Deleted(r, id).Some? <==> id in r && (r[id].models.None? || |r[id].models.value| == 0)
    ensures Deleted(r, id).Some? ==>
      var next := Deleted(r, id).value;
      id !in next && next.Keys == r.Keys - {id} && forall q :: q in next ==> next[q] == r[q]
  {
    if id in r && r[id].models.Some? && |r[id].models.value| == 0 {
      assert r[id].models.value == map[];
    }
  }

  /** From a valid registry, adding succeeds exactly for a valid new id with a fingerprint that no Provider has. */
  lemma {:induction false} AddedExactly(r: Providers, id: string, p: Provider, mark: Mark)
    requires ValidRegistry(r, mark)
    ensures Added(r, id, p, mark).Some? <==>
      ValidateProviderId(id).Some? && ValidateProviderId(id).value !in r && NobodyHas(r, mark, mark(p.endpoint), {})
  {
    if ValidateProviderId(id).Some? && ValidateProviderId(id).value !in r {
      var pid := ValidateProviderId(id).value;
      StripTwice(id);
      ReplacedExactly(r, pid, p.(models := Some(Models(p))), mark);
    }
  }

  /** Updating succeeds exactly for a known id with a fingerprint that no other Provider has; it need not be the old one. */
  lemma {:induction false} UpdatedExactly(r: Providers, id: string, p: Provider, mark: Mark)
    requires ValidRegistry(r, mark)
    ensures Updated(r, id, p, mark).Some? <==> id in r && NobodyHas(r, mark, mark(p.endpoint), {id})
  {
    if id in r {
      ReplacedExactly(r, id, p.(models := if p.models.Some? then p.models else Some(Models(r[id]))), mark);
    }
  }

  /** One Provider is put under `id`, with these models; all others stay. */
  ghost predicate PutsProvider(r: Providers, next: Providers, id: string, p: Provider, models: map<string, Model>) {
    && next.Keys == r.Keys + {id} && (forall q :: q in r && q != id ==> next[q] == r[q])
    && next[id].endpoint == p.endpoint && next[id].rest == p.rest && next[id].models == Some(models)
  }

  /** An added Provider without models gets an empty table of them. */
  lemma {:induction false} AddedPuts(r: Providers, id: string, p: Provider, mark: Mark, next: Providers)
    requires Added(r, id, p, mark) == Some(next)
    ensures PutsProvider(r, next, Strip(id), p, if p.models.Some? then p.models.value else map[])
  {
  }

  /** An update that names no models leaves those that are pinned. */
  lemma {:induction false} UpdatedPuts(r: Providers, id: string, p: Provider, mark: Mark, next: Providers)
    requires Updated(r, id, p, mark) == Some(next)
    ensures PutsProvider(r, next, id, p,
                         if p.models.Some? then p.models.value else if r[id].models.Some? then r[id].models.value else map[])
    ensures next.Keys == r.Keys
  {
  }

  predicate NobodyHas(r: Providers, mark: Mark, fingerprint: string, except: set<string>) {
    forall q :: q in r && q !in except ==> mark(r[q].endpoint) != fingerprint
  }

  lemma {:induction false} ReplacedExactly(r: Providers, id: string, p: Provider, mark: Mark)
    requires ValidRegistry(r, mark) && ValidProviderId(id)
    ensures ValidRegistry(r[id := p], mark) <==> NobodyHas(r, mark, mark(p.endpoint), {id})
  {
    var next := r[id := p];
    forall q | q in r && q != id ensures next[q] == r[q] {
    }
    if ValidRegistry(next, mark) {
      forall q | q in r && q !in {id} ensures mark(r[q].endpoint) != mark(p.endpoint) {
        assert q in next && id in next && mark(next[q].endpoint) != mark(next[id].endpoint);
      }
    }
  }

  method AddLlmProvider(r: Providers, id: string, p: Provider, mark: Mark) returns (next: Option<Providers>)
    ensures next == Added(r, id, p, mark)
    ensures next.Some? ==>
      PutsProvider(r, next.value, Strip(id), p, if p.models.Some? then p.models.value else map[]) && ValidRegistry(next.value, mark)
  {
    var canonical := ValidateProviderId(id);
    if canonical.None? || canonical.value in r {
      return None;
    }
    var updated := r[canonical.value := p.(models := Some(Models(p)))];
    var ok := ValidateProviderRegistry(updated, mark);
    next := if ok then Some(updated) else None;
  }

  method UpdateLlmProvider(r: Providers, id: string, p: Provider, mark: Mark) returns (next: Option<Providers>)
    ensures next == Updated(r, id, p, mark)
    ensures next.Some? ==>
      && PutsProvider(r, next.value, id, p,
                      if p.models.Some? then p.models.value else if r[id].models.Some? then r[id].models.value else map[])
      && next.value.Keys == r.Keys && ValidRegistry(next.value, mark)
  {
    if id !in r {
      return None;
    }
    var updated := r[id := p.(models := if p.models.Some? then p.models else Some(Models(r[id])))];
    var ok := ValidateProviderRegistry(updated, mark);
    next := if ok then Some(updated) else None;
  }

  method DeleteLlmProvider(r: Providers, id: string) returns (next: Option<Providers>)
    ensures next == Deleted(r, id)
    ensures next.Some? <==> id in r && (r[id].models.None? || |r[id].models.value| == 0)
    ensures next.Some? ==> next.value.Keys == r.Keys - {id} && forall q :: q in next.value ==> next.value[q] == r[q]
  {
    DeletedExactly(r, id);
    if id !in r {
      return None;
    }
    var provider := r[id];
    if Models(provider) != map[] {
      return None;
    }
    next := Some(r - {id});
  }

  // ---------- pins ----------

  const CREDENTIALS := {"api_key", "api_key_env", "credential_ref"}
  const RESERVED := {"api_key", "api_key_env", "credential_ref", "enabled", "label", "model_key", "model_ref", "provider_id", "upstream_id"}

  /** `_contains_credential_field` */
  predicate HoldsCredential(v: Value) {
    match v
    case List(items) => exists i :: 0 <= i < |items| && HoldsCredential(items[i])
    case Object(fields) => exists k :: k in fields && (k in CREDENTIALS || HoldsCredential(fields[k]))
    case _ => false
  }

  /** A way into a value: under a key of an object, or to an item of a list. */
  datatype Step = Under(key: string) | Item(i: nat)

  function ValueAt(v: Value, path: seq<Step>): Option<Value>
    decreases |path|
  {
    if path == [] then Some(v)
    else if path[0].Under? && v.Object? && path[0].key in v.fields then ValueAt(v.fields[path[0].key], path[1..])
    else if path[0].Item? && v.List? && path[0].i < |v.items| then ValueAt(v.items[path[0].i], path[1..])
    else None
  }

  /** An object somewhere in the value has a field with such a name. */
  predicate CredentialAt(v: Value, path: seq<Step>, k: string) {
    k in CREDENTIALS && ValueAt(v, path).Some? && ValueAt(v, path).value.Object? && k in ValueAt(v, path).value.fields
  }

  lemma {:induction false} CredentialFound(v: Value, path: seq<Step>, k: string)
    requires CredentialAt(v, path, k)
    ensures HoldsCredential(v)
    decreases |path|
  {
    if path != [] {
      var next := if path[0].Under? then v.fields[path[0].key] else v.items[path[0].i];
      assert ValueAt(v, path) == ValueAt(next, path[1..]);
      CredentialFound(next, path[1..], k);
    }
  }

  lemma {:induction false} CredentialPath(v: Value) returns (path: seq<Step>, k: string)
    requires HoldsCredential(v)
    ensures CredentialAt(v, path, k)
    decreases v
  {
    path, k := [], "";
    match v
    case List(items) =>
      var i :| 0 <= i < |items| && HoldsCredential(items[i]);
      path, k := CredentialPath(items[i]);
      assert ([Item(i)] + path)[1..] == path;
      path := [Item(i)] + path;
    case Object(fields) =>
      var f :| f in fields && (f in CREDENTIALS || HoldsCredential(fields[f]));
      if f in CREDENTIALS {
        k := f;
      } else {
        path, k := CredentialPath(fields[f]);
        assert ([Under(f)] + path)[1..] == path;
        path := [Under(f)] + path;
      }
    case _ =>
  }

  /** A credential field is found exactly if there is one at any depth. */
  lemma {:induction false} HoldsExactly(v: Value)
    ensures HoldsCredential(v) <==> exists path, k :: CredentialAt(v, path, k)
  {
    if HoldsCredential(v) {
      var path, k := CredentialPath(v);
    } else if exists path, k :: CredentialAt(v, path, k) {
      var path, k :| CredentialAt(v, path, k);
      CredentialFound(v, path, k);
    }
  }

  predicate OverridesAllowed(overrides: Model) {
    overrides.Keys !! RESERVED && !HoldsCredential(Object(overrides))
  }

  function DefaultsOf(m: Model): Model {
    if "defaults" in m && m["defaults"].Object? then m["defaults"].fields else map[]
  }

  predicate Truthy(m: Model, key: string) {
    key in m && match m[key] {
      case Word(s) => s != ""
      case Number(x) => x != 0.0
      case Flag(b) => b
      case List(items) => items != []
      case Object(fields) => fields != map[]
    }
  }

  const REASONING: Model := map["reasoning_effort_values" := List([Word("low"), Word("medium"), Word("high")]),
                                "default_reasoning_effort" := Word("medium"), "reasoning_effort_adapter" := Word("reasoning_object")]

  /** `not str(existing.get("label") or "").strip()` */
  predicate Unlabelled(m: Model) {
    !Truthy(m, "label") || (m["label"].Word? && Strip(m["label"].s) == "")
  }

  /** `_with_responses_reasoning_pin_defaults`; `responses` says whether the Provider speaks that protocol. */
  function WithDefaults(m: Model, responses: bool): Model {
    if responses && !Truthy(m, "reasoning_effort_values") && !Truthy(DefaultsOf(m), "reasoning_effort_values") then
      m["defaults" := Object(REASONING + DefaultsOf(m))]
    else m
  }

  lemma {:induction false} DefaultsTwice(m: Model, responses: bool)
    ensures WithDefaults(WithDefaults(m, responses), responses) == WithDefaults(m, responses)
  {
    var d := DefaultsOf(m);
    var n := WithDefaults(m, responses);
    if n != m {
      assert DefaultsOf(n) == REASONING + d;
      assert REASONING + (REASONING + d) == REASONING + d;
      assert Truthy(n, "reasoning_effort_values") == Truthy(m, "reasoning_effort_values");
    }
  }

  datatype Pin = Pin(provider: string, upstreamId: string, title: string, key: string, overrides: Model)

  /** What a pin of a new model is. */
  function FreshModel(p: Pin): Model {
    map["upstream_id" := Word(p.upstreamId), "label" := Word(if p.title != "" then p.title else p.upstreamId), "enabled" := Flag(true)]
    + p.overrides
  }

  /** What it adds to a model that is there: a missing label and missing overrides. */
  function Healed(m: Model, p: Pin): Model {
    var named := if p.title != "" && Unlabelled(m) then m["label" := Word(p.title)] else m;
    p.overrides + named
  }

  function PinnedModel(m: Option<Model>, p: Pin, responses: bool): Model {
    WithDefaults(if m.Some? then Healed(m.value, p) else FreshModel(p), responses)
  }

  function KeyOf(p: Pin, keyOf: string -> Option<string>): Option<string> {
    var key := if p.key != "" then Some(p.key) else keyOf(p.upstreamId);
    if key.None? then None else Some(Strip(key.value))
  }

  function Lookup(models: map<string, Model>, key: string): Option<Model> {
    if key in models then Some(models[key]) else None
  }

  /** `pin_llm_model` */
  function Pinned(r: Providers, p: Pin, keyOf: string -> Option<string>, responses: Provider -> bool): Option<Providers> {
    var key := KeyOf(p, keyOf);
    if !OverridesAllowed(p.overrides) || p.provider !in r || key.None? || MakeModelRef(p.provider, key.value).None? then None
    else
      var provider := r[p.provider];
      var models := Models(provider);
      var model := PinnedModel(Lookup(models, key.value), p, responses(provider.(models := None)));
      Some(r[p.provider := provider.(models := Some(models[key.value := model]))])
  }

  /** `unpin_llm_model` */
  function Unpinned(r: Providers, ref: string): Option<Providers> {
    var s := SplitModelRef(ref);
    if s.None? || s.value.0 !in r || r[s.value.0].models.None? || s.value.1 !in Models(r[s.value.0]) then None
    else
      var provider := r[s.value.0];
      Some(r[s.value.0 := provider.(models := Some(Models(provider) - {s.value.1}))])
  }

  // ---------- what a pin writes, field by field ----------

  /** A fresh pin has its upstream id, a label, the enabled flag and the overrides, and nothing else. */
  ghost predicate FreshFits(m: Model, p: Pin) {
    && (forall f :: f in m <==> f == "upstream_id" || f == "label" || f == "enabled" || f in p.overrides)
    && m["upstream_id"] == Word(p.upstreamId) && m["enabled"] == Flag(true)
    && (p.title != "" ==> m["label"] == Word(p.title)) && (p.title == "" ==> m["label"] == Word(p.upstreamId))
    && (forall f :: f in p.overrides ==> m[f] == p.overrides[f])
  }

  /** A model that is there gets a label if it has none and the pin brings one, and the overrides it lacks. */
  ghost predicate HealedFits(m: Model, was: Model, p: Pin) {
    && (forall f :: f in m <==> f in was || f in p.overrides || (f == "label" && p.title != "" && Unlabelled(was)))
    && (p.title != "" && Unlabelled(was) ==> m["label"] == Word(p.title))
    && (forall f :: f in was && !(f == "label" && p.title != "" && Unlabelled(was)) ==> m[f] == was[f])
    && (forall f :: f in p.overrides && f !in was && f != "label" ==> m[f] == p.overrides[f])
  }

  /** The fields of the reasoning contract, each unless the defaults have it. */
  ghost predicate ReasoningFits(after: Model, before: Model) {
    && (forall f :: f in after <==> f in before || f == "reasoning_effort_values" || f == "default_reasoning_effort" ||
                                    f == "reasoning_effort_adapter")
    && (forall f :: f in before ==> after[f] == before[f])
    && ("reasoning_effort_values" !in before ==>
          after["reasoning_effort_values"] == List([Word("low"), Word("medium"), Word("high")]))
    && ("default_reasoning_effort" !in before ==> after["default_reasoning_effort"] == Word("medium"))
    && ("reasoning_effort_adapter" !in before ==> after["reasoning_effort_adapter"] == Word("reasoning_object"))
  }

  /** Under the responses protocol a model that names no effort values gets the contract into its defaults. */
  ghost predicate DefaultsFit(after: Model, before: Model, responses: bool) {
    if responses && !Truthy(before, "reasoning_effort_values") && !Truthy(DefaultsOf(before), "reasoning_effort_values") then
      && after.Keys == before.Keys + {"defaults"} && (forall f :: f in before && f != "defaults" ==> after[f] == before[f])
      && after["defaults"].Object? && ReasoningFits(after["defaults"].fields, DefaultsOf(before))
    else after == before
  }

  ghost predicate PinFits(was: Option<Model>, now: Model, p: Pin, responses: bool) {
    exists m :: DefaultsFit(now, m, responses) && if was.Some? then HealedFits(m, was.value, p) else FreshFits(m, p)
  }

  lemma {:induction false} FreshIs(p: Pin)
    requires p.overrides.Keys !! RESERVED
    ensures FreshFits(FreshModel(p), p)
  {
  }

  lemma {:induction false} HealedIs(was: Model, p: Pin)
    requires p.overrides.Keys !! RESERVED
    ensures HealedFits(Healed(was, p), was, p)
  {
    assert "label" !in p.overrides;
  }

  lemma {:induction false} DefaultsAre(m: Model, responses: bool)
    ensures DefaultsFit(WithDefaults(m, responses), m, responses)
  {
    assert ReasoningFits(REASONING + DefaultsOf(m), DefaultsOf(m));
  }

  lemma {:induction false} PinIs(was: Option<Model>, p: Pin, responses: bool)
    requires p.overrides.Keys !! RESERVED
    ensures PinFits(was, PinnedModel(was, p, responses), p, responses)
  {
    var m := if was.Some? then Healed(was.value, p) else FreshModel(p);
    if was.Some? {
      HealedIs(was.value, p);
    } else {
      FreshIs(p);
    }
    DefaultsAre(m, responses);
    assert PinnedModel(was, p, responses) == WithDefaults(m, responses);
  }

  /** Which key a pin goes to: the one that is named, else the one made for the upstream id. */
  predicate IsKeyOf(p: Pin, keyOf: string -> Option<string>, key: string) {
    if p.key != "" then key == Strip(p.key) else keyOf(p.upstreamId).Some? && key == Strip(keyOf(p.upstreamId).value)
  }

  /** A pin raises on forbidden overrides, an unknown Provider, and a key that fits into no reference. */
  ghost predicate CanPin(r: Providers, p: Pin, keyOf: string -> Option<string>) {
    && (forall f :: f in p.overrides ==> f !in RESERVED) && !(exists path, k :: CredentialAt(Object(p.overrides), path, k))
    && p.provider in r && ValidProviderId(Strip(p.provider))
    && exists key :: IsKeyOf(p, keyOf, key) && key != "" && '/' !in key && |key| <= KEY_LIMIT
  }

  /** One model of one Provider is written. */
  ghost predicate PinsModel(r: Providers, next: Providers, p: Pin, keyOf: string -> Option<string>, responses: Provider -> bool) {
    && p.provider in r && next.Keys == r.Keys && (forall q :: q in r && q != p.provider ==> next[q] == r[q])
    && next[p.provider].endpoint == r[p.provider].endpoint && next[p.provider].rest == r[p.provider].rest
    && exists key :: IsKeyOf(p, keyOf, key) &&
         OnePinned(Models(r[p.provider]), Models(next[p.provider]), key, p, responses(r[p.provider].(models := None)))
  }

  ghost predicate OnePinned(before: map<string, Model>, after: map<string, Model>, key: string, p: Pin, responses: bool) {
    && after.Keys == before.Keys + {key} && (forall k :: k in before && k != key ==> after[k] == before[k])
    && PinFits(Lookup(before, key), after[key], p, responses)
  }

  lemma {:induction false} PinnedExactly(r: Providers, p: Pin, keyOf: string -> Option<string>, responses: Provider -> bool)
    ensures Pinned(r, p, keyOf, responses).Some? <==> CanPin(r, p, keyOf)
    ensures Pinned(r, p, keyOf, responses).Some? ==> PinsModel(r, Pinned(r, p, keyOf, responses).value, p, keyOf, responses)
  {
    CanPinExactly(r, p, keyOf, responses);
    if Pinned(r, p, keyOf, responses).Some? {
      PinnedOne(r, p, keyOf, responses, KeyOf(p, keyOf).value);
    }
  }

  lemma {:induction false} CanPinExactly(r: Providers, p: Pin, keyOf: string -> Option<string>, responses: Provider -> bool)
    ensures Pinned(r, p, keyOf, responses).Some? <==> CanPin(r, p, keyOf)
  {
    HoldsExactly(Object(p.overrides));
    KeyIs(p, keyOf);
    assert OverridesAllowed(p.overrides) <==>
      (forall f :: f in p.overrides ==> f !in RESERVED) && !(exists path, k :: CredentialAt(Object(p.overrides), path, k));
    if KeyOf(p, keyOf).Some? {
      RefMade(p.provider, KeyOf(p, keyOf).value);
    }
  }

  lemma {:induction false} RefMade(id: string, key: string)
    requires Strip(key) == key
    ensures MakeModelRef(id, key).Some? <==> ValidProviderId(Strip(id)) && key != "" && '/' !in key && |key| <= KEY_LIMIT
  {
  }

  lemma {:induction false} PinnedOne(r: Providers, p: Pin, keyOf: string -> Option<string>, responses: Provider -> bool, key: string)
    requires Pinned(r, p, keyOf, responses).Some? && KeyOf(p, keyOf) == Some(key)
    ensures PinsModel(r, Pinned(r, p, keyOf, responses).value, p, keyOf, responses)
  {
    var before, yes := Models(r[p.provider]), responses(r[p.provider].(models := None));
    PutPin(before, key, p, yes);
    KeyIs(p, keyOf);
    assert IsKeyOf(p, keyOf, key);
    assert Models(Pinned(r, p, keyOf, responses).value[p.provider]) == before[key := PinnedModel(Lookup(before, key), p, yes)];
  }

  lemma {:induction false} PutPin(before: map<string, Model>, key: string, p: Pin, responses: bool)
    requires p.overrides.Keys !! RESERVED
    ensures OnePinned(before, before[key := PinnedModel(Lookup(before, key), p, responses)], key, p, responses)
  {
    PinIs(Lookup(before, key), p, responses);
  }

  lemma {:induction false} KeyIs(p: Pin, keyOf: string -> Option<string>)
    ensures forall key :: IsKeyOf(p, keyOf, key) <==> KeyOf(p, keyOf) == Some(key)
    ensures KeyOf(p, keyOf).Some? ==> Strip(KeyOf(p, keyOf).value) == KeyOf(p, keyOf).value
  {
    if KeyOf(p, keyOf).Some? {
      StripTwice(if p.key != "" then p.key else keyOf(p.upstreamId).value);
    }
  }

  /** Unpinning succeeds exactly for a pinned model of a known Provider, and takes only that model away. */
  lemma {:induction false} UnpinnedExactly(r: Providers, ref: string, id: string, key: string)
    requires SplitModelRef(ref) == Some((id, key))
    ensures Unpinned(r, ref).Some? <==> id in r && r[id].models.Some? && key in r[id].models.value
    ensures Unpinned(r, ref).Some? ==>
      var next := Unpinned(r, ref).value;
      && next.Keys == r.Keys && (forall q :: q in r && q != id ==> next[q] == r[q])
      && next[id].endpoint == r[id].endpoint && next[id].rest == r[id].rest && next[id].models.Some?
      && next[id].models.value.Keys == r[id].models.value.Keys - {key}
      && forall k :: k in next[id].models.value ==> next[id].models.value[k] == r[id].models.value[k]
  {
  }

  /** The loop over the overrides of a pin: only fields that are missing are filled in. */
  method FillIn(overrides: Model, existing: Model) returns (entry: Model)
    ensures entry == overrides + existing
  {
    entry := existing;
    var rest := overrides.Keys;
    while rest != {}
      invariant rest <= overrides.Keys && Filled(overrides, existing, overrides.Keys - rest, entry)
      decreases rest
    {
      var key :| key in rest;
      if key !in entry {
        entry := entry[key := overrides[key]];
      }
      OneLess(overrides.Keys, rest, key);
      rest := rest - {key};
    }
    NoneLess(overrides.Keys);
    assert entry.Keys == (overrides + existing).Keys;
  }

  /** `entry` is `existing` with the overrides named by `done` filled in. */
  ghost predicate Filled(overrides: Model, existing: Model, done: set<string>, entry: Model) {
    && (forall k :: k in entry <==> k in existing || (k in done && k in overrides))
    && (forall k :: k in entry ==> entry[k] == if k in existing then existing[k] else (overrides + existing)[k])
  }

  /** The entry of the model that is pinned, as the source edits it step by step. */
  method PinEntry(models: map<string, Model>, key: string, p: Pin, responses: bool) returns (entry: Model)
    ensures entry == PinnedModel(Lookup(models, key), p, responses)
  {
    if key in models {
      entry := models[key];
      if p.title != "" && Unlabelled(entry) {
        entry := entry["label" := Word(p.title)];
      }
      entry := FillIn(p.overrides, entry);
    } else {
      entry := FreshModel(p);
    }
    entry := WithDefaults(entry, responses);
  }

  method PinLlmModel(r: Providers, p: Pin, keyOf: string -> Option<string>, responses: Provider -> bool) returns (next: Option<Providers>)
    ensures next == Pinned(r, p, keyOf, responses)
    ensures next.Some? <==> CanPin(r, p, keyOf)
    ensures next.Some? ==> PinsModel(r, next.value, p, keyOf, responses)
  {
    PinnedExactly(r, p, keyOf, responses);
    if !OverridesAllowed(p.overrides) || p.provider !in r {
      return None;
    }
    var key := KeyOf(p, keyOf);
    if key.None? || MakeModelRef(p.provider, key.value).None? {
      return None;
    }
    var provider := r[p.provider];
    var models := Models(provider);
    var entry := PinEntry(models, key.value, p, responses(provider.(models := None)));
    models := models[key.value := entry];
    next := Some(r[p.provider := provider.(models := Some(models))]);
  }

  method UnpinLlmModel(r: Providers, ref: string) returns (next: Option<Providers>)
    ensures next == Unpinned(r, ref)
    ensures next.Some? <==>
      SplitModelRef(ref).Some? && var (id, key) := SplitModelRef(ref).value; id in r && r[id].models.Some? && key in r[id].models.value
  {
    var parts := SplitModelRef(ref);
    if parts.None? || parts.value.0 !in r {
      return None;
    }
    var provider := r[parts.value.0];
    if provider.models.None? || parts.value.1 !in Models(provider) {
      return None;
    }
    next := Some(r[parts.value.0 := provider.(models := Some(Models(provider) - {parts.value.1}))]);
  }

  /** A pin touches one model, and of a model that is there no field but a blank label and the defaults. */
  lemma {:induction false} PinKeeps(r: Providers, p: Pin, keyOf: string -> Option<string>, responses: Provider -> bool, next: Providers)
    requires Pinned(r, p, keyOf, responses) == Some(next)
    ensures next.Keys == r.Keys && forall q :: q in r && q != p.provider ==> next[q] == r[q]
    ensures var before, after, key := Models(r[p.provider]), Models(next[p.provider]), KeyOf(p, keyOf).value;
      && after.Keys == before.Keys + {key} && (forall k :: k in before && k != key ==> after[k] == before[k])
      && (if key in before then KeepsFields(before[key], after[key]) else Names(after[key], p.upstreamId))
  {
    var provider := r[p.provider];
    EntryKeeps(Lookup(Models(provider), KeyOf(p, keyOf).value), p, responses(provider.(models := None)));
  }

  predicate KeepsFields(before: Model, after: Model) {
    forall f :: f in before && f != "defaults" && !(f == "label" && Unlabelled(before)) ==>
      f in after && after[f] == before[f]
  }

  lemma {:induction false} EntryKeeps(was: Option<Model>, p: Pin, responses: bool)
    requires p.overrides.Keys !! RESERVED
    ensures var m := PinnedModel(was, p, responses);
      if was.Some? then KeepsFields(was.value, m) else Names(m, p.upstreamId)
  {
    if was.None? {
      assert "upstream_id" !in p.overrides;
    }
  }

  predicate Names(m: Model, upstreamId: string) {
    "upstream_id" in m && m["upstream_id"] == Word(upstreamId)
  }

  /** Healing what a pin has made or healed changes nothing. */
  lemma {:induction false} HealedTwice(m: Model, p: Pin, responses: bool)
    requires p.overrides.Keys !! RESERVED
    ensures Healed(WithDefaults(Healed(m, p), responses), p) == WithDefaults(Healed(m, p), responses)
  {
    var w := WithDefaults(Healed(m, p), responses);
    assert "label" !in p.overrides;
    NamedTwice(m, p, responses);
    FilledTwice(p.overrides, w);
  }

  lemma {:induction false} NamedTwice(m: Model, p: Pin, responses: bool)
    requires p.overrides.Keys !! RESERVED && "label" !in p.overrides
    ensures var w := WithDefaults(Healed(m, p), responses);
      p.overrides.Keys <= w.Keys && (p.title != "" && Unlabelled(w) ==> "label" in w && w["label"] == Word(p.title))
  {
  }

  lemma {:induction false} FilledTwice(overrides: Model, w: Model)
    requires overrides.Keys <= w.Keys
    ensures overrides + w == w
  {
  }

  lemma {:induction false} FreshHealed(p: Pin, responses: bool)
    requires p.overrides.Keys !! RESERVED
    ensures Healed(WithDefaults(FreshModel(p), responses), p) == WithDefaults(FreshModel(p), responses)
  {
    var f := FreshModel(p);
    assert "label" !in p.overrides;
    assert f["label"] == Word(if p.title != "" then p.title else p.upstreamId);
    FilledTwice(p.overrides, WithDefaults(f, responses));
  }

  lemma {:induction false} PinnedModelTwice(m: Option<Model>, p: Pin, responses: bool)
    requires p.overrides.Keys !! RESERVED
    ensures PinnedModel(Some(PinnedModel(m, p, responses)), p, responses) == PinnedModel(m, p, responses)
  {
    if m.Some? {
      HealedTwice(m.value, p, responses);
      DefaultsTwice(Healed(m.value, p), responses);
    } else {
      FreshHealed(p, responses);
      DefaultsTwice(FreshModel(p), responses);
    }
  }

  /** Putting a model that is there already. */
  lemma {:induction false} PutAgain(r: Providers, id: string, p: Provider, key: string, model: Model)
    requires id in r && r[id] == p && p.models.Some? && key in p.models.value && p.models.value[key] == model
    ensures r[id := p.(models := Some(Models(p)[key := model]))] == r
  {
    assert Models(p)[key := model] == Models(p);
  }

  /** Pinning twice equals pinning once. */
  lemma {:induction false} PinTwice(r: Providers, p: Pin, keyOf: string -> Option<string>, responses: Provider -> bool, once: Providers)
    requires Pinned(r, p, keyOf, responses) == Some(once)
    ensures Pinned(once, p, keyOf, responses) == Some(once)
  {
    var key := KeyOf(p, keyOf).value;
    var provider := r[p.provider];
    var yes := responses(provider.(models := None));
    var was := Lookup(Models(provider), key);
    var model := PinnedModel(was, p, yes);
    var after := once[p.provider];
    assert after == provider.(models := Some(Models(provider)[key := model]));
    assert after.(models := None) == provider.(models := None);
    assert Lookup(Models(after), key) == Some(model);
    PinnedModelTwice(was, p, yes);
    PutAgain(once, p.provider, after, key, model);
  }

  /** Taking out a model that was put in. */
  lemma {:induction false} TakeOut(r: Providers, id: string, p: Provider, key: string, model: Model)
    requires id in r && r[id] == p && key !in Models(p)
    ensures r[id := p.(models := Some(Models(p)[key := model]))][id := p.(models := Some(Models(p)[key := model] - {key}))] ==
            r[id := p.(models := Some(Models(p)))]
  {
    assert Models(p)[key := model] - {key} == Models(p);
  }

  lemma {:induction false} UnpinnedOne(r: Providers, ref: string, id: string, key: string)
    requires SplitModelRef(ref) == Some((id, key)) && id in r && r[id].models.Some? && key in r[id].models.value
    ensures Unpinned(r, ref) == Some(r[id := r[id].(models := Some(Models(r[id]) - {key}))])
  {
  }

  /** Unpinning a fresh pin undoes it, up to an empty table of models. */
  lemma {:induction false} UnpinUndoes(r: Providers, p: Pin, keyOf: string -> Option<string>, responses: Provider -> bool,
                                       pinned: Providers, key: string, ref: string)
    requires Pinned(r, p, keyOf, responses) == Some(pinned) && KeyOf(p, keyOf) == Some(key) && MakeModelRef(p.provider, key) == Some(ref)
    requires Strip(p.provider) == p.provider && key !in Models(r[p.provider])
    ensures Unpinned(pinned, ref) == Some(r[p.provider := r[p.provider].(models := Some(Models(r[p.provider])))])
  {
    var provider := r[p.provider];
    var model := PinnedModel(Lookup(Models(provider), key), p, responses(provider.(models := None)));
    StripTwice(if p.key != "" then p.key else keyOf(p.upstreamId).value);
    RefRoundTrip(p.provider, key);
    assert pinned == r[p.provider := provider.(models := Some(Models(provider)[key := model]))];
    UnpinnedOne(pinned, ref, p.provider, key);
    TakeOut(r, p.provider, provider, key, model);
  }

  // ---------- runs ----------

  datatype Op =
    | Add(id: string, provider: Provider)
    | Update(id: string, provider: Provider)
    | Delete(id: string)
    | PinModel(pin: Pin)
    | Unpin(ref: string)

  function Do(r: Providers, op: Op, mark: Mark, keyOf: string -> Option<string>, responses: Provider -> bool): Option<Providers> {
    match op
    case Add(id, p) => Added(r, id, p, mark)
    case Update(id, p) => Updated(r, id, p, mark)
    case Delete(id) => Deleted(r, id)
    case PinModel(pin) => Pinned(r, pin, keyOf, responses)
    case Unpin(ref) => Unpinned(r, ref)
  }

  /** A run of mutations; None when one of them raises. */
  function Run(r: Providers, ops: seq<Op>, mark: Mark, keyOf: string -> Option<string>, responses: Provider -> bool): Option<Providers>
    decreases |ops|
  {
    if ops == [] then Some(r)
    else
      var next := Do(r, ops[0], mark, keyOf, responses);
      if next.None? then None else Run(next.value, ops[1..], mark, keyOf, responses)
  }

  lemma {:induction false} SameEndpoints(r: Providers, next: Providers, mark: Mark)
    requires ValidRegistry(r, mark) && next.Keys <= r.Keys && forall id :: id in next ==> next[id].endpoint == r[id].endpoint
    ensures ValidRegistry(next, mark)
  {
  }

  lemma {:induction false} StepKeepsValid(r: Providers, op: Op, mark: Mark, keyOf: string -> Option<string>, responses: Provider -> bool)
    requires ValidRegistry(r, mark) && Do(r, op, mark, keyOf, responses).Some?
    ensures ValidRegistry(Do(r, op, mark, keyOf, responses).value, mark)
  {
    var next := Do(r, op, mark, keyOf, responses).value;
    if op.Delete? || op.PinModel? || op.Unpin? {
      SameEndpoints(r, next, mark);
    }
  }

  /** From a valid registry every run of mutations that does not raise ends in a valid one. */
  lemma {:induction false} RunKeepsValid(r: Providers, ops: seq<Op>, mark: Mark, keyOf: string -> Option<string>,
                                         responses: Provider -> bool, last: Providers)
    requires ValidRegistry(r, mark) && Run(r, ops, mark, keyOf, responses) == Some(last)
    ensures ValidRegistry(last, mark)
    decreases |ops|
  {
    if ops != [] {
      StepKeepsValid(r, ops[0], mark, keyOf, responses);
      RunKeepsValid(Do(r, ops[0], mark, keyOf, responses).value, ops[1..], mark, keyOf, responses, last);
    }
  }
}
