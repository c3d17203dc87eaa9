/**
  `project_v2_llm_for_runtime`: from Providers, pinned models and profiles to the runtime's model library and profiles.
  Names and references are stripped; which Providers get which protocol defaults is a parameter.
 */
module Projection {
  import opened Text
  import opened Wrappers
  import opened Collections
  import opened Identity
  import opened Aliases

  /** A value of the public config. */
  datatype Json = Null | Flag(b: bool) | Number(n: int) | Word(s: string) | Array(items: seq<Json>) | Object(fields: map<string, Json>)

  type Fields = map<string, Json>

  const CREDENTIALS := {"api_key", "api_key_env", "credential_ref"}

  const OVERRIDES := {"compat", "connect_timeout", "contract", "default_reasoning_effort", "discovery_enabled", "max_output_tokens",
                      "prompt_cache", "protocol", "reasoning_effort", "reasoning_effort_adapter", "reasoning_effort_map",
                      "reasoning_effort_values", "reasoning_state_field", "retry_policy", "streaming", "strict_compatibility",
                      "supports_image_input", "temperature", "thinking_display", "thinking_type", "timeout", "tool_calling_mode",
                      "transport"}

  // ---------- credentials ----------

  /** No credential field at any depth. */
  predicate CleanValue(v: Json) {
    match v
    case Array(items) => forall i :: 0 <= i < |items| ==> CleanValue(items[i])
    case Object(fields) => forall k :: k in fields ==> k !in CREDENTIALS && CleanValue(fields[k])
    case _ => true
  }

  predicate Clean(fields: Fields) {
    forall k :: k in fields ==> k !in CREDENTIALS && CleanValue(fields[k])
  }

  /** `_validate_credential_ownership`: at the root some credential fields are allowed and some fields not looked into. */
  predicate OwnershipOk(fields: Fields, allowed: set<string>, skipped: set<string>) {
    forall k :: k in fields ==> (k in CREDENTIALS ==> k in allowed) && (k in skipped || CleanValue(fields[k]))
  }

  /** `_validate_runtime_overrides` */
  predicate OverridesOk(fields: Fields) {
    OwnershipOk(fields, {}, {}) && fields.Keys <= OVERRIDES
  }

  lemma {:induction false} OverridesAreClean(fields: Fields)
    requires OverridesOk(fields)
    ensures Clean(fields)
  {
  }

  /** A table passes exactly if it holds no credential field, but for the allowed ones at its root and below the skipped ones. */
  lemma {:induction false} OwnershipExactly(fields: Fields, allowed: set<string>, skipped: set<string>)
    ensures OwnershipOk(fields, allowed, skipped) <==>
      && (forall k :: k in CREDENTIALS && k in fields ==> k in allowed)
      && Clean(fields - skipped - CREDENTIALS) && forall k :: k in fields && k in CREDENTIALS - skipped ==> CleanValue(fields[k])
  {
    var rest := fields - skipped - CREDENTIALS;
    assert forall k :: k in rest ==> rest[k] == fields[k];
    if OwnershipOk(fields, allowed, skipped) {
      assert Clean(rest);
    }
  }

  // ---------- reading fields ----------

  function TextOf(fields: Fields, key: string): string {
    if key in fields && fields[key].Word? then fields[key].s else ""
  }

  /** A field that is a table, or an empty one. */
  function TableOf(fields: Fields, key: string): Fields {
    if key in fields && fields[key].Object? then fields[key].fields else map[]
  }

  predicate Truthy(v: Json) {
    match v
    case Null => false
    case Flag(b) => b
    case Number(n) => n != 0
    case Word(s) => s != ""
    case Array(items) => items != []
    case Object(fields) => fields != map[]
  }

  // ---------- one pinned model ----------

  /** Which Providers get which protocol defaults. */
  datatype Defaults = Defaults(automaticCache: (Fields, Fields) -> bool, reasoningDefaults: (Fields, Fields) -> bool)

  const AUTOMATIC := Object(map["mode" := Word("automatic")])

  const REASONING: Fields := map["reasoning_effort_values" := Array([Word("low"), Word("medium"), Word("high")]),
                                 "default_reasoning_effort" := Word("medium"), "reasoning_effort_adapter" := Word("reasoning_object")]

  /** The fields every runtime model gets. */
  function Fixed(pid: string, provider: Fields, ref: string, model: Fields): Fields {
    var upstreamId := TextOf(model, "upstream_id");
    map["provider_id" := Word(pid), "model" := Word(upstreamId), "label" := Word(Or(TextOf(model, "label"), upstreamId)),
        "transport" := Word(Or(TextOf(model, "wire_protocol"), TextOf(TableOf(provider, "protocols"), "default"))),
        "contract" := Word(Or(TextOf(model, "interaction_contract"), "tool_chat")),
        "protocol" := Word(TextOf(model, "model_protocol")),
        "compat" := if "compatibility" in model then model["compatibility"] else Object(map[]),
        "model_ref" := Word(ref)]
  }

  /** The fields that depend on the Provider and the capabilities. */
  function Extra(provider: Fields, model: Fields, d: Defaults): Fields {
    var defaults := TableOf(model, "defaults");
    var cache: Fields :=
      if "prompt_cache" !in model && "prompt_cache" !in defaults && d.automaticCache(provider, model) then
        map["prompt_cache" := AUTOMATIC]
      else map[];
    var capabilities := TableOf(model, "capabilities");
    var image: Fields :=
      if "image_input" in capabilities then map["supports_image_input" := Flag(Truthy(capabilities["image_input"]))]
      else if "supports_image_input" in model then map["supports_image_input" := Flag(Truthy(model["supports_image_input"]))]
      else map[];
    cache + image
  }

  /** `runtime_model` */
  function RuntimeModel(pid: string, provider: Fields, ref: string, model: Fields, d: Defaults): Fields {
    var base := model + TableOf(model, "defaults") + Fixed(pid, provider, ref, model) + Extra(provider, model, d);
    if d.reasoningDefaults(provider, model) then REASONING + base else base
  }

  /** The checks on a pinned model. */
  predicate ModelOk(model: Fields) {
    && OwnershipOk(model, {}, {"defaults"}) && Strip(TextOf(model, "upstream_id")) != "" && OverridesOk(TableOf(model, "defaults"))
  }

  /** `defaults` that are no table are not looked into. */
  predicate CleanDefaults(model: Fields) {
    "defaults" in model && !model["defaults"].Object? ==> CleanValue(model["defaults"])
  }

  lemma {:induction false} CleanJoin(a: Fields, b: Fields)
    requires Clean(a) && Clean(b)
    ensures Clean(a + b)
  {
  }

  lemma {:induction false} FixedIsClean(pid: string, provider: Fields, ref: string, model: Fields)
    requires Clean(model)
    ensures Clean(Fixed(pid, provider, ref, model))
  {
    assert CleanValue(Object(map[]));
  }

  lemma {:induction false} ExtraIsClean(provider: Fields, model: Fields, d: Defaults)
    ensures Clean(Extra(provider, model, d)) && Clean(REASONING)
  {
    assert CleanValue(AUTOMATIC);
    assert CleanValue(Array([Word("low"), Word("medium"), Word("high")]));
  }

  /** The exact condition under which no credential field occurs at any depth of the runtime model. */
  lemma {:induction false} ModelCleanExactly(pid: string, provider: Fields, ref: string, model: Fields, d: Defaults)
    requires ModelOk(model)
    ensures Clean(RuntimeModel(pid, provider, ref, model, d)) <==> CleanDefaults(model)
  {
    if CleanDefaults(model) {
      RuntimeModelIsClean(pid, provider, ref, model, d);
    } else {
      DefaultsStay(pid, provider, ref, model, d);
      NotClean(RuntimeModel(pid, provider, ref, model, d), "defaults");
    }
  }

  lemma {:induction false} NotClean(fields: Fields, k: string)
    requires k in fields && !CleanValue(fields[k])
    ensures !Clean(fields)
  {
  }

  /** Defaults that are no table go into the runtime model as they are. */
  lemma {:induction false} DefaultsStay(pid: string, provider: Fields, ref: string, model: Fields, d: Defaults)
    requires "defaults" in model && !model["defaults"].Object?
    ensures var r := RuntimeModel(pid, provider, ref, model, d); "defaults" in r && r["defaults"] == model["defaults"]
  {
    var f, e := Fixed(pid, provider, ref, model), Extra(provider, model, d);
    var x := model + TableOf(model, "defaults");
    ExtraFields(provider, model, d);
    assert TableOf(model, "defaults") == map[] && x == model;
    RightWins(x, f, "defaults");
    RightWins(x + f, e, "defaults");
    RightWins(REASONING, x + f + e, "defaults");
  }

  lemma {:induction false} RuntimeModelIsClean(pid: string, provider: Fields, ref: string, model: Fields, d: Defaults)
    requires ModelOk(model) && CleanDefaults(model)
    ensures Clean(RuntimeModel(pid, provider, ref, model, d))
  {
    var defaults := TableOf(model, "defaults");
    OverridesAreClean(defaults);
    assert Clean(model) by {
      assert "defaults" in model ==> CleanValue(model["defaults"]);
    }
    FixedIsClean(pid, provider, ref, model);
    ExtraIsClean(provider, model, d);
    CleanLayers(model, defaults, Fixed(pid, provider, ref, model), Extra(provider, model, d));
    CleanJoin(REASONING, model + defaults + Fixed(pid, provider, ref, model) + Extra(provider, model, d));
  }

  lemma {:induction false} CleanLayers(a: Fields, b: Fields, c: Fields, e: Fields)
    requires Clean(a) && Clean(b) && Clean(c) && Clean(e)
    ensures Clean(a + b + c + e)
  {
    CleanJoin(a, b);
    CleanJoin(a + b, c);
    CleanJoin(a + b + c, e);
  }

  lemma {:induction false} RightWins(a: Fields, b: Fields, k: string)
    ensures k in b ==> k in a + b && (a + b)[k] == b[k]
    ensures k in a && k !in b ==> k in a + b && (a + b)[k] == a[k]
  {
  }

  lemma {:induction false} FixedNames(pid: string, provider: Fields, ref: string, model: Fields)
    ensures var r := Fixed(pid, provider, ref, model);
      && "provider_id" in r && r["provider_id"] == Word(pid) && "model" in r && r["model"] == Word(TextOf(model, "upstream_id"))
      && "model_ref" in r && r["model_ref"] == Word(ref)
  {
  }

  lemma {:induction false} ExtraFields(provider: Fields, model: Fields, d: Defaults)
    ensures Extra(provider, model, d).Keys <= {"prompt_cache", "supports_image_input"}
  {
  }

  /** The runtime model says under `k` what its fixed fields say. */
  lemma {:induction false} FixedStays(pid: string, provider: Fields, ref: string, model: Fields, d: Defaults, k: string)
    requires k in Fixed(pid, provider, ref, model) && k !in {"prompt_cache", "supports_image_input"}
    ensures var r := RuntimeModel(pid, provider, ref, model, d); k in r && r[k] == Fixed(pid, provider, ref, model)[k]
  {
    var x := model + TableOf(model, "defaults");
    var f, e := Fixed(pid, provider, ref, model), Extra(provider, model, d);
    ExtraFields(provider, model, d);
    assert k !in e by {
      assert e.Keys <= {"prompt_cache", "supports_image_input"};
    }
    RightWins(x, f, k);
    RightWins(x + f, e, k);
    RightWins(REASONING, x + f + e, k);
  }

  /** Whatever the model and its defaults say, the runtime model names its pin, its Provider and its upstream id. */
  lemma {:induction false} RuntimeModelNames(pid: string, provider: Fields, ref: string, model: Fields, d: Defaults)
    ensures Says(RuntimeModel(pid, provider, ref, model, d), "provider_id", pid)
    ensures Says(RuntimeModel(pid, provider, ref, model, d), "model", TextOf(model, "upstream_id"))
    ensures Says(RuntimeModel(pid, provider, ref, model, d), "model_ref", ref)
  {
    FixedNames(pid, provider, ref, model);
    FixedStays(pid, provider, ref, model, d, "provider_id");
    FixedStays(pid, provider, ref, model, d, "model");
    FixedStays(pid, provider, ref, model, d, "model_ref");
  }

  predicate Says(fields: Fields, key: string, text: string) {
    key in fields && fields[key] == Word(text)
  }

  // ---------- what a runtime model says, field by field ----------

  predicate IsFixed(k: string) {
    || k == "provider_id" || k == "model" || k == "label" || k == "transport" || k == "contract" || k == "protocol"
    || k == "compat" || k == "model_ref"
  }

  predicate Holds(fields: Fields, k: string, v: Json) {
    k in fields && fields[k] == v
  }

  /** The text of the first field that has one. */
  predicate SaysFirst(fields: Fields, key: string, first: string, second: string) {
    && (first != "" ==> Says(fields, key, first)) && (first == "" ==> Says(fields, key, second))
  }

  /** The names and the fields that are renamed on the way. */
  predicate NamesFit(r: Fields, pid: string, provider: Fields, ref: string, model: Fields) {
    && Says(r, "provider_id", pid) && Says(r, "model_ref", ref) && Says(r, "model", TextOf(model, "upstream_id"))
    && SaysFirst(r, "label", TextOf(model, "label"), TextOf(model, "upstream_id"))
    && SaysFirst(r, "transport", TextOf(model, "wire_protocol"), TextOf(TableOf(provider, "protocols"), "default"))
    && SaysFirst(r, "contract", TextOf(model, "interaction_contract"), "tool_chat")
    && Says(r, "protocol", TextOf(model, "model_protocol"))
    && ("compatibility" in model ==> Holds(r, "compat", model["compatibility"]))
    && ("compatibility" !in model ==> Holds(r, "compat", Object(map[])))
  }

  /** The model's own setting, or its defaults', and otherwise the automatic one where the Provider has it. */
  predicate CacheFits(r: Fields, provider: Fields, model: Fields, d: Defaults) {
    var defaults := TableOf(model, "defaults");
    && ("prompt_cache" in defaults ==> Holds(r, "prompt_cache", defaults["prompt_cache"]))
    && ("prompt_cache" !in defaults && "prompt_cache" in model ==> Holds(r, "prompt_cache", model["prompt_cache"]))
    && ("prompt_cache" !in defaults && "prompt_cache" !in model ==>
          if d.automaticCache(provider, model) then Holds(r, "prompt_cache", Object(map["mode" := Word("automatic")]))
          else "prompt_cache" !in r)
  }

  /** The capability, then the model's own field, each as a flag, then the defaults. */
  predicate ImageFits(r: Fields, model: Fields) {
    var capabilities, defaults := TableOf(model, "capabilities"), TableOf(model, "defaults");
    && ("image_input" in capabilities ==> Holds(r, "supports_image_input", Flag(Truthy(capabilities["image_input"]))))
    && ("image_input" !in capabilities && "supports_image_input" in model ==>
          Holds(r, "supports_image_input", Flag(Truthy(model["supports_image_input"]))))
    && ("image_input" !in capabilities && "supports_image_input" !in model && "supports_image_input" in defaults ==>
          Holds(r, "supports_image_input", defaults["supports_image_input"]))
    && ("image_input" !in capabilities && "supports_image_input" !in model && "supports_image_input" !in defaults ==>
          "supports_image_input" !in r)
  }

  /** Any other field: the defaults, then the model, then the reasoning contract where the Provider has it. */
  predicate OtherFits(r: Fields, k: string, model: Fields, reasoning: bool) {
    var defaults := TableOf(model, "defaults");
    && (k in defaults ==> Holds(r, k, defaults[k])) && (k !in defaults && k in model ==> Holds(r, k, model[k]))
    && (k !in defaults && k !in model ==> if reasoning then ReasoningFits(r, k) else k !in r)
  }

  predicate ReasoningFits(r: Fields, k: string) {
    && (k == "reasoning_effort_values" ==> Holds(r, k, Array([Word("low"), Word("medium"), Word("high")])))
    && (k == "default_reasoning_effort" ==> Says(r, k, "medium")) && (k == "reasoning_effort_adapter" ==> Says(r, k, "reasoning_object"))
    && (k != "reasoning_effort_values" && k != "default_reasoning_effort" && k != "reasoning_effort_adapter" ==> k !in r)
  }

  ghost predicate ModelFits(r: Fields, pid: string, provider: Fields, ref: string, model: Fields, d: Defaults) {
    && NamesFit(r, pid, provider, ref, model) && CacheFits(r, provider, model, d) && ImageFits(r, model)
    && forall k :: !IsFixed(k) && k != "prompt_cache" && k != "supports_image_input" ==>
         OtherFits(r, k, model, d.reasoningDefaults(provider, model))
  }

  /** Under any key: what is added on the right wins, and the reasoning contract is what is left. */
  lemma {:induction false} Layers(base: Fields, x: Fields, f: Fields, e: Fields, k: string)
    ensures var r := base + (x + f + e);
      && (k in e ==> Holds(r, k, e[k])) && (k !in e && k in f ==> Holds(r, k, f[k]))
      && (k !in e && k !in f && k in x ==> Holds(r, k, x[k]))
      && (k !in e && k !in f && k !in x && k in base ==> Holds(r, k, base[k]))
      && (k in r ==> k in base || k in x || k in f || k in e)
  {
    RightWins(x, f, k);
    RightWins(x + f, e, k);
    RightWins(base, x + f + e, k);
  }

  /** The runtime model as layers. */
  lemma {:induction false} ModelLayers(pid: string, provider: Fields, ref: string, model: Fields, d: Defaults, k: string)
    ensures var (r, base, x, f, e) := (RuntimeModel(pid, provider, ref, model, d),
                                       if d.reasoningDefaults(provider, model) then REASONING else map[],
                                       model + TableOf(model, "defaults"), Fixed(pid, provider, ref, model), Extra(provider, model, d));
      && (k in e ==> Holds(r, k, e[k])) && (k !in e && k in f ==> Holds(r, k, f[k]))
      && (k !in e && k !in f && k in x ==> Holds(r, k, x[k]))
      && (k !in e && k !in f && k !in x && k in base ==> Holds(r, k, base[k]))
      && (k in r ==> k in base || k in x || k in f || k in e)
  {
    var base: Fields := if d.reasoningDefaults(provider, model) then REASONING else map[];
    var x, f, e := model + TableOf(model, "defaults"), Fixed(pid, provider, ref, model), Extra(provider, model, d);
    Layers(base, x, f, e, k);
    NothingLeft(x + f + e);
  }

  lemma {:induction false} NothingLeft(m: Fields)
    ensures map[] + m == m
  {
  }

  lemma {:induction false} FixedFields(pid: string, provider: Fields, ref: string, model: Fields)
    ensures var f := Fixed(pid, provider, ref, model); NamesFit(f, pid, provider, ref, model) && forall k :: k in f <==> IsFixed(k)
  {
  }

  lemma {:induction false} ExtraSays(provider: Fields, model: Fields, d: Defaults)
    ensures var e := Extra(provider, model, d);
      && ("prompt_cache" in e <==> "prompt_cache" !in TableOf(model, "defaults") && "prompt_cache" !in model && d.automaticCache(provider, model))
      && ("prompt_cache" in e ==> e["prompt_cache"] == Object(map["mode" := Word("automatic")]))
      && ("supports_image_input" in e <==> "image_input" in TableOf(model, "capabilities") || "supports_image_input" in model)
      && ("supports_image_input" in e ==> ImageFits(e, model))
  {
  }

  lemma {:induction false} NamesStay(r: Fields, f: Fields, pid: string, provider: Fields, ref: string, model: Fields)
    requires NamesFit(f, pid, provider, ref, model) && forall k :: IsFixed(k) && k in f ==> Holds(r, k, f[k])
    ensures NamesFit(r, pid, provider, ref, model)
  {
  }

  lemma {:induction false} NamesOfModel(pid: string, provider: Fields, ref: string, model: Fields, d: Defaults)
    ensures NamesFit(RuntimeModel(pid, provider, ref, model, d), pid, provider, ref, model)
  {
    var r, f := RuntimeModel(pid, provider, ref, model, d), Fixed(pid, provider, ref, model);
    FixedFields(pid, provider, ref, model);
    forall k | IsFixed(k) && k in f ensures Holds(r, k, f[k]) {
      FixedStays(pid, provider, ref, model, d, k);
    }
    NamesStay(r, f, pid, provider, ref, model);
  }

  lemma {:induction false} CacheOfModel(pid: string, provider: Fields, ref: string, model: Fields, d: Defaults)
    ensures CacheFits(RuntimeModel(pid, provider, ref, model, d), provider, model, d)
  {
    FixedFields(pid, provider, ref, model);
    ExtraSays(provider, model, d);
    OtherLayers(pid, provider, ref, model, d, "prompt_cache");
    RightWins(model, TableOf(model, "defaults"), "prompt_cache");
  }

  lemma {:induction false} OtherLayers(pid: string, provider: Fields, ref: string, model: Fields, d: Defaults, k: string)
    requires k !in Fixed(pid, provider, ref, model) && k !in REASONING
    ensures var (r, x, e) := (RuntimeModel(pid, provider, ref, model, d), model + TableOf(model, "defaults"), Extra(provider, model, d));
      && (k in e ==> Holds(r, k, e[k])) && (k !in e && k in x ==> Holds(r, k, x[k])) && (k !in e && k !in x ==> k !in r)
  {
    ModelLayers(pid, provider, ref, model, d, k);
  }

  lemma {:induction false} ImageOfModel(pid: string, provider: Fields, ref: string, model: Fields, d: Defaults)
    ensures ImageFits(RuntimeModel(pid, provider, ref, model, d), model)
  {
    FixedFields(pid, provider, ref, model);
    ExtraSays(provider, model, d);
    OtherLayers(pid, provider, ref, model, d, "supports_image_input");
    RightWins(model, TableOf(model, "defaults"), "supports_image_input");
  }

  lemma {:induction false} OtherOfModel(pid: string, provider: Fields, ref: string, model: Fields, d: Defaults, k: string)
    requires !IsFixed(k) && k != "prompt_cache" && k != "supports_image_input"
    ensures OtherFits(RuntimeModel(pid, provider, ref, model, d), k, model, d.reasoningDefaults(provider, model))
  {
    FixedFields(pid, provider, ref, model);
    ExtraFields(provider, model, d);
    ModelLayers(pid, provider, ref, model, d, k);
    assert k !in Extra(provider, model, d) && k !in Fixed(pid, provider, ref, model);
    OtherFrom(RuntimeModel(pid, provider, ref, model, d), k, model, TableOf(model, "defaults"), d.reasoningDefaults(provider, model));
  }

  lemma {:induction false} OtherFrom(r: Fields, k: string, model: Fields, defaults: Fields, reasoning: bool)
    requires defaults == TableOf(model, "defaults")
    requires var (x, base: Fields) := (model + defaults, if reasoning then REASONING else map[]);
      && (k in x ==> Holds(r, k, x[k])) && (k !in x && k in base ==> Holds(r, k, base[k])) && (k in r ==> k in base || k in x)
    ensures OtherFits(r, k, model, reasoning)
  {
    RightWins(model, defaults, k);
    if k !in defaults && k !in model && reasoning {
      ReasoningLeft(r, k);
    }
  }

  lemma {:induction false} ReasoningLeft(r: Fields, k: string)
    requires (k in REASONING ==> Holds(r, k, REASONING[k])) && (k in r ==> k in REASONING)
    ensures ReasoningFits(r, k)
  {
  }

  /** Every field of a runtime model, and nothing else is in it. */
  lemma {:induction false} RuntimeModelFits(pid: string, provider: Fields, ref: string, model: Fields, d: Defaults)
    ensures ModelFits(RuntimeModel(pid, provider, ref, model, d), pid, provider, ref, model, d)
  {
    NamesOfModel(pid, provider, ref, model, d);
    CacheOfModel(pid, provider, ref, model, d);
    ImageOfModel(pid, provider, ref, model, d);
    forall k | !IsFixed(k) && k != "prompt_cache" && k != "supports_image_input"
      ensures OtherFits(RuntimeModel(pid, provider, ref, model, d), k, model, d.reasoningDefaults(provider, model))
    {
      OtherOfModel(pid, provider, ref, model, d, k);
    }
  }

  // ---------- one profile ----------

  /** A profile has its own three names, then its overrides, then what its model says, and nothing else. */
  ghost predicate ProfileFits(r: Fields, id: string, pid: string, ref: string, model: Fields, overrides: Fields) {
    && Says(r, "profile_id", id) && Says(r, "provider_id", pid) && Says(r, "model_ref", ref)
    && forall k :: k != "profile_id" && k != "provider_id" && k != "model_ref" ==>
         && (k in overrides ==> Holds(r, k, overrides[k])) && (k !in overrides && k in model ==> Holds(r, k, model[k]))
         && (k !in overrides && k !in model ==> k !in r)
  }

  lemma {:induction false} RuntimeProfileFits(id: string, pid: string, ref: string, model: Fields, overrides: Fields)
    ensures ProfileFits(RuntimeProfile(id, pid, ref, model, overrides), id, pid, ref, model, overrides)
  {
  }

  const UNCONFIGURED := "__unconfigured__"

  function Unconfigured(id: string): Fields {
    map["profile_id" := Word(id), "model_ref" := Word(UNCONFIGURED), "provider_id" := Word(""), "model" := Word(""),
        "overrides" := Object(map[])]
  }

  function RuntimeProfile(id: string, pid: string, ref: string, model: Fields, overrides: Fields): Fields {
    model + overrides + map["profile_id" := Word(id), "provider_id" := Word(pid), "model_ref" := Word(ref)]
  }

  lemma {:induction false} RuntimeProfileNames(id: string, pid: string, ref: string, model: Fields, overrides: Fields)
    requires OverridesOk(overrides) && "model" in model
    ensures var r := RuntimeProfile(id, pid, ref, model, overrides);
      "model" in r && r["model"] == model["model"] && Says(r, "provider_id", pid) && Says(r, "model_ref", ref)
    ensures Clean(model) ==> Clean(RuntimeProfile(id, pid, ref, model, overrides))
    ensures "defaults" in model ==>
      var r := RuntimeProfile(id, pid, ref, model, overrides); "defaults" in r && r["defaults"] == model["defaults"]
  {
    OverridesAreClean(overrides);
    var names: Fields := map["profile_id" := Word(id), "provider_id" := Word(pid), "model_ref" := Word(ref)];
    assert "model" !in overrides && "defaults" !in overrides;
    RightWins(model, overrides, "defaults");
    RightWins(model + overrides, names, "defaults");
    RightWins(model, overrides, "model");
    RightWins(model + overrides, names, "model");
    RightWins(model + overrides, names, "provider_id");
    RightWins(model + overrides, names, "model_ref");
    if Clean(model) {
      CleanJoin(model, overrides);
      CleanJoin(model + overrides, names);
    }
  }
}
