/** The loops of `project_v2_llm_for_runtime`, and what the projected library and profiles are confined to. */
module RuntimeProjection {
  import opened Text
  import opened Wrappers
  import opened Collections
  import opened Identity
  import opened Aliases
  import opened Projection

  type Library = map<string, Fields>

  // ---------- one entry ----------

  predicate ProviderOk(pid: string, raw: Json) {
    && ValidateProviderId(pid).Some? && raw.Object? && OwnershipOk(raw.fields, {"credential_ref"}, {"models"})
    && ("models" in raw.fields ==> raw.fields["models"].Object?)
  }

  /** The reference and the runtime model of one pin; None when a check raises. */
  function ProjectModel(pid: string, provider: Fields, key: string, raw: Json, d: Defaults): Option<(string, Fields)> {
    var ref := MakeModelRef(pid, key);
    if ref.None? || !raw.Object? || !ModelOk(raw.fields) then None
    else Some((ref.value, RuntimeModel(pid, provider, ref.value, raw.fields, d)))
  }

  /** `resolved` is what the reference's aliases lead to. */
  function ProjectProfile(id: string, raw: Json, resolved: Option<string>, library: Library): Option<Fields> {
    if !raw.Object? || !OwnershipOk(raw.fields, {}, {"overrides"}) then None
    else if Strip(TextOf(raw.fields, "model_ref")) in {"", UNCONFIGURED} then Some(Unconfigured(id))
    else if resolved.None? || SplitModelRef(resolved.value).None? then None
    else
      var (pid, key) := SplitModelRef(resolved.value).value;
      var ref := RefOf(pid, key);
      if ref !in library || !OverridesOk(TableOf(raw.fields, "overrides")) then None
      else Some(RuntimeProfile(id, pid, ref, library[ref], TableOf(raw.fields, "overrides")))
  }

  function RefOf(pid: string, key: string): string {
    var ref := MakeModelRef(pid, key);
    if ref.Some? then ref.value else ""
  }

  // ---------- the library ----------

  /** A projection of pins, and the pins that go into it; hidden behind a function so that the loops do not look inside. */
  type Project = (string, string) -> Option<(string, Fields)>

  type Pins = map<string, set<string>>

  /** Every entry of the library is the projection of a pin in `done`, and every such pin is in it. */
  ghost predicate LibraryOk(project: Project, done: set<(string, string)>, library: Library) {
    && (forall pin :: pin in done ==> project(pin.0, pin.1).Some? && project(pin.0, pin.1).value.0 in library)
    && (forall ref :: ref in library ==> exists pin :: pin in done && project(pin.0, pin.1) == Some((ref, library[ref])))
  }

  lemma {:induction false} LibraryMore(project: Project, done: set<(string, string)>, library: Library, pin: (string, string),
                                       entry: (string, Fields))
    requires LibraryOk(project, done, library) && project(pin.0, pin.1) == Some(entry)
    ensures LibraryOk(project, done + {pin}, library[entry.0 := entry.1])
  {
    var more := library[entry.0 := entry.1];
    forall ref | ref in more ensures exists p :: p in done + {pin} && project(p.0, p.1) == Some((ref, more[ref])) {
      if ref == entry.0 {
        assert pin in done + {pin} && project(pin.0, pin.1) == Some((ref, more[ref]));
      } else {
        var p :| p in done && project(p.0, p.1) == Some((ref, library[ref]));
        assert p in done + {pin};
      }
    }
  }

  /** The pins of one Provider among the given keys. */
  function PinsOf(pid: string, keys: set<string>): set<(string, string)> {
    set k | k in keys :: (pid, k)
  }

  /** The inner loop: the pinned models of one Provider. */
  method ProjectModels(project: Project, pid: string, keys: set<string>, ghost done: set<(string, string)>, library: Library)
    returns (r: Option<Library>)
    requires LibraryOk(project, done, library)
    ensures r.Some? <==> forall k :: k in keys ==> project(pid, k).Some?
    ensures r.Some? ==> LibraryOk(project, done + PinsOf(pid, keys), r.value)
  {
    var models := library;
    var rest := keys;
    while rest != {}
      invariant rest <= keys && LibraryOk(project, done + PinsOf(pid, keys - rest), models)
      invariant forall k :: k in keys - rest ==> project(pid, k).Some?
      decreases rest
    {
      var k :| k in rest;
      var entry := project(pid, k);
      if entry.None? {
        return None;
      }
      LibraryMore(project, done + PinsOf(pid, keys - rest), models, (pid, k), entry.value);
      PinsMore(pid, keys, rest, k, done);
      models := models[entry.value.0 := entry.value.1];
      rest := rest - {k};
    }
    NoneLess(keys);
    r := Some(models);
  }

  lemma {:induction false} PinsMore(pid: string, keys: set<string>, rest: set<string>, k: string, done: set<(string, string)>)
    requires k in rest && rest <= keys
    ensures done + PinsOf(pid, keys - (rest - {k})) == done + PinsOf(pid, keys - rest) + {(pid, k)}
  {
  }

  function AllPins(pins: Pins, pids: set<string>): set<(string, string)> {
    set pid, k | pid in pids && pid in pins && k in pins[pid] :: (pid, k)
  }

  /** The outer loop; `usable` says which Providers pass their own checks. */
  method ProjectProviders(project: Project, usable: string -> bool, pins: Pins) returns (r: Option<Library>)
    ensures r.Some? <==> forall pid :: pid in pins ==> usable(pid) && forall k :: k in pins[pid] ==> project(pid, k).Some?
    ensures r.Some? ==> LibraryOk(project, AllPins(pins, pins.Keys), r.value)
  {
    var library: Library := map[];
    var rest := pins.Keys;
    assert AllPins(pins, {}) == {};
    while rest != {}
      invariant rest <= pins.Keys && LibraryOk(project, AllPins(pins, pins.Keys - rest), library)
      invariant forall pid :: pid in pins.Keys - rest ==> usable(pid) && forall k :: k in pins[pid] ==> project(pid, k).Some?
      decreases rest
    {
      var pid :| pid in rest;
      if !usable(pid) {
        return None;
      }
      var more := ProjectModels(project, pid, pins[pid], AllPins(pins, pins.Keys - rest), library);
      if more.None? {
        return None;
      }
      AllPinsMore(pins, rest, pid);
      library := more.value;
      rest := rest - {pid};
    }
    NoneLess(pins.Keys);
    r := Some(library);
  }

  lemma {:induction false} AllPinsMore(pins: Pins, rest: set<string>, pid: string)
    requires pid in rest && rest <= pins.Keys
    ensures AllPins(pins, pins.Keys - (rest - {pid})) == AllPins(pins, pins.Keys - rest) + PinsOf(pid, pins[pid])
  {
  }

  // ---------- the profiles ----------

  /** `llm`, taken apart: its other root fields, its Providers, its profiles and its aliases. */
  datatype LLM = LLM(rest: Fields, providers: Fields, profiles: Fields, aliases: AliasMap)

  datatype Projected = Projected(library: Library, profiles: map<string, Fields>)

  function RequestedRef(raw: Json): string {
    if raw.Object? then Strip(TextOf(raw.fields, "model_ref")) else ""
  }

  /** What the aliases make of a profile's reference. */
  ghost function Resolved(aliases: AliasMap, raw: Json): Option<string> {
    var ref := RequestedRef(raw);
    if Leaves(aliases, ref) then Some(End(aliases, ref)) else None
  }

  ghost function Profiled(llm: LLM, library: Library, id: string): Option<Fields>
    requires id in llm.profiles
  {
    ProjectProfile(id, llm.profiles[id], Resolved(llm.aliases, llm.profiles[id]), library)
  }

  /** The loop over the profiles. */
  method ProjectProfiles(llm: LLM, library: Library) returns (r: Option<map<string, Fields>>)
    ensures r.Some? <==> forall id :: id in llm.profiles ==> Profiled(llm, library, id).Some?
    ensures r.Some? ==> r.value.Keys == llm.profiles.Keys &&
                        forall id :: id in llm.profiles ==> Profiled(llm, library, id) == Some(r.value[id])
  {
    var profiles: map<string, Fields> := map[];
    var rest := llm.profiles.Keys;
    while rest != {}
      invariant rest <= llm.profiles.Keys && profiles.Keys == llm.profiles.Keys - rest
      invariant forall id :: id in profiles ==> Profiled(llm, library, id) == Some(profiles[id])
      decreases rest
    {
      var id :| id in rest;
      var raw := llm.profiles[id];
      var resolved := ResolveModelRef(llm.aliases, RequestedRef(raw));
      var profile := ProjectProfile(id, raw, resolved, library);
      if profile.None? {
        return None;
      }
      profiles := profiles[id := profile.value];
      rest := rest - {id};
    }
    r := Some(profiles);
  }

  // ---------- the projection ----------

  function ModelsOf(raw: Json): Fields {
    if raw.Object? then TableOf(raw.fields, "models") else map[]
  }

  function PinsIn(providers: Fields): Pins {
    map pid | pid in providers :: ModelsOf(providers[pid]).Keys
  }

  function ProjectWith(providers: Fields, d: Defaults): Project {
    (pid: string, key: string) =>
      if pid in providers && providers[pid].Object? && key in ModelsOf(providers[pid]) then
        ProjectModel(pid, providers[pid].fields, key, ModelsOf(providers[pid])[key], d)
      else None
  }

  function UsableIn(providers: Fields): string -> bool {
    (pid: string) => pid in providers && ProviderOk(pid, providers[pid])
  }

  /** The checks on the root of `llm`. */
  predicate RootOk(llm: LLM) {
    "model_library" !in llm.rest && OwnershipOk(llm.rest, {}, {}) && llm.providers != map[] && llm.profiles != map[]
  }

  /** Every Provider and every pin passes its checks. */
  ghost predicate AllProject(project: Project, usable: string -> bool, pins: Pins) {
    forall pid :: pid in pins ==> usable(pid) && forall k :: k in pins[pid] ==> project(pid, k).Some?
  }

  ghost predicate ProvidersOk(llm: LLM, d: Defaults) {
    AllProject(ProjectWith(llm.providers, d), UsableIn(llm.providers), PinsIn(llm.providers))
  }

  /** The library of all pins. */
  ghost predicate IsLibrary(llm: LLM, d: Defaults, library: Library) {
    LibraryOk(ProjectWith(llm.providers, d), AllPins(PinsIn(llm.providers), PinsIn(llm.providers).Keys), library)
  }

  /** The profiles over a library, each as it should be. */
  ghost predicate ProfilesOk(llm: LLM, library: Library) {
    forall id :: id in llm.profiles ==> Profiled(llm, library, id).Some?
  }

  ghost predicate AreProfiles(llm: LLM, library: Library, profiles: map<string, Fields>) {
    profiles.Keys == llm.profiles.Keys && forall id :: id in llm.profiles ==> Profiled(llm, library, id) == Some(profiles[id])
  }

  /** The root passes without a legacy library or a credential field anywhere, and with a Provider and a profile. */
  lemma {:induction false} RootExactly(llm: LLM)
    ensures RootOk(llm) <==>
      "model_library" !in llm.rest && Clean(llm.rest) && |llm.providers| > 0 && |llm.profiles| > 0
  {
  }

  /** A Provider passes with a valid id and no credential field but its reference; its models are looked at one by one. */
  lemma {:induction false} ProviderExactly(pid: string, raw: Json)
    ensures ProviderOk(pid, raw) <==>
      && ValidateProviderId(pid).Some? && raw.Object? && ("models" in raw.fields ==> raw.fields["models"].Object?)
      && "api_key" !in raw.fields && "api_key_env" !in raw.fields && Clean(raw.fields - {"models", "credential_ref"})
      && ("credential_ref" in raw.fields ==> CleanValue(raw.fields["credential_ref"]))
  {
    if raw.Object? {
      OwnershipExactly(raw.fields, {"credential_ref"}, {"models"});
      assert raw.fields - {"models"} - CREDENTIALS == raw.fields - {"models", "credential_ref"} - {"api_key", "api_key_env"};
      SameTables(raw.fields - {"models", "credential_ref"}, {"api_key", "api_key_env"});
    }
  }

  lemma {:induction false} SameTables(fields: Fields, absent: set<string>)
    ensures (forall k :: k in absent ==> k !in fields) ==> fields - absent == fields
  {
  }

  /** A pin passes with an upstream id and no credential field outside its defaults, whose fields are those that can be overridden. */
  lemma {:induction false} PinExactly(model: Fields)
    ensures ModelOk(model) <==>
      && Strip(TextOf(model, "upstream_id")) != "" && Clean(model - {"defaults"})
      && Clean(TableOf(model, "defaults")) && TableOf(model, "defaults").Keys <= OVERRIDES
  {
    var rest := model - {"defaults"};
    assert forall k :: k in rest ==> rest[k] == model[k];
  }

  /** Both loops. */
  method ProjectAll(project: Project, usable: string -> bool, pins: Pins, llm: LLM) returns (r: Option<Projected>, ghost library: Library)
    ensures AllProject(project, usable, pins) ==> LibraryOk(project, AllPins(pins, pins.Keys), library)
    ensures r.Some? <==> AllProject(project, usable, pins) && ProfilesOk(llm, library)
    ensures r.Some? ==> r.value.library == library
    ensures r.Some? ==> AreProfiles(llm, r.value.library, r.value.profiles)
  {
    library := map[];
    var models := ProjectProviders(project, usable, pins);
    if models.None? {
      return None, library;
    }
    library := models.value;
    var profiles := ProjectProfiles(llm, models.value);
    r := if profiles.None? then None else Some(Projected(models.value, profiles.value));
  }

  /** `project_v2_llm_for_runtime`: it raises exactly when a check fails, and else projects every pin and every profile. */
  method ProjectV2(llm: LLM, d: Defaults) returns (r: Option<Projected>)
    ensures r.Some? ==> RootOk(llm) && ProvidersOk(llm, d) && ProfilesProject(llm, d)
    ensures NamesStripped(llm) ==> (r.Some? <==> RootOk(llm) && ProvidersOk(llm, d) && ProfilesProject(llm, d))
    ensures r.Some? ==> IsLibrary(llm, d, r.value.library) && AreProfiles(llm, r.value.library, r.value.profiles)
    ensures r.Some? && NamesStripped(llm) ==> LibraryFits(llm, d, r.value.library)
    ensures r.Some? ==> r.value.profiles.Keys == llm.profiles.Keys &&
                        forall id :: id in llm.profiles ==> ProfileIs(llm, r.value.library, id, r.value.profiles[id])
  {
    if !RootOk(llm) {
      return None;
    }
    ghost var library;
    r, library := ProjectAll(ProjectWith(llm.providers, d), UsableIn(llm.providers), PinsIn(llm.providers), llm);
    if ProvidersOk(llm, d) && NamesStripped(llm) {
      OnlyLibrary(llm, d, library);
    }
    if r.Some? {
      if NamesStripped(llm) {
        EntriesFit(llm, d, r.value.library);
      }
      forall id | id in llm.profiles ensures ProfileIs(llm, r.value.library, id, r.value.profiles[id]) {
        ProfileIsProjected(llm, r.value.library, id, r.value.profiles[id]);
      }
    }
  }

  /** The library has one entry for each pin, under its reference, each field of it as the pin and its Provider say. */
  ghost predicate LibraryFits(llm: LLM, d: Defaults, library: Library) {
    && (forall ref :: ref in library ==> exists pid, key :: IsPin(llm, pid, key) && MakeModelRef(pid, key) == Some(ref))
    && forall pid, key :: IsPin(llm, pid, key) ==> EntryFits(llm, d, library, pid, key)
  }

  ghost predicate EntryFits(llm: LLM, d: Defaults, library: Library, pid: string, key: string)
    requires IsPin(llm, pid, key)
  {
    var ref := MakeModelRef(pid, key);
    ref.Some? && ref.value in library &&
    ModelFits(library[ref.value], pid, llm.providers[pid].fields, ref.value, PinOf(llm, pid, key), d)
  }

  lemma {:induction false} EntriesFit(llm: LLM, d: Defaults, library: Library)
    requires IsLibrary(llm, d, library) && NamesStripped(llm)
    ensures LibraryFits(llm, d, library)
  {
    forall ref | ref in library ensures exists pid, key :: IsPin(llm, pid, key) && MakeModelRef(pid, key) == Some(ref) {
      var pid, key := EntryFrom(llm, d, library, ref);
    }
    forall pid, key | IsPin(llm, pid, key) ensures EntryFits(llm, d, library, pid, key) {
      PinIsProjected(llm, d, library, pid, key);
      var ref := MakeModelRef(pid, key).value;
      var p, k := EntryFrom(llm, d, library, ref);
      RefSplits(pid, key, ref);
      RefSplits(p, k, ref);
      RuntimeModelFits(pid, llm.providers[pid].fields, ref, PinOf(llm, pid, key), d);
    }
  }

  /** A profile without a reference is unconfigured; any other has its overrides and the fields of the pin it refers to. */
  ghost predicate ProfileIs(llm: LLM, library: Library, id: string, profile: Fields)
    requires id in llm.profiles
  {
    if !IsConfigured(llm, id) then IsUnconfigured(id, profile)
    else
      exists ref, pid, key ::
        ref in library && Resolved(llm.aliases, llm.profiles[id]).Some? &&
        SplitModelRef(Resolved(llm.aliases, llm.profiles[id]).value) == Some((pid, key)) && MakeModelRef(pid, key) == Some(ref) &&
        ProfileFits(profile, id, pid, ref, library[ref], TableOf(llm.profiles[id].fields, "overrides"))
  }

  predicate IsUnconfigured(id: string, profile: Fields) {
    && profile.Keys == {"profile_id", "model_ref", "provider_id", "model", "overrides"}
    && Says(profile, "profile_id", id) && Says(profile, "model_ref", "__unconfigured__") && Says(profile, "provider_id", "")
    && Says(profile, "model", "") && Holds(profile, "overrides", Object(map[]))
  }

  lemma {:induction false} ProfileIsProjected(llm: LLM, library: Library, id: string, profile: Fields)
    requires id in llm.profiles && Profiled(llm, library, id) == Some(profile)
    ensures ProfileIs(llm, library, id, profile)
  {
    if IsConfigured(llm, id) {
      var raw := llm.profiles[id];
      var resolved := Resolved(llm.aliases, raw).value;
      var (pid, key) := SplitModelRef(resolved).value;
      SplitIsValid(resolved);
      RuntimeProfileFits(id, pid, RefOf(pid, key), library[RefOf(pid, key)], TableOf(raw.fields, "overrides"));
    }
  }

  /** Every profile can be projected over the library of all pins. */
  ghost predicate ProfilesProject(llm: LLM, d: Defaults) {
    exists library :: IsLibrary(llm, d, library) && ProfilesOk(llm, library)
  }

  lemma {:induction false} OnlyLibrary(llm: LLM, d: Defaults, library: Library)
    requires NamesStripped(llm) && IsLibrary(llm, d, library)
    ensures ProfilesProject(llm, d) <==> ProfilesOk(llm, library)
  {
    if ProfilesProject(llm, d) {
      var other :| IsLibrary(llm, d, other) && ProfilesOk(llm, other);
      SameLibrary(llm, d, library, other);
    }
  }

  /** There is one library of all pins. */
  lemma {:induction false} SameLibrary(llm: LLM, d: Defaults, a: Library, b: Library)
    requires NamesStripped(llm) && IsLibrary(llm, d, a) && IsLibrary(llm, d, b)
    ensures a == b
  {
    Includes(llm, d, a, b);
    Includes(llm, d, b, a);
    SameMaps(a, b);
  }

  lemma {:induction false} Includes(llm: LLM, d: Defaults, a: Library, b: Library)
    requires NamesStripped(llm) && IsLibrary(llm, d, a) && IsLibrary(llm, d, b)
    ensures forall ref :: ref in a ==> ref in b && b[ref] == a[ref]
  {
    forall ref | ref in a ensures ref in b && b[ref] == a[ref] {
      SameEntry(llm, d, a, b, ref);
    }
  }

  lemma {:induction false} SameEntry(llm: LLM, d: Defaults, a: Library, b: Library, ref: string)
    requires NamesStripped(llm) && IsLibrary(llm, d, a) && IsLibrary(llm, d, b) && ref in a
    ensures ref in b && b[ref] == a[ref]
  {
    var pid, key := EntryFrom(llm, d, a, ref);
    PinIsProjected(llm, d, b, pid, key);
    var p, k := EntryFrom(llm, d, b, ref);
    RefSplits(pid, key, ref);
    RefSplits(p, k, ref);
  }

  // ---------- closed and confined ----------

  /** A projected profile is unconfigured, or names a pin of the library, its owner and its upstream id. */
  ghost predicate Closed(llm: LLM, library: Library, id: string, profile: Fields) {
    || profile == Unconfigured(id)
    || exists ref, pid, key :: Calls(llm, library, profile, ref, pid, key)
  }

  /** The profile calls the model pinned under `key` of that Provider, and the library has it under `ref`. */
  predicate Calls(llm: LLM, library: Library, profile: Fields, ref: string, pid: string, key: string) {
    && ref in library && IsPin(llm, pid, key) && MakeModelRef(pid, key) == Some(ref)
    && Says(profile, "model_ref", ref) && Says(profile, "provider_id", pid) && Says(library[ref], "provider_id", pid)
    && Says(profile, "model", TextOf(PinOf(llm, pid, key), "upstream_id"))
  }

  /** A model is pinned under that key of that Provider. */
  predicate IsPin(llm: LLM, pid: string, key: string) {
    && pid in llm.providers && llm.providers[pid].Object? && key in ModelsOf(llm.providers[pid])
    && ModelsOf(llm.providers[pid])[key].Object?
  }

  function PinOf(llm: LLM, pid: string, key: string): Fields
    requires IsPin(llm, pid, key)
  {
    ModelsOf(llm.providers[pid])[key].fields
  }

  lemma {:induction false} ProjectModelIs(pid: string, provider: Fields, key: string, raw: Json, d: Defaults, ref: string, fields: Fields)
    requires ProjectModel(pid, provider, key, raw, d) == Some((ref, fields))
    ensures raw.Object? && ModelOk(raw.fields) && MakeModelRef(pid, key) == Some(ref)
    ensures fields == RuntimeModel(pid, provider, ref, raw.fields, d)
  {
  }

  /** The pin an entry of the library comes from. */
  lemma {:induction false} EntryFrom(llm: LLM, d: Defaults, library: Library, ref: string) returns (pid: string, key: string)
    requires IsLibrary(llm, d, library) && ref in library
    ensures IsPin(llm, pid, key) && ModelOk(PinOf(llm, pid, key)) && MakeModelRef(pid, key) == Some(ref)
    ensures library[ref] == RuntimeModel(pid, llm.providers[pid].fields, ref, PinOf(llm, pid, key), d)
  {
    var pin :| pin in AllPins(PinsIn(llm.providers), PinsIn(llm.providers).Keys) &&
               ProjectWith(llm.providers, d)(pin.0, pin.1) == Some((ref, library[ref]));
    pid, key := pin.0, pin.1;
    ProjectModelIs(pid, llm.providers[pid].fields, key, ModelsOf(llm.providers[pid])[key], d, ref, library[ref]);
  }

  /** What an entry of the library says of itself. */
  lemma {:induction false} EntryNames(llm: LLM, d: Defaults, library: Library, ref: string) returns (pid: string, key: string)
    requires IsLibrary(llm, d, library) && ref in library
    ensures IsPin(llm, pid, key) && MakeModelRef(pid, key) == Some(ref)
    ensures Says(library[ref], "model", TextOf(PinOf(llm, pid, key), "upstream_id")) && Says(library[ref], "model_ref", ref)
    ensures Says(library[ref], "provider_id", pid)
    ensures Clean(library[ref]) <==> CleanDefaults(PinOf(llm, pid, key))
    ensures CleanDefaults(PinOf(llm, pid, key)) || ("defaults" in library[ref] && !CleanValue(library[ref]["defaults"]))
  {
    pid, key := EntryFrom(llm, d, library, ref);
    var provider, model := llm.providers[pid].fields, PinOf(llm, pid, key);
    RuntimeModelNames(pid, provider, ref, model, d);
    ModelCleanExactly(pid, provider, ref, model, d);
    if !CleanDefaults(model) {
      DefaultsStay(pid, provider, ref, model, d);
    }
  }

  lemma {:induction false} RefSplits(pid: string, key: string, ref: string)
    requires MakeModelRef(pid, key) == Some(ref) && Strip(pid) == pid
    ensures SplitModelRef(ref).Some? && SplitModelRef(ref).value == (pid, Strip(key))
  {
    StripTwice(key);
    RefRoundTrip(pid, Strip(key));
  }

  predicate NamesStripped(llm: LLM) {
    forall pid :: pid in llm.providers ==> Strip(pid) == pid && forall k :: k in ModelsOf(llm.providers[pid]) ==> Strip(k) == k
  }

  predicate IsConfigured(llm: LLM, id: string)
    requires id in llm.profiles
  {
    && llm.profiles[id].Object? && Strip(TextOf(llm.profiles[id].fields, "model_ref")) != ""
    && Strip(TextOf(llm.profiles[id].fields, "model_ref")) != "__unconfigured__"
  }

  /**
    A projected profile is unconfigured and holds no credential field, or it calls a pin, and then holds one if and only
    if that pin's defaults do.
   */
  lemma {:induction false} ProfileCleanExactly(llm: LLM, d: Defaults, library: Library, id: string, profile: Fields)
    returns (ref: string, pid: string, key: string)
    requires IsLibrary(llm, d, library) && forall p :: p in llm.providers ==> Strip(p) == p
    requires id in llm.profiles && Profiled(llm, library, id) == Some(profile)
    ensures !IsConfigured(llm, id) ==> profile == Unconfigured(id) && Clean(profile)
    ensures IsConfigured(llm, id) ==>
      Calls(llm, library, profile, ref, pid, key) && (Clean(profile) <==> CleanDefaults(PinOf(llm, pid, key)))
  {
    ref, pid, key := "", "", "";
    if IsConfigured(llm, id) {
      ref, pid, key := ConfiguredCleanExactly(llm, d, library, id, profile);
    } else {
      UnconfiguredIsClean(id);
    }
  }

  lemma {:induction false} ConfiguredCleanExactly(llm: LLM, d: Defaults, library: Library, id: string, profile: Fields)
    returns (ref: string, pid: string, key: string)
    requires IsLibrary(llm, d, library) && forall p :: p in llm.providers ==> Strip(p) == p
    requires id in llm.profiles && Profiled(llm, library, id) == Some(profile) && IsConfigured(llm, id)
    ensures Calls(llm, library, profile, ref, pid, key) && (Clean(profile) <==> CleanDefaults(PinOf(llm, pid, key)))
  {
    var raw := llm.profiles[id];
    var resolved := Resolved(llm.aliases, raw).value;
    var (p, k) := SplitModelRef(resolved).value;
    SplitIsValid(resolved);
    ref := RefOf(p, k);
    pid, key := EntryNames(llm, d, library, ref);
    RefSplits(pid, key, ref);
    RuntimeProfileNames(id, p, ref, library[ref], TableOf(raw.fields, "overrides"));
    if !CleanDefaults(PinOf(llm, pid, key)) {
      NotClean(profile, "defaults");
    }
  }

  /** Every projected profile is closed, whatever its overrides. */
  lemma {:induction false} ProfilesAreClosed(llm: LLM, d: Defaults, library: Library, id: string, profile: Fields)
    requires IsLibrary(llm, d, library)
    requires forall pid :: pid in llm.providers ==> Strip(pid) == pid
    requires id in llm.profiles && Profiled(llm, library, id) == Some(profile)
    ensures Closed(llm, library, id, profile)
  {
    var ref, pid, key := ProfileCleanExactly(llm, d, library, id, profile);
  }

  /** Every pin's defaults are a table or hold no credential field. */
  predicate AllDefaultsClean(llm: LLM) {
    forall pid :: pid in llm.providers ==>
      forall k :: k in ModelsOf(llm.providers[pid]) && IsPin(llm, pid, k) ==> CleanDefaults(PinOf(llm, pid, k))
  }

  /** No credential field occurs at any depth of the library if and only if that holds. */
  lemma {:induction false} LibraryCleanExactly(llm: LLM, d: Defaults, library: Library)
    requires IsLibrary(llm, d, library) && NamesStripped(llm)
    ensures (forall ref :: ref in library ==> Clean(library[ref])) <==> AllDefaultsClean(llm)
  {
    if AllDefaultsClean(llm) {
      forall ref | ref in library ensures Clean(library[ref]) {
        var pid, key := EntryNames(llm, d, library, ref);
      }
    } else {
      var pid, key :| pid in llm.providers && key in ModelsOf(llm.providers[pid]) && IsPin(llm, pid, key) &&
                      !CleanDefaults(PinOf(llm, pid, key));
      PinEntry(llm, d, library, pid, key);
    }
  }

  /** A pin with such defaults spoils its entry. */
  lemma {:induction false} PinEntry(llm: LLM, d: Defaults, library: Library, pid: string, key: string)
    requires IsLibrary(llm, d, library) && NamesStripped(llm) && IsPin(llm, pid, key)
    ensures MakeModelRef(pid, key).Some? && MakeModelRef(pid, key).value in library
    ensures Clean(library[MakeModelRef(pid, key).value]) <==> CleanDefaults(PinOf(llm, pid, key))
  {
    PinIsProjected(llm, d, library, pid, key);
    var ref := MakeModelRef(pid, key).value;
    var p, k := EntryNames(llm, d, library, ref);
    RefSplits(pid, key, ref);
    RefSplits(p, k, ref);
  }

  lemma {:induction false} PinIsProjected(llm: LLM, d: Defaults, library: Library, pid: string, key: string)
    requires IsLibrary(llm, d, library) && IsPin(llm, pid, key)
    ensures MakeModelRef(pid, key).Some? && MakeModelRef(pid, key).value in library
  {
    var pins, project := PinsIn(llm.providers), ProjectWith(llm.providers, d);
    assert key in pins[pid];
    InAllPins(pins, pid, key);
    assert (pid, key) in AllPins(pins, pins.Keys) && project(pid, key).Some?;
    assert project(pid, key) ==
           ProjectModel(pid, llm.providers[pid].fields, key, ModelsOf(llm.providers[pid])[key], d);
  }

  lemma {:induction false} InAllPins(pins: Pins, pid: string, key: string)
    requires pid in pins && key in pins[pid]
    ensures (pid, key) in AllPins(pins, pins.Keys)
  {
    assert (pid, key) in PinsOf(pid, pins[pid]);
  }

  lemma {:induction false} UnconfiguredIsClean(id: string)
    ensures Clean(Unconfigured(id))
  {
    assert CleanValue(Object(map[]));
  }

  /** A list with a credential field in it passes the checks and goes into the library. */
  lemma {:induction false} ListedDefaultsLeak(d: Defaults, pid: string, ref: string, provider: Fields, model: Fields, secret: Json)
    requires secret == Object(map["api_key" := Word("x")])
    requires model == map["upstream_id" := Word("m"), "defaults" := Array([secret])]
    ensures ModelOk(model) && !Clean(RuntimeModel(pid, provider, ref, model, d))
  {
    DirtyList(secret);
    ListPasses(model);
    ModelCleanExactly(pid, provider, ref, model, d);
  }

  lemma {:induction false} ListPasses(model: Fields)
    requires model.Keys == {"upstream_id", "defaults"} && model["upstream_id"] == Word("m") && model["defaults"].Array?
    ensures ModelOk(model)
  {
    assert TableOf(model, "defaults") == map[];
  }

  lemma {:induction false} DirtyList(secret: Json)
    requires secret == Object(map["api_key" := Word("x")])
    ensures !CleanValue(Array([secret]))
  {
    assert "api_key" in secret.fields && !CleanValue(secret);
    assert [secret][0] == secret;
  }
}
