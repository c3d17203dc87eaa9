/**
  What `preview_v1_to_v2` computes from one legacy model entry.

  URL normalisation, the credential spelling, the vendor tables, Unicode folding, the digest and what provider ids are made of
  are parameters.
 */
module LegacyModels {
  import opened Text
  import opened Wrappers
  import opened MigrationTypes

  const CONTRACTS := {"basic_chat", "tool_chat", "reasoning_chat", "responses_agent"}

  /** `_model_payload` and `_model_behavior` */
  function BehaviorOf(e: Entry): Behavior {
    Behavior(if e.transport == "" then "chat_completions" else e.transport,
             if e.protocol in CONTRACTS then e.protocol else if e.contract == "" then "tool_chat" else e.contract,
             if e.protocol in CONTRACTS then "" else e.protocol,
             e.copied)
  }

  /** `_adapter_and_driver` */
  function AdapterAndDriver(p: LegacyProvider): (string, string) {
    if p.kind == "anthropic" || p.compatMode == "anthropic" then ("anthropic", "anthropic")
    else if p.kind == "gemini" || p.compatMode == "gemini" then ("gemini", "gemini")
    else if p.compatMode == "custom" then ("custom", "openai")
    else ("openai_compatible", "openai")
  }

  const LOCAL_KINDS := {"local", "local_runtime", "ollama"}

  /** `_service_class`; `loopback` says that the host of a URL is this machine. */
  function ServiceClass(p: LegacyProvider, baseUrl: string, loopback: string -> bool): string {
    if p.kind in LOCAL_KINDS || loopback(baseUrl) then "local_runtime"
    else if p.kind == "relay" then "relay"
    else if p.kind == "openrouter" || p.kind == "aggregator" then "aggregator"
    else if p.kind == "openai" || p.kind == "anthropic" || p.kind == "gemini" then "official_api"
    else "relay"
  }

  /** `_legacy_credential_ref`; empty when a key is needed and no source is named. */
  function LegacyCredentialRef(p: LegacyProvider, canonical: string -> string): string {
    if p.credentialRef != "" then canonical(p.credentialRef)
    else if p.apiKeyEnv != "" then canonical("env:" + p.apiKeyEnv)
    else if p.kind !in LOCAL_KINDS || p.requiresKey then ""
    else "none"
  }

  function LowerAscii(s: string): string {
    if s == "" then "" else [if 'A' <= s[0] <= 'Z' then s[0] - 'A' + 'a' else s[0]] + LowerAscii(s[1..])
  }

  predicate StartsWith(s: string, t: string) {
    t <= s
  }

  predicate EndsWith(s: string, t: string) {
    |t| <= |s| && s[|s| - |t|..] == t
  }

  predicate IsLetter(c: char) {
    'a' <= c <= 'z' || 'A' <= c <= 'Z'
  }

  /** `_artifact_path_suspected` */
  predicate ArtifactPathSuspected(value: string) {
    var c := Strip(value);
    var l := LowerAscii(c);
    || EndsWith(l, ".gguf") || EndsWith(l, ".safetensors") || EndsWith(l, ".bin") || StartsWith(l, "file:")
    || (|c| >= 3 && IsLetter(c[0]) && c[1] == ':' && (c[2] == '\\' || c[2] == '/'))
    || StartsWith(c, "\\\\") || StartsWith(c, "/") || StartsWith(c, "~/") || StartsWith(c, "~\\")
    || StartsWith(c, "./") || StartsWith(c, "../") || StartsWith(c, ".\\") || StartsWith(c, "..\\")
  }

  datatype Env = Env(root: (string, string, string) -> Option<string>, canonical: string -> string, loopback: string -> bool,
                     vendorOf: (LegacyProvider, string) -> string, fold: string -> string, digest: string -> string,
                     naming: Naming)

  /** The upstream id after artifact resolution. */
  function UpstreamId(e: Entry, resolution: Option<Resolution>): Result<string, bool> {
    if !ArtifactPathSuspected(e.model) then Ok(Strip(e.model))
    else match resolution
      case None => Err(false)
      case Some(PreserveUpstreamId) => if e.provider.kind in LOCAL_KINDS then Ok(e.model) else Err(true)
      case Some(SplitArtifact(u)) => Ok(u)
  }

  function Find(resolutions: map<string, Resolution>, id: string): Option<Resolution> {
    if id in resolutions then Some(resolutions[id]) else None
  }

  function Classify(env: Env, p: LegacyProvider, baseUrl: string): Classification {
    var (adapter, driver) := AdapterAndDriver(p);
    Classification(ServiceClass(p, baseUrl, env.loopback), env.vendorOf(p, baseUrl), adapter, driver)
  }

  function RowOf(env: Env, id: string, e: Entry, upstreamId: string, baseUrl: string): Row {
    Row(id, upstreamId, BehaviorOf(e), Classify(env, e.provider, baseUrl), if ArtifactPathSuspected(e.model) then e.model else "",
        e.provider.title)
  }

  /** The endpoint of an entry. */
  function Endpoint(env: Env, e: Entry): Option<string> {
    env.root(e.provider.baseUrl, AdapterAndDriver(e.provider).0, if e.transport == "" then "chat_completions" else e.transport)
  }

  function CredentialOf(env: Env, e: Entry): string {
    var ref := LegacyCredentialRef(e.provider, env.canonical);
    env.canonical(if ref == "" then "none" else ref)
  }

  function PlaceEntry(env: Env, resolutions: map<string, Resolution>, item: Item): Placement {
    match item.entry
    case None => Skipped([InvalidEntry(item.id)])
    case Some(e) =>
      var upstream := UpstreamId(e, Find(resolutions, item.id));
      var typos := if e.misspelt then [UnknownField(item.id)] else [];
      if upstream.Err? then if upstream.error then Failed(LocalProviderRequired) else Skipped(typos + [ArtifactPath(item.id)])
      else
        var root := Endpoint(env, e);
        if root.None? then Failed(BadEndpoint)
        else Joined((root.value, CredentialOf(env, e)), RowOf(env, item.id, e, upstream.value, root.value),
                    typos + (if LegacyCredentialRef(e.provider, env.canonical) == "" then [CredentialMissing(item.id)] else []))
  }

  function PlaceWith(env: Env, resolutions: map<string, Resolution>): Item -> Placement {
    (item: Item) => PlaceEntry(env, resolutions, item)
  }
}
