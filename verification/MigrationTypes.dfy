/** What the v1 to v2 migration reads and what it builds. */
module MigrationTypes {
  import opened Wrappers

  datatype LegacyProvider = LegacyProvider(kind: string, compatMode: string, baseUrl: string, credentialRef: string,
                                           apiKeyEnv: string, requiresKey: bool, vendor: string, title: string)

  /** `copied` stands for the fields that are taken over as they are. */
  datatype Entry = Entry(provider: LegacyProvider, model: string, transport: string, protocol: string, contract: string,
                         copied: string, misspelt: bool)

  /** One item of the library; None when it is no table. */
  datatype Item = Item(id: string, entry: Option<Entry>)

  datatype Resolution = PreserveUpstreamId | SplitArtifact(upstreamId: string)

  /** The fields of a pinned model other than its label, its `enabled` and its upstream id. */
  datatype Behavior = Behavior(wireProtocol: string, interactionContract: string, modelProtocol: string, copied: string)

  type Key = (string, string)

  datatype Classification = Classification(serviceClass: string, vendor: string, adapter: string, driver: string)

  /** What the second loop uses of an entry. */
  datatype Row = Row(id: string, upstreamId: string, behavior: Behavior, classification: Classification, artifactPath: string,
                     title: string)

  datatype Conflict =
    | UnknownField(id: string)
    | InvalidEntry(id: string)
    | ArtifactPath(id: string)
    | CredentialMissing(id: string)
    | MixedClasses(key: Key)
    | MixedArtifacts(key: Key)
    | ModelDefaults(id: string)

  datatype PreviewError = LocalProviderRequired | BadEndpoint | UnusedResolution | BadModelId

  /** What one turn of that loop does with its entry. */
  datatype Placement = Failed(error: PreviewError) | Skipped(more: seq<Conflict>) | Joined(key: Key, row: Row, more: seq<Conflict>)

  type Groups = map<Key, seq<Row>>

  datatype Pinned = Pinned(upstreamId: string, behavior: Behavior)

  /** `artifact` is the path under `deployment`, empty if there is none. */
  datatype Provider = Provider(baseUrl: string, credentialRef: string, classification: Classification, artifact: string,
                               models: map<string, Pinned>)

  type Registry = map<string, Provider>

  /**
    What `suggest_provider_id` makes an id of: the label, host or service class of a group with its first row, and the
    fingerprint of its endpoint and credential.
   */
  datatype Naming = Naming(source: (Key, Row) -> string, mark: Key -> string)

  /** Ids decide rows and groups. */
  predicate Determined(groups: Groups) {
    forall k, l {:trigger Apart(groups, k, l)} :: k in groups && l in groups ==> Apart(groups, k, l)
  }

  predicate Apart(groups: Groups, k: Key, l: Key)
    requires k in groups && l in groups
  {
    forall r, t :: r in groups[k] && t in groups[l] && r.id == t.id ==> k == l && r == t
  }
}
