/**
  The signature-checked caches of vibelution_storage.py: identity, storage paths and active paths.

  A file is its signature; equal signatures mean equal content, so content is a function of the signature.  Links do not
  change and paths are absolute.  The cached paths are keyed by two variables of the environment, while the projects home
  may depend on others: what a lookup then returns was right in the environment its entry was made in, which the ghost
  field `seen` keeps.
 */
module StorageCache {
  import opened Text
  import opened Wrappers

  type Path = string

  /** `(str(path), exists, mtime_ns, size)` */
  datatype Signature = Signature(path: Path, present: bool, modifiedAt: int, size: int)

  datatype Stat = Stat(modifiedAt: int, size: int)

  type Environment = map<string, string>

  /** `_env_fingerprint` of the two variables. */
  datatype Fingerprint = Fingerprint(projectsHome: string, localAppData: string)

  function Variable(e: Environment, name: string): string {
    if name in e then e[name] else ""
  }

  function FingerprintOf(e: Environment): Fingerprint {
    Fingerprint(Variable(e, "VIBELUTION_PROJECTS_HOME"), Variable(e, "LOCALAPPDATA"))
  }

  datatype Identity = Identity(schemaVersion: int, projectId: string, sourcePath: Path)

  datatype StoragePaths = StoragePaths(root: Path, projectId: string, instanceId: string, projectsHome: Path, migrated: bool)

  datatype StorageError = IdentityError(reason: string) | MarkerInvalid

  type Key = (string, Option<string>, Fingerprint)

  /** What the lookups compute from, apart from files and environment. */
  datatype Rules = Rules(
    resolve: string -> Path,                                   // following links
    identityPath: Path -> Path,                                // the identity file below a root
    parse: (Path, Signature) -> Result<Identity, StorageError>,  // reading and checking it
    home: (Option<string>, Environment) -> Path,               // `resolve_projects_home`, see `HomeOf`
    instanceId: Path -> string,
    markerPath: StoragePaths -> Path,
    complete: (StoragePaths, Signature) -> bool)               // what the migration marker says

  const LIMIT := 256

  /** `_cache_put`: a full cache is emptied first. */
  function CachePut<K, V>(cache: map<K, V>, key: K, value: V): (r: map<K, V>)
    requires |cache| <= LIMIT
    ensures |r| <= LIMIT && key in r && r[key] == value
    ensures forall k :: k in r && k != key ==> k in cache && r[k] == cache[k]
    ensures |cache| < LIMIT ==> forall k :: k in cache ==> k in r
    ensures |cache| == LIMIT ==> r.Keys == {key}
  {
    var kept := if |cache| >= LIMIT then map[] else cache;
    SizeOfUpdate(kept, key, value);
    kept[key := value]
  }

  lemma {:induction false} SizeOfUpdate<K, V>(m: map<K, V>, key: K, value: V)
    ensures |m[key := value]| <= |m| + 1
  {
    assert m[key := value].Keys == m.Keys + {key};
  }

  // ---------- what the lookups mean, without caches ----------

  function SignatureIn(files: map<Path, Stat>, path: Path): Signature {
    if path in files then Signature(path, true, files[path].modifiedAt, files[path].size) else Signature(path, false, 0, 0)
  }

  function PathsOf(rules: Rules, root: Path, home: Option<string>, e: Environment, i: Identity): StoragePaths {
    StoragePaths(root, i.projectId, rules.instanceId(root), rules.home(home, e), true)
  }

  /** `_load_project_identity` */
  function IdentityNow(rules: Rules, files: map<Path, Stat>, root: Path): Result<Identity, StorageError> {
    rules.parse(root, SignatureIn(files, rules.identityPath(root)))
  }

  /** `_resolve_project_storage_paths` */
  function PathsNow(rules: Rules, files: map<Path, Stat>, env: Environment, root: Path, home: Option<string>)
    : Result<StoragePaths, StorageError>
  {
    var i := IdentityNow(rules, files, root);
    if i.Err? then Err(i.error) else Ok(PathsOf(rules, root, home, env, i.value))
  }

  function MarkerSays(rules: Rules, target: StoragePaths, marker: Signature): Result<StoragePaths, StorageError> {
    if rules.complete(target, marker) then Ok(target) else Err(MarkerInvalid)
  }

  type Legacy = (map<Path, Stat>, StoragePaths) -> Option<StoragePaths>

  /** `resolve_active_project_storage_paths`; `legacy` is where it falls back without a marker. */
  function ActiveNow(rules: Rules, files: map<Path, Stat>, env: Environment, root: Path, home: Option<string>, legacy: Legacy)
    : Result<StoragePaths, StorageError>
  {
    var target := PathsNow(rules, files, env, root, home);
    if target.Err? then target
    else
      var marker := SignatureIn(files, rules.markerPath(target.value));
      if marker.present then MarkerSays(rules, target.value, marker)
      else
        var previous := legacy(files, target.value);
        if previous.None? then target else Ok(previous.value)
  }

  // ---------- the same, without these functions ----------

  /** What `stat` finds. */
  predicate Found(files: map<Path, Stat>, path: Path, s: Signature) {
    && s.path == path && (s.present <==> path in files)
    && (path in files ==> s.modifiedAt == files[path].modifiedAt && s.size == files[path].size)
    && (path !in files ==> s.modifiedAt == 0 && s.size == 0)
  }

  /** The external paths of a project: its root, the ids of its identity and its root, and a projects home. */
  predicate IsTarget(rules: Rules, root: Path, i: Identity, homePath: Path, t: StoragePaths) {
    && t.root == root && t.projectId == i.projectId && t.instanceId == rules.instanceId(root) && t.projectsHome == homePath
    && t.migrated
  }

  /** Reading the identity file, an error included. */
  ghost predicate IsIdentity(rules: Rules, files: map<Path, Stat>, root: Path, outcome: Result<Identity, StorageError>) {
    exists s :: Found(files, rules.identityPath(root), s) && outcome == rules.parse(root, s)
  }

  /** An identity error, or the external paths. */
  ghost predicate ArePaths(rules: Rules, files: map<Path, Stat>, root: Path, homePath: Path, outcome: Result<StoragePaths, StorageError>) {
    exists i :: IsIdentity(rules, files, root, i) &&
      if i.Err? then outcome == Err(i.error) else outcome.Ok? && IsTarget(rules, root, i.value, homePath, outcome.value)
  }

  /**
    A marker that is there decides: it is complete and the external paths are used, or nothing is.  Without a marker the
    legacy paths are used if there are any.
   */
  ghost predicate MarkerFits(rules: Rules, files: map<Path, Stat>, t: StoragePaths, legacy: Legacy,
                             outcome: Result<StoragePaths, StorageError>) {
    && (rules.markerPath(t) in files ==>
          exists s :: Found(files, rules.markerPath(t), s) &&
            (outcome.Ok? <==> rules.complete(t, s)) && (outcome.Ok? ==> outcome.value == t) && (outcome.Err? ==> outcome.error == MarkerInvalid))
    && (rules.markerPath(t) !in files && legacy(files, t).Some? ==> outcome == Ok(legacy(files, t).value))
    && (rules.markerPath(t) !in files && legacy(files, t).None? ==> outcome == Ok(t))
  }

  ghost predicate AreActive(rules: Rules, files: map<Path, Stat>, root: Path, homePath: Path, legacy: Legacy,
                            outcome: Result<StoragePaths, StorageError>) {
    exists p :: ArePaths(rules, files, root, homePath, p) &&
      if p.Err? then outcome == Err(p.error) else MarkerFits(rules, files, p.value, legacy, outcome)
  }

  lemma {:induction false} FoundExactly(files: map<Path, Stat>, path: Path, s: Signature)
    ensures Found(files, path, s) <==> s == SignatureIn(files, path)
  {
  }

  lemma {:induction false} IdentityExactly(rules: Rules, files: map<Path, Stat>, root: Path, outcome: Result<Identity, StorageError>)
    ensures IsIdentity(rules, files, root, outcome) <==> outcome == IdentityNow(rules, files, root)
  {
    FoundExactly(files, rules.identityPath(root), SignatureIn(files, rules.identityPath(root)));
    if IsIdentity(rules, files, root, outcome) {
      var s :| Found(files, rules.identityPath(root), s) && outcome == rules.parse(root, s);
      FoundExactly(files, rules.identityPath(root), s);
    }
  }

  lemma {:induction false} PathsExactly(rules: Rules, files: map<Path, Stat>, e: Environment, root: Path, home: Option<string>,
                                        outcome: Result<StoragePaths, StorageError>)
    ensures ArePaths(rules, files, root, rules.home(home, e), outcome) <==> outcome == PathsNow(rules, files, e, root, home)
  {
    IdentityExactly(rules, files, root, IdentityNow(rules, files, root));
    if ArePaths(rules, files, root, rules.home(home, e), outcome) {
      var i :| IsIdentity(rules, files, root, i) &&
        if i.Err? then outcome == Err(i.error) else outcome.Ok? && IsTarget(rules, root, i.value, rules.home(home, e), outcome.value);
      IdentityExactly(rules, files, root, i);
    }
  }

  lemma {:induction false} MarkerExactly(rules: Rules, files: map<Path, Stat>, t: StoragePaths, legacy: Legacy,
                                         outcome: Result<StoragePaths, StorageError>)
    ensures MarkerFits(rules, files, t, legacy, outcome) <==>
      var marker := SignatureIn(files, rules.markerPath(t));
      outcome == if marker.present then MarkerSays(rules, t, marker)
                 else if legacy(files, t).None? then Ok(t) else Ok(legacy(files, t).value)
  {
    var marker := SignatureIn(files, rules.markerPath(t));
    FoundExactly(files, rules.markerPath(t), marker);
    if rules.markerPath(t) in files && MarkerFits(rules, files, t, legacy, outcome) {
      var s :| Found(files, rules.markerPath(t), s) && (outcome.Ok? <==> rules.complete(t, s)) &&
               (outcome.Ok? ==> outcome.value == t) && (outcome.Err? ==> outcome.error == MarkerInvalid);
      FoundExactly(files, rules.markerPath(t), s);
    }
  }

  lemma {:induction false} ActiveExactly(rules: Rules, files: map<Path, Stat>, e: Environment, root: Path, home: Option<string>,
                                         legacy: Legacy, outcome: Result<StoragePaths, StorageError>)
    ensures AreActive(rules, files, root, rules.home(home, e), legacy, outcome) <==>
            outcome == ActiveNow(rules, files, e, root, home, legacy)
  {
    var target := PathsNow(rules, files, e, root, home);
    PathsExactly(rules, files, e, root, home, target);
    if target.Ok? {
      MarkerExactly(rules, files, target.value, legacy, outcome);
    }
    if AreActive(rules, files, root, rules.home(home, e), legacy, outcome) {
      var p :| ArePaths(rules, files, root, rules.home(home, e), p) &&
        if p.Err? then outcome == Err(p.error) else MarkerFits(rules, files, p.value, legacy, outcome);
      PathsExactly(rules, files, e, root, home, p);
    }
  }

  // ---------- the caches ----------

  type Identities = map<Path, (Signature, Result<Identity, StorageError>)>
  type PathsCache = map<Key, (Signature, StoragePaths)>
  type ActiveCache = map<Key, (Signature, Signature, Result<StoragePaths, StorageError>)>

  /** Every entry is what its own signature gives, and the cache is no larger than the limit. */
  ghost predicate IdentitiesOk(rules: Rules, c: Identities) {
    |c| <= LIMIT && forall root :: root in c ==> c[root].1 == rules.parse(root, c[root].0)
  }

  /** The environments in which the entries of the paths cache were made. */
  type Seen = map<Key, Environment>

  predicate PathsEntryOk(rules: Rules, key: Key, e: Environment, signature: Signature, paths: StoragePaths) {
    var root := rules.resolve(key.0);
    var i := rules.parse(root, signature);
    FingerprintOf(e) == key.2 && i.Ok? && paths == PathsOf(rules, root, key.1, e, i.value)
  }

  ghost predicate PathsCacheOk(rules: Rules, seen: Seen, c: PathsCache) {
    |c| <= LIMIT && c.Keys <= seen.Keys && forall key :: key in c ==> PathsEntryOk(rules, key, seen[key], c[key].0, c[key].1)
  }

  ghost predicate SeenOk(seen: Seen) {
    forall key :: key in seen ==> FingerprintOf(seen[key]) == key.2
  }

  /** The environment of the entry of a lookup; the present one if there is none. */
  ghost function Then(seen: Seen, projectRoot: string, home: Option<string>, env: Environment): (e: Environment)
    requires SeenOk(seen)
    ensures FingerprintOf(e) == FingerprintOf(env)
  {
    var key := (projectRoot, home, FingerprintOf(env));
    if key in seen then seen[key] else env
  }

  /** The environment matters through the projects home alone. */
  lemma {:induction false} HomeDecides(rules: Rules, files: map<Path, Stat>, e: Environment, f: Environment, root: Path,
                                       home: Option<string>)
    ensures PathsNow(rules, files, e, root, home) == PathsNow(rules, files, f, root, home) <==>
            PathsNow(rules, files, e, root, home).Err? || rules.home(home, e) == rules.home(home, f)
  {
  }


  /** Environments with the same two variables have the same home. */
  ghost predicate HomeInKey(rules: Rules, home: Option<string>, e: Environment) {
    forall f: Environment :: FingerprintOf(f) == FingerprintOf(e) ==> rules.home(home, f) == rules.home(home, e)
  }

  /** What a present marker is read for, and without one. */
  lemma {:induction false} TargetIs(rules: Rules, files: map<Path, Stat>, e: Environment, root: Path, home: Option<string>,
                                    target: StoragePaths, legacy: Legacy)
    requires PathsNow(rules, files, e, root, home) == Ok(target)
    ensures var i := rules.parse(root, SignatureIn(files, rules.identityPath(root)));
      i.Ok? && target == PathsOf(rules, root, home, e, i.value)
    ensures var marker := SignatureIn(files, rules.markerPath(target)); var previous := legacy(files, target);
      && marker.path == rules.markerPath(target)
      && ActiveNow(rules, files, e, root, home, legacy) ==
         if marker.present then MarkerSays(rules, target, marker)
         else if previous.None? then Ok(target) else Ok(previous.value)
  {
  }

  /** An outcome follows from the marker and the paths whose marker it is. */
  ghost predicate ActiveEntryOk(rules: Rules, key: Key, signature: Signature, marker: Signature,
                                outcome: Result<StoragePaths, StorageError>)
  {
    var root := rules.resolve(key.0);
    var i := rules.parse(root, signature);
    i.Ok? && exists e: Environment ::
      var target := PathsOf(rules, root, key.1, e, i.value);
      marker.path == rules.markerPath(target) && outcome == MarkerSays(rules, target, marker)
  }

  ghost predicate ActiveCacheOk(rules: Rules, c: ActiveCache) {
    |c| <= LIMIT && forall key :: key in c ==> ActiveEntryOk(rules, key, c[key].0, c[key].1, c[key].2)
  }

  ghost predicate CachesOk(rules: Rules, seen: Seen, identities: Identities, storage: PathsCache, active: ActiveCache) {
    SeenOk(seen) && IdentitiesOk(rules, identities) && PathsCacheOk(rules, seen, storage) && ActiveCacheOk(rules, active)
  }

  /** Links are followed to the end. */
  predicate Follows(rules: Rules, s: string) {
    rules.resolve(rules.resolve(s)) == rules.resolve(s)
  }

  /** The marker lies below the projects home. */
  predicate BelowHome(rules: Rules, p: StoragePaths, q: StoragePaths) {
    rules.markerPath(p) == rules.markerPath(q) && p.projectId == q.projectId && p.instanceId == q.instanceId ==>
      p.projectsHome == q.projectsHome
  }

  ghost predicate Laws(rules: Rules) {
    (forall s :: Follows(rules, s)) && (forall p, q :: BelowHome(rules, p, q))
  }

  lemma {:induction false} PutIdentity(rules: Rules, c: Identities, root: Path, signature: Signature)
    requires IdentitiesOk(rules, c)
    ensures IdentitiesOk(rules, CachePut(c, root, (signature, rules.parse(root, signature))))
  {
  }

  lemma {:induction false} PutPaths(rules: Rules, seen: Seen, c: PathsCache, key: Key, e: Environment, signature: Signature,
                                    paths: StoragePaths)
    requires PathsCacheOk(rules, seen, c) && PathsEntryOk(rules, key, e, signature, paths)
    ensures PathsCacheOk(rules, seen[key := e], CachePut(c, key, (signature, paths)))
  {
  }

  /** An entry with the present signature is what would be computed. */
  lemma {:induction false} EntryIsCurrent(rules: Rules, files: map<Path, Stat>, key: Key, e: Environment, signature: Signature,
                                          paths: StoragePaths)
    requires PathsEntryOk(rules, key, e, signature, paths)
    requires signature == SignatureIn(files, rules.identityPath(rules.resolve(key.0)))
    ensures Ok(paths) == PathsNow(rules, files, e, rules.resolve(key.0), key.1)
  {
  }

  lemma {:induction false} EntryFromIdentity(rules: Rules, files: map<Path, Stat>, key: Key, e: Environment, signature: Signature,
                                             identity: Identity)
    requires FingerprintOf(e) == key.2 && signature == SignatureIn(files, rules.identityPath(rules.resolve(key.0)))
    requires IdentityNow(rules, files, rules.resolve(key.0)) == Ok(identity)
    ensures PathsEntryOk(rules, key, e, signature, PathsOf(rules, rules.resolve(key.0), key.1, e, identity))
  {
  }

  lemma {:induction false} PutActive(rules: Rules, c: ActiveCache, key: Key, signature: Signature, marker: Signature,
                                     outcome: Result<StoragePaths, StorageError>)
    requires ActiveCacheOk(rules, c) && ActiveEntryOk(rules, key, signature, marker, outcome)
    ensures ActiveCacheOk(rules, CachePut(c, key, (signature, marker, outcome)))
  {
  }

  lemma {:induction false} MadeNow(rules: Rules, key: Key, signature: Signature, marker: Signature, e: Environment)
    requires rules.parse(rules.resolve(key.0), signature).Ok?
    requires marker.path ==
             rules.markerPath(PathsOf(rules, rules.resolve(key.0), key.1, e, rules.parse(rules.resolve(key.0), signature).value))
    ensures var target := PathsOf(rules, rules.resolve(key.0), key.1, e, rules.parse(rules.resolve(key.0), signature).value);
      ActiveEntryOk(rules, key, signature, marker, MarkerSays(rules, target, marker))
  {
  }

  /** The module's caches, and the files and environment they look at. */
  class Storage {
    const rules: Rules
    var files: map<Path, Stat>
    var env: Environment
    var identities: Identities
    var storage: PathsCache
    var active: ActiveCache
    ghost var seen: Seen

    constructor (rules: Rules, files: map<Path, Stat>, env: Environment)
      requires Laws(rules)
      ensures Valid() && this.rules == rules && this.files == files && this.env == env
    {
      this.rules := rules;
      this.files := files;
      this.env := env;
      this.identities, this.storage, this.active, this.seen := map[], map[], map[], map[];
    }

    ghost predicate Valid()
      reads this
    {
      Laws(rules) && CachesOk(rules, seen, identities, storage, active)
    }

    // ---------- the world changes ----------

    /** Somebody writes or removes a file. */
    method Edit(path: Path, stat: Option<Stat>)
      requires Valid()
      modifies this`files
      ensures Valid() && files == if stat.Some? then old(files)[path := stat.value] else old(files) - {path}
    {
      files := if stat.Some? then files[path := stat.value] else files - {path};
    }

    method SetEnvironment(e: Environment)
      requires Valid()
      modifies this`env
      ensures Valid() && env == e
    {
      env := e;
    }

    // ---------- the lookups ----------

    /** `load_project_identity`, the links followed; a cached error is raised again. */
    method LoadProjectIdentity(root: Path) returns (outcome: Result<Identity, StorageError>)
      requires Valid()
      modifies this`identities
      ensures Valid() && outcome == IdentityNow(rules, files, root) && IsIdentity(rules, files, root, outcome)
    {
      var signature := SignatureIn(files, rules.identityPath(root));
      IdentityExactly(rules, files, root, IdentityNow(rules, files, root));
      if root in identities && identities[root].0 == signature {
        return identities[root].1;
      }
      outcome := rules.parse(root, signature);
      PutIdentity(rules, identities, root, signature);
      identities := CachePut(identities, root, (signature, outcome));
    }

    /**
      `resolve_project_storage_paths`; an identity error is not cached.  The outcome is right for the environment its entry
      was made in, so it is right now exactly when the projects home is the same in both.
     */
    method ResolveProjectStoragePaths(projectRoot: string, home: Option<string>) returns (outcome: Result<StoragePaths, StorageError>)
      requires Valid()
      modifies this`identities, this`storage, this`seen
      ensures Valid() && outcome == PathsNow(rules, files, Then(seen, projectRoot, home, env), rules.resolve(projectRoot), home)
      ensures ArePaths(rules, files, rules.resolve(projectRoot), rules.home(home, Then(seen, projectRoot, home, env)), outcome)
      ensures HomeInKey(rules, home, env) ==>
              ArePaths(rules, files, rules.resolve(projectRoot), rules.home(home, env), outcome)
      ensures (projectRoot, home, FingerprintOf(env)) !in old(storage) ==> outcome.Err? || Then(seen, projectRoot, home, env) == env
    {
      var key := (projectRoot, home, FingerprintOf(env));
      var root := rules.resolve(projectRoot);
      var signature := SignatureIn(files, rules.identityPath(root));
      PathsExactly(rules, files, env, root, home, PathsNow(rules, files, env, root, home));
      if key in storage && storage[key].0 == signature {
        EntryIsCurrent(rules, files, key, seen[key], signature, storage[key].1);
        PathsExactly(rules, files, seen[key], root, home, Ok(storage[key].1));
        return Ok(storage[key].1);
      }
      var identity := LoadProjectIdentity(root);
      if identity.Err? {
        return Err(identity.error);
      }
      var paths := PathsOf(rules, root, home, env, identity.value);
      EntryFromIdentity(rules, files, key, env, signature, identity.value);
      Remember(key, signature, paths, env);
      outcome := Ok(paths);
    }

    /** The entry for a lookup, with the environment it is made in. */
    method Remember(key: Key, signature: Signature, paths: StoragePaths, ghost e: Environment)
      requires Valid() && PathsEntryOk(rules, key, e, signature, paths)
      modifies this`storage, this`seen
      ensures Valid() && storage == CachePut(old(storage), key, (signature, paths)) && seen == old(seen)[key := e]
    {
      PutPaths(rules, seen, storage, key, e, signature, paths);
      storage := CachePut(storage, key, (signature, paths));
      seen := seen[key := e];
    }

    /** The part of `resolve_active_project_storage_paths` behind a present marker. */
    method ReadMarker(key: Key, signature: Signature, marker: Signature, target: StoragePaths, ghost e: Environment)
      returns (outcome: Result<StoragePaths, StorageError>)
      requires Valid() && rules.parse(rules.resolve(key.0), signature).Ok? && marker.path == rules.markerPath(target)
      requires target == PathsOf(rules, rules.resolve(key.0), key.1, e, rules.parse(rules.resolve(key.0), signature).value)
      modifies this`active
      ensures Valid() && outcome == MarkerSays(rules, target, marker)
    {
      if key in active && active[key].0 == signature && active[key].1 == marker {
        SameMarker(rules, key, signature, marker, active[key].2, e);
        return active[key].2;
      }
      outcome := MarkerSays(rules, target, marker);
      MadeNow(rules, key, signature, marker, e);
      PutActive(rules, active, key, signature, marker, outcome);
      active := CachePut(active, key, (signature, marker, outcome));
    }

    /** `resolve_active_project_storage_paths`; without a marker nothing is cached. */
    method ResolveActiveProjectStoragePaths(projectRoot: string, home: Option<string>, legacy: Legacy)
      returns (outcome: Result<StoragePaths, StorageError>)
      requires Valid()
      modifies this`identities, this`storage, this`active, this`seen
      ensures Valid()
      ensures var root := rules.resolve(projectRoot); var e := Then(seen, root, home, env);
        outcome == ActiveNow(rules, files, e, root, home, legacy)
      ensures var root := rules.resolve(projectRoot);
        AreActive(rules, files, root, rules.home(home, Then(seen, root, home, env)), legacy, outcome)
      ensures HomeInKey(rules, home, env) ==>
              AreActive(rules, files, rules.resolve(projectRoot), rules.home(home, env), legacy, outcome)
    {
      var root := rules.resolve(projectRoot);
      assert Follows(rules, projectRoot);
      var signature := SignatureIn(files, rules.identityPath(root));
      var target := ResolveProjectStoragePaths(root, home);
      ghost var e := Then(seen, root, home, env);
      ActiveExactly(rules, files, e, root, home, legacy, ActiveNow(rules, files, e, root, home, legacy));
      if target.Err? {
        return target;
      }
      TargetIs(rules, files, e, root, home, target.value, legacy);
      var marker := SignatureIn(files, rules.markerPath(target.value));
      if !marker.present {
        var previous := legacy(files, target.value);
        return if previous.None? then target else Ok(previous.value);
      }
      outcome := ReadMarker((projectRoot, home, FingerprintOf(env)), signature, marker, target.value, e);
    }
  }

  /** A cached outcome of this marker is the outcome for the paths that have it. */
  lemma {:induction false} SameMarker(rules: Rules, key: Key, signature: Signature, marker: Signature,
                                      outcome: Result<StoragePaths, StorageError>, e: Environment)
    requires Laws(rules) && ActiveEntryOk(rules, key, signature, marker, outcome)
    requires rules.parse(rules.resolve(key.0), signature).Ok?
    requires var target := PathsOf(rules, rules.resolve(key.0), key.1, e, rules.parse(rules.resolve(key.0), signature).value);
      marker.path == rules.markerPath(target)
    ensures var target := PathsOf(rules, rules.resolve(key.0), key.1, e, rules.parse(rules.resolve(key.0), signature).value);
      outcome == MarkerSays(rules, target, marker)
  {
    var root := rules.resolve(key.0);
    var i := rules.parse(root, signature).value;
    var f: Environment :|
      var target := PathsOf(rules, root, key.1, f, i);
      marker.path == rules.markerPath(target) && outcome == MarkerSays(rules, target, marker);
    assert BelowHome(rules, PathsOf(rules, root, key.1, e, i), PathsOf(rules, root, key.1, f, i));
  }

  // ---------- the projects home ----------

  /** What the home is computed with. */
  datatype Expansions = Expansions(
    resolve: string -> Path,
    expandVars: (string, Environment) -> string,               // `os.path.expandvars`
    expandUser: (string, Environment) -> string,               // a leading `~`
    userHome: Environment -> Path,                             // the application data below `Path.home()`
    projectsBelow: Path -> Path)                               // the projects directory of the application data

  /** `resolve_projects_home` */
  function HomeOf(x: Expansions, home: Option<string>, e: Environment): Path {
    var f := FingerprintOf(e);
    var raw, appData := Strip(f.projectsHome), Strip(f.localAppData);
    if home.Some? then x.resolve(x.expandUser(home.value, e))
    else if raw != "" then x.resolve(x.expandUser(x.expandVars(raw, e), e))
    else x.resolve(x.projectsBelow(if appData != "" then appData else x.userHome(e)))
  }

  predicate IsSet(e: Environment, name: string) {
    name in e && Strip(e[name]) != ""
  }

  /** The explicit home, then the first variable, then the second, then the user's home. */
  lemma {:induction false} HomeExactly(x: Expansions, home: Option<string>, e: Environment)
    ensures var p := HomeOf(x, home, e);
      && (home.Some? ==> p == x.resolve(x.expandUser(home.value, e)))
      && (home.None? && IsSet(e, "VIBELUTION_PROJECTS_HOME") ==>
            p == x.resolve(x.expandUser(x.expandVars(Strip(e["VIBELUTION_PROJECTS_HOME"]), e), e)))
      && (home.None? && !IsSet(e, "VIBELUTION_PROJECTS_HOME") && IsSet(e, "LOCALAPPDATA") ==>
            p == x.resolve(x.projectsBelow(Strip(e["LOCALAPPDATA"]))))
      && (home.None? && !IsSet(e, "VIBELUTION_PROJECTS_HOME") && !IsSet(e, "LOCALAPPDATA") ==>
            p == x.resolve(x.projectsBelow(x.userHome(e))))
  {
    assert Strip("") == "";
  }

  /** No `~` in front, and no variable to expand. */
  predicate Spelled(s: string) {
    (s != "" ==> s[0] != '~') && '$' !in s && '%' !in s
  }

  /** What is expanded does not depend on the environment; without an explicit home, one variable of the two is set. */
  predicate Explicit(home: Option<string>, f: Fingerprint) {
    if home.Some? then home.value != "" ==> home.value[0] != '~'
    else if Strip(f.projectsHome) != "" then Spelled(Strip(f.projectsHome))
    else Strip(f.localAppData) != ""
  }

  /** How `expandvars` and `expanduser` treat what there is nothing to expand in. */
  ghost predicate Expands(x: Expansions) {
    && (forall s, e :: '$' !in s && '%' !in s ==> x.expandVars(s, e) == s)
    && (forall s, e :: (s != "" ==> s[0] != '~') ==> x.expandUser(s, e) == s)
  }

  /** With such a home the two variables of the key decide. */
  lemma {:induction false} FingerprintDecides(x: Expansions, home: Option<string>, e: Environment, f: Environment)
    requires Expands(x) && FingerprintOf(e) == FingerprintOf(f) && Explicit(home, FingerprintOf(e))
    ensures HomeOf(x, home, e) == HomeOf(x, home, f)
  {
  }

  /** So lookups with such a home return what would be computed now. */
  lemma {:induction false} ExplicitHome(x: Expansions, rules: Rules, home: Option<string>, e: Environment)
    requires Expands(x) && (forall h, f :: rules.home(h, f) == HomeOf(x, h, f))
    requires Explicit(home, FingerprintOf(e))
    ensures HomeInKey(rules, home, e)
  {
    forall f: Environment | FingerprintOf(f) == FingerprintOf(e) ensures rules.home(home, f) == rules.home(home, e) {
      FingerprintDecides(x, home, f, e);
    }
  }

  /** Otherwise another variable changes the paths under an unchanged key. */
  lemma {:induction false} FingerprintMisses(x: Expansions, a: string, b: string)
    requires (forall e: Environment :: x.expandVars("$BASE", e) == Variable(e, "BASE"))
    requires (forall e: Environment :: x.expandUser(a, e) == a && x.expandUser(b, e) == b)
    requires x.resolve(a) != x.resolve(b)
    ensures var e := map["VIBELUTION_PROJECTS_HOME" := "$BASE", "BASE" := a]; var f := e["BASE" := b];
      FingerprintOf(e) == FingerprintOf(f) && HomeOf(x, None, e) != HomeOf(x, None, f)
  {
    var e := map["VIBELUTION_PROJECTS_HOME" := "$BASE", "BASE" := a];
    var f := e["BASE" := b];
    assert Variable(e, "BASE") == a && Variable(f, "BASE") == b;
    assert Strip("$BASE") == "$BASE";
  }
}
