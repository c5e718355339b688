/** The memcached layer of `redisClient.js`: a map from key to a value with an
    absolute expiry time, the client the module creates at load, and the four
    helpers that cache and read progress and per-user file metadata. Every
    helper swallows errors: a failing read answers `null`, a failing write
    leaves the cache as it was. `now` is the cache server's clock in seconds. */
module Cache {
  import opened Wrappers
  import opened Js

  /** Every `set` in the source asks for a one-hour expiry. */
  const Ttl: int := 3600

  datatype Entry = Entry(value: Value, expiresAt: int)

  type Store = map<string, Entry>

  /** A memcached `get`: the value while the entry is live. */
  function Lookup(c: Store, key: string, now: int): (r: Option<Value>)
    ensures r.Some? <==> key in c && now < c[key].expiresAt
    ensures r.Some? ==> r.value == c[key].value
  {
    if key in c && now < c[key].expiresAt then Some(c[key].value) else None
  }

  /** A memcached `set` with the one-hour expiry. */
  function Put(c: Store, key: string, v: Value, now: int): (c': Store)
    ensures key in c' && c'[key] == Entry(v, now + Ttl)
    ensures forall k :: k in c && k != key ==> k in c' && c'[k] == c[k]
    ensures c'.Keys == c.Keys + {key}
  {
    c[key := Entry(v, now + Ttl)]
  }

  /** A value written at `t0` is read back at any `t1` within the hour, and
      is gone from `t0 + Ttl` on. */
  lemma PutThenLookup(c: Store, key: string, v: Value, t0: int, t1: int)
    ensures t0 <= t1 < t0 + Ttl ==> Lookup(Put(c, key, v, t0), key, t1) == Some(v)
    ensures t1 >= t0 + Ttl ==> Lookup(Put(c, key, v, t0), key, t1) == None
  {
  }

  // ---- the client created at module load -----------------------------------

  datatype Client = Client(endpoint: string, timeoutMs: int, retries: int)

  /** The client `redisClient.js` creates when it is loaded. */
  const LoadedClient: Client :=
    Client("n11521147-a2-ech.km2jzi.cfg.apse2.cache.amazonaws.com:11211", 5000, 5)

  /** `initializeMemcachedClient` given the module's binding. An existing client
      is returned as is; otherwise the code re-assigns a `const` binding, which
      JavaScript rejects with a `TypeError`. */
  function InitializeClient(current: Option<Client>): (r: Result<Client, string>)
    ensures current.Some? ==> r == Success(current.value)
    ensures current.None? ==> r.Failure?
  {
    match current
    case Some(c) => Success(c)
    case None => Failure("Assignment to constant variable.")
  }

  /** The binding is set at load to an object, which is truthy, so every call
      hands back the load-time client and the re-creation branch never runs. */
  lemma InitializeAlwaysReturnsLoadedClient()
    ensures InitializeClient(Some(LoadedClient)) == Success(LoadedClient)
  {
  }

  // ---- keys -----------------------------------------------------------------

  /** The key under which a user's file list is cached. */
  function FilesKey(username: string): string {
    username + "_files"
  }

  // ---- the exported helpers -------------------------------------------------

  /** `cacheProgress(progressId, data)`: the raw id is the key. */
  function CacheProgress(c: Store, progressId: string, data: Value, now: int, ok: bool): (c': Store)
    ensures ok ==> c' == Put(c, progressId, data, now)
    ensures ok ==> forall t :: now <= t < now + Ttl ==> Lookup(c', progressId, t) == Some(data)
    ensures forall k :: k != progressId ==> (k in c' <==> k in c) && (k in c ==> c'[k] == c[k])
    ensures !ok ==> c' == c
  {
    if ok then Put(c, progressId, data, now) else c
  }

  /** `getCachedProgress(progressId)`: `null` on a miss or on any error. */
  function GetCachedProgress(c: Store, progressId: string, now: int, ok: bool): (r: Value)
    ensures !ok ==> r == Null
    ensures ok && progressId in c && now < c[progressId].expiresAt ==> r == c[progressId].value
    ensures ok && (progressId !in c || now >= c[progressId].expiresAt) ==> r == Null
  {
    if ok then Lookup(c, progressId, now).GetOr(Null) else Null
  }

  /** `cacheFileMetadata(username, metadata)`. */
  function CacheFileMetadata(c: Store, username: string, metadata: Value, now: int, ok: bool): (c': Store)
    ensures ok ==> c' == Put(c, FilesKey(username), metadata, now)
    ensures ok ==> forall t :: now <= t < now + Ttl ==> Lookup(c', FilesKey(username), t) == Some(metadata)
    ensures forall k :: k != FilesKey(username) ==> (k in c' <==> k in c) && (k in c ==> c'[k] == c[k])
    ensures !ok ==> c' == c
  {
    if ok then Put(c, FilesKey(username), metadata, now) else c
  }

  /** `getCachedFileMetadata(username)`: `null` on a miss or on any error. */
  function GetCachedFileMetadata(c: Store, username: string, now: int, ok: bool): (r: Value)
    ensures !ok ==> r == Null
    ensures ok && FilesKey(username) in c && now < c[FilesKey(username)].expiresAt ==> r == c[FilesKey(username)].value
    ensures ok && (FilesKey(username) !in c || now >= c[FilesKey(username)].expiresAt) ==> r == Null
  {
    if ok then Lookup(c, FilesKey(username), now).GetOr(Null) else Null
  }

  /** Round trip: metadata cached at `t0` is what a read within the hour
      returns; after the hour, or when the read fails, the answer is `null`. */
  lemma FileMetadataRoundTrip(c: Store, username: string, m: Value, t0: int, t1: int)
    ensures t0 <= t1 < t0 + Ttl ==>
      GetCachedFileMetadata(CacheFileMetadata(c, username, m, t0, true), username, t1, true) == m
    ensures t1 >= t0 + Ttl ==>
      GetCachedFileMetadata(CacheFileMetadata(c, username, m, t0, true), username, t1, true) == Null
    ensures GetCachedFileMetadata(CacheFileMetadata(c, username, m, t0, true), username, t1, false) == Null
  {
  }

  /** Round trip for progress, keyed by the raw progress id. */
  lemma ProgressRoundTrip(c: Store, progressId: string, data: Value, t0: int, t1: int)
    ensures t0 <= t1 < t0 + Ttl ==>
      GetCachedProgress(CacheProgress(c, progressId, data, t0, true), progressId, t1, true) == data
    ensures t1 >= t0 + Ttl ==>
      GetCachedProgress(CacheProgress(c, progressId, data, t0, true), progressId, t1, true) == Null
  {
  }

  /** Caching one user's files leaves every other key, including another
      user's file list, as it was. */
  lemma CacheFileMetadataIsolated(c: Store, username: string, other: string, m: Value, now: int, ok: bool)
    requires other != username
    ensures var c' := CacheFileMetadata(c, username, m, now, ok);
      FilesKey(other) in c <==> FilesKey(other) in c'
    ensures var c' := CacheFileMetadata(c, username, m, now, ok);
      FilesKey(other) in c ==> c'[FilesKey(other)] == c[FilesKey(other)]
  {
    FilesKeyInjective(other, username);
  }

  /** Distinct users have distinct file-list keys. */
  lemma FilesKeyInjective(a: string, b: string)
    ensures FilesKey(a) == FilesKey(b) ==> a == b
  {
    if FilesKey(a) == FilesKey(b) {
      assert a == FilesKey(a)[..|a|];
      assert b == FilesKey(b)[..|b|];
    }
  }
}
