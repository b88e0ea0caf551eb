/**
 * The two-tier response cache (`ACNetCache`): a memory tier private to each cache
 * object and a disk tier that lives in a directory under a namespace. Both tiers
 * map a cache key to the stored response and the time it was stored.
 *
 * The pure part of this module (Tiers, Probe, Store, Delete) is the specification;
 * the classes DiskStore and NetCache hold the state and are proved against it.
 */
module Cache {
  import opened Wrappers

  /** The key a key generator derives from a URL and its parameters. */
  type Key = string
  /** The request parameters (an `NSDictionary`). */
  type Params = map<string, string>
  /** A cached response object; its contents are opaque to the cache. */
  type Response = string
  /**
   * `ACNetCacheKeyGenerator`: any deterministic function of (url, params). A Dafny
   * function value is deterministic by construction; no particular hash is modelled.
   */
  type KeyGenerator = (string, Params) -> Key
  /** An expiry in whole seconds; `None` is the "never expires" of the overloads without `expires`. */
  type Expiry = Option<nat>

  /** `ACNetCacheType`: where a delivered response came from. */
  datatype CacheType = CacheNone | CacheMemory | CacheDisk | CacheNet

  /** A stored response together with the time (in seconds) it was stored. */
  datatype Entry = Entry(response: Response, storedAt: int)

  /** Where a disk entry lives: the cache directory (`None` = the default one), the namespace and the key. */
  datatype DiskPath = DiskPath(directory: Option<string>, namespace: string, key: Key)

  /**
   * The state one cache object sees: its own memory tier, keyed by cache key, and
   * the files of the disk store, keyed by full path.
   */
  datatype Tiers = Tiers(memory: map<Key, Entry>, files: map<DiskPath, Entry>)

  /** A cache hit: the tier it came from and the entry found there. */
  datatype Found = Found(source: CacheType, entry: Entry)

  /**
   * An entry is fresh when no expiry is given or when it is younger than the expiry:
   * stored at T under expiry `ttl`, it is fresh strictly before T + ttl.
   */
  predicate Fresh(e: Entry, expire: Expiry, now: int)
    ensures expire.None? ==> Fresh(e, expire, now)
    ensures expire.Some? ==> (Fresh(e, expire, now) <==> now < e.storedAt + expire.value)
  {
    expire.None? || now - e.storedAt < expire.value
  }

  /** The memory tier holds a fresh entry for the key of `p`. */
  predicate InMemory(t: Tiers, p: DiskPath, expire: Expiry, now: int)
  {
    p.key in t.memory && Fresh(t.memory[p.key], expire, now)
  }

  /** The disk tier holds a fresh entry at `p`. */
  predicate OnDisk(t: Tiers, p: DiskPath, expire: Expiry, now: int)
  {
    p in t.files && Fresh(t.files[p], expire, now)
  }

  /**
   * The lookup of `fetchResponseForUrl`: memory first, then disk; an entry that is
   * present but stale counts as absent (and is not removed).
   */
  function Probe(t: Tiers, p: DiskPath, expire: Expiry, now: int): (r: Option<Found>)
    ensures r.Some? <==> InMemory(t, p, expire, now) || OnDisk(t, p, expire, now)
    ensures r.Some? ==> Fresh(r.value.entry, expire, now)
    ensures r.Some? ==> r.value.source == CacheMemory || r.value.source == CacheDisk
    ensures InMemory(t, p, expire, now) ==> r == Some(Found(CacheMemory, t.memory[p.key]))
    ensures r.Some? && r.value.source == CacheMemory ==> InMemory(t, p, expire, now)
    ensures r.Some? && r.value.source == CacheDisk ==>
              !InMemory(t, p, expire, now) && r.value.entry == t.files[p]
  {
    if InMemory(t, p, expire, now) then Some(Found(CacheMemory, t.memory[p.key]))
    else if OnDisk(t, p, expire, now) then Some(Found(CacheDisk, t.files[p]))
    else None
  }

  /**
   * `storeResponse:...toMemory:toDisk:` on the state: each selected tier afterwards
   * holds exactly `e` for the key, each unselected tier is unchanged, and no other
   * key or path changes.
   */
  function Store(t: Tiers, p: DiskPath, e: Entry, toMemory: bool, toDisk: bool): (u: Tiers)
    ensures toMemory ==> p.key in u.memory && u.memory[p.key] == e
    ensures toDisk ==> p in u.files && u.files[p] == e
    ensures !toMemory ==> u.memory == t.memory
    ensures !toDisk ==> u.files == t.files
    ensures u.memory - {p.key} == t.memory - {p.key} && u.files - {p} == t.files - {p}
  {
    Tiers(if toMemory then t.memory[p.key := e] else t.memory,
          if toDisk then t.files[p := e] else t.files)
  }

  /**
   * `deleteResponse...fromMemory:fromDisk:` on the state: each selected tier afterwards
   * has no entry for the key, each unselected tier is unchanged, and no other key or
   * path changes.
   */
  function Delete(t: Tiers, p: DiskPath, fromMemory: bool, fromDisk: bool): (u: Tiers)
    ensures fromMemory ==> p.key !in u.memory
    ensures fromDisk ==> p !in u.files
    ensures !fromMemory ==> u.memory == t.memory
    ensures !fromDisk ==> u.files == t.files
    ensures u.memory - {p.key} == t.memory - {p.key} && u.files - {p} == t.files - {p}
  {
    Tiers(if fromMemory then t.memory - {p.key} else t.memory,
          if fromDisk then t.files - {p} else t.files)
  }

  /**
   * The expiry boundary: an entry stays fresh until T + ttl and never becomes fresh
   * again; a longer expiry never turns a fresh entry stale; an expiry of 0 makes
   * every entry stale at or after its storing time.
   */
  lemma ExpiryBoundary(e: Entry, ttl: nat, now: int, earlier: int, longer: nat)
    requires earlier <= now && ttl <= longer
    ensures Fresh(e, Some(ttl), now) ==> Fresh(e, Some(ttl), earlier) && Fresh(e, Some(longer), now)
    ensures now >= e.storedAt + ttl ==> !Fresh(e, Some(ttl), now)
    ensures now >= e.storedAt ==> !Fresh(e, Some(0), now)
  {
  }

  /** Without an expiry, a tier check is plain presence, whatever the time. */
  lemma NeverExpiresCountsAnyEntry(t: Tiers, p: DiskPath, now: int)
    ensures InMemory(t, p, None, now) <==> p.key in t.memory
    ensures OnDisk(t, p, None, now) <==> p in t.files
    ensures Probe(t, p, None, now).Some? <==> p.key in t.memory || p in t.files
  {
  }

  /**
   * Selective store, as the tier checks see it: a fresh entry stored into a tier is
   * found there, and it is the stored one; the check of an unselected tier gives
   * what it gave before. Storing into memory makes the lookup report the memory tier.
   */
  lemma StoreSelectedTiers(t: Tiers, p: DiskPath, e: Entry, toMemory: bool, toDisk: bool, expire: Expiry, now: int)
    requires Fresh(e, expire, now)
    ensures var u := Store(t, p, e, toMemory, toDisk);
      (toMemory ==> InMemory(u, p, expire, now) && u.memory[p.key] == e &&
                    Probe(u, p, expire, now) == Some(Found(CacheMemory, e))) &&
      (toDisk ==> OnDisk(u, p, expire, now) && u.files[p] == e) &&
      (!toMemory ==> InMemory(u, p, expire, now) == InMemory(t, p, expire, now)) &&
      (!toDisk ==> OnDisk(u, p, expire, now) == OnDisk(t, p, expire, now))
  {
  }

  /**
   * Tier composition: an entry written to disk only is reported from the disk tier
   * when memory has no fresh entry for the key.
   */
  lemma DiskOnlyStoreReportsDisk(t: Tiers, p: DiskPath, e: Entry, expire: Expiry, now: int)
    requires Fresh(e, expire, now)
    requires !InMemory(t, p, expire, now)
    ensures Probe(Store(t, p, e, false, true), p, expire, now) == Some(Found(CacheDisk, e))
  {
  }

  /**
   * Selective delete, as the tier checks see it: a selected tier's check fails
   * afterwards, an unselected tier's check gives what it gave before; deleting from
   * both tiers leaves nothing to find, deleting from neither is a no-op.
   */
  lemma DeleteSelectedTiers(t: Tiers, p: DiskPath, fromMemory: bool, fromDisk: bool, expire: Expiry, now: int)
    ensures var u := Delete(t, p, fromMemory, fromDisk);
      (fromMemory ==> !InMemory(u, p, expire, now)) &&
      (fromDisk ==> !OnDisk(u, p, expire, now)) &&
      (!fromMemory ==> InMemory(u, p, expire, now) == InMemory(t, p, expire, now)) &&
      (!fromDisk ==> OnDisk(u, p, expire, now) == OnDisk(t, p, expire, now)) &&
      (fromMemory && fromDisk ==> Probe(u, p, expire, now) == None) &&
      (!fromMemory && !fromDisk ==> u == t)
  {
  }

  /** Deleting from both tiers undoes a store into both tiers, whatever was there before. */
  lemma DeleteAfterStore(t: Tiers, p: DiskPath, e: Entry)
    ensures Delete(Store(t, p, e, true, true), p, true, true) == Delete(t, p, true, true)
  {
    assert t.memory[p.key := e] - {p.key} == t.memory - {p.key};
    assert t.files[p := e] - {p} == t.files - {p};
  }

  /**
   * Namespace isolation: storing or deleting through a cache whose directory or
   * namespace differs from that of `q` leaves what is on disk at `q` as it was.
   */
  lemma NamespacesIsolated(t: Tiers, p: DiskPath, q: DiskPath, e: Entry, toMemory: bool, fromMemory: bool,
                           expire: Expiry, now: int)
    requires p.directory != q.directory || p.namespace != q.namespace
    ensures OnDisk(Store(t, p, e, toMemory, true), q, expire, now) == OnDisk(t, q, expire, now)
    ensures OnDisk(Delete(t, p, fromMemory, true), q, expire, now) == OnDisk(t, q, expire, now)
  {
  }

  /**
   * The files of one cache directory tree. Cache objects constructed over the same
   * `DiskStore` share its files; each keeps to its own directory and namespace.
   */
  class DiskStore {
    var files: map<DiskPath, Entry>

    /** A directory tree with no cache files yet. */
    constructor ()
      ensures files == map[]
    {
      files := map[];
    }
  }

  /** `ACNetCache`: one namespace of the disk store plus a memory tier of its own. */
  class NetCache {
    const namespace: string
    const directory: Option<string>
    /** The key generator the convenience API uses (`responseCache.keyGenerator`). */
    const keyGenerator: KeyGenerator
    const store: DiskStore
    var memory: map<Key, Entry>
    /** How many lookups (`fetchResponseForUrl`) this cache has answered. */
    ghost var lookups: nat

    /** `cacheWithNamespace:directiory:`: an empty memory tier over the given disk store. */
    constructor (namespace: string, directory: Option<string>, keyGenerator: KeyGenerator, store: DiskStore)
      ensures this.namespace == namespace && this.directory == directory
      ensures this.keyGenerator == keyGenerator && this.store == store
      ensures memory == map[] && lookups == 0
    {
      this.namespace := namespace;
      this.directory := directory;
      this.keyGenerator := keyGenerator;
      this.store := store;
      memory := map[];
      lookups := 0;
    }

    /** Where this cache keeps the disk entry for `key`. */
    function PathOf(key: Key): DiskPath
    {
      DiskPath(directory, namespace, key)
    }

    /** The tiers as this cache sees them. */
    function State(): Tiers
      reads this, store
    {
      Tiers(memory, store.files)
    }

    /** `memoryCacheExistsForUrl:params:[expires:]` */
    predicate MemoryCacheExists(key: Key, expire: Expiry, now: int)
      reads this, store
      ensures MemoryCacheExists(key, expire, now) <==> key in memory && Fresh(memory[key], expire, now)
      ensures expire.None? ==> (MemoryCacheExists(key, expire, now) <==> key in memory)
    {
      InMemory(State(), PathOf(key), expire, now)
    }

    /** `diskCacheExistsForUrl:params:[expires:]` */
    predicate DiskCacheExists(key: Key, expire: Expiry, now: int)
      reads this, store
      ensures DiskCacheExists(key, expire, now) <==>
                PathOf(key) in store.files && Fresh(store.files[PathOf(key)], expire, now)
      ensures expire.None? ==> (DiskCacheExists(key, expire, now) <==> PathOf(key) in store.files)
    {
      OnDisk(State(), PathOf(key), expire, now)
    }

    /** `netCacheExistsForUrl:params:[expires:]`: the combined check is a successful lookup. */
    predicate NetCacheExists(key: Key, expire: Expiry, now: int)
      reads this, store
      ensures NetCacheExists(key, expire, now) <==>
                MemoryCacheExists(key, expire, now) || DiskCacheExists(key, expire, now)
    {
      Probe(State(), PathOf(key), expire, now).Some?
    }

    /** `storeResponse:forUrl:params:`: store into both tiers, stamped with `now`. */
    method StoreResponse(response: Response, key: Key, now: int)
      modifies this, store
      ensures State() == Store(old(State()), PathOf(key), Entry(response, now), true, true)
      ensures lookups == old(lookups)
      ensures MemoryCacheExists(key, None, now) && DiskCacheExists(key, None, now)
    {
      StoreResponseTo(response, key, true, true, now);
    }

    /** `storeResponse:forUrl:params:toMemory:toDisk:` */
    method StoreResponseTo(response: Response, key: Key, toMemory: bool, toDisk: bool, now: int)
      modifies this, store
      ensures State() == Store(old(State()), PathOf(key), Entry(response, now), toMemory, toDisk)
      ensures lookups == old(lookups)
    {
      if toMemory {
        memory := memory[key := Entry(response, now)];
      }
      if toDisk {
        store.files := store.files[PathOf(key) := Entry(response, now)];
      }
    }

    /** `deleteResponseForUrl:params:`: remove from both tiers. */
    method DeleteResponse(key: Key)
      modifies this, store
      ensures State() == Delete(old(State()), PathOf(key), true, true)
      ensures lookups == old(lookups)
      ensures forall expire, now :: !NetCacheExists(key, expire, now)
    {
      DeleteResponseFrom(key, true, true);
    }

    /** `deleteResponseForUrl:params:fromMemory:fromDisk:` */
    method DeleteResponseFrom(key: Key, fromMemory: bool, fromDisk: bool)
      modifies this, store
      ensures State() == Delete(old(State()), PathOf(key), fromMemory, fromDisk)
      ensures lookups == old(lookups)
    {
      if fromMemory {
        memory := memory - {key};
      }
      if fromDisk {
        store.files := store.files - {PathOf(key)};
      }
    }

    /**
     * `fetchResponseForUrl:param:[expires:]completion:`: the tier that answered and
     * the entry, or `CacheNone` on a miss; the completion's arguments are the results.
     * The lookup changes no entry; it is counted in `lookups`.
     */
    method FetchResponse(key: Key, expire: Expiry, now: int) returns (source: CacheType, found: Option<Found>)
      modifies this
      ensures State() == old(State()) && lookups == old(lookups) + 1
      ensures found == Probe(State(), PathOf(key), expire, now)
      ensures found.None? <==> source == CacheNone
      ensures found.Some? ==> source == found.value.source
      ensures source == CacheMemory <==> MemoryCacheExists(key, expire, now)
      ensures source == CacheDisk <==> !MemoryCacheExists(key, expire, now) && DiskCacheExists(key, expire, now)
    {
      var p := PathOf(key);
      if key in memory && Fresh(memory[key], expire, now) {
        found := Some(Found(CacheMemory, memory[key]));
      } else if p in store.files && Fresh(store.files[p], expire, now) {
        found := Some(Found(CacheDisk, store.files[p]));
      } else {
        found := None;
      }
      source := if found.Some? then found.value.source else CacheNone;
      lookups := lookups + 1;
    }
  }
}
