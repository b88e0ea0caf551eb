# ACNetworking fetch strategies and response cache, in Dafny

This project models the core of ACNetworking, an Objective-C layer over an HTTP
client that decides, for every GET or POST, where the response comes from (the
memory cache, the disk cache or the network), how many times the completion block
fires and in what order, and what happens to the cached response afterwards.

The model follows the declarations and doc comments of the headers
`ACNetworkingManager.h`, `ACNetCache.h` and `ACNetCacheKeyGenerator.h`; the
implementation files behind them are not part of this model. Where the headers
are silent, the model makes the choices listed below under "Choices".

- `wrappers.dfy` (module `Wrappers`): `Option`, for nullable values.
- `cache.dfy` (module `Cache`): `ACNetCache`. The pure state `Tiers` (a memory map
  keyed by cache key, and the disk files keyed by directory, namespace and key),
  the freshness predicate, the memory-before-disk lookup `Probe`, and `Store` /
  `Delete` with per-tier selection, with lemmas about them. The classes `DiskStore`
  (the files of a cache directory, shared by the caches constructed over the same
  `DiskStore` object) and `NetCache` (its own memory tier, a namespace, a
  directory, a key generator) update their maps in place; each method is proved
  to equal the pure operation, and `NetCache` counts its lookups in a ghost field.
- `fetch_option.dfy` (module `FetchOption`): `ACNetworkingFetchOption` as a 64-bit
  mask, resolved to one primary mode plus two modifiers; precedence is proved
  against an independent rank function.
- `fetch_plan.dfy` (module `FetchPlan`): the fetch decision machine as a pure
  function `Plan` from (strategy, cache lookup, network outcome) to the sequence
  of steps a fetch takes — cache reads, the request, completion calls, cache
  store and delete — with one lemma per mode and one per modifier.
- `manager.dfy` (module `Manager`): `ACNetworkingManager`. `Fetch` (the
  `get:`/`post:` methods) runs step by step against its `NetCache` and is proved
  to take exactly the steps of `Plan`, to return the completion calls of the plan,
  to look the cache up exactly as often as the plan reads it, and to leave the
  cache as the plan's store/delete steps say. `Call` covers the convenience
  wrappers.

Choices where the headers are silent:

- An entry is fresh under expiry `ttl` when `now - storedAt < ttl`; no expiry
  (`None`, the overloads without `expires`) means never stale. Expiry 0 therefore
  makes every entry stale from the time it was stored on.
- `storeResponse:forUrl:params:` and the manager's cache update write both tiers.
- NetFirst after a failed request delivers a cache hit as a cache outcome (its
  tier, payload and date, no error); on a cache miss it delivers the network error.
- A completion call made before any request is issued passes a nil task; the
  LocalAndNet cached delivery is such a call.
- The multipart `postNet` uses NetOnly with NotUpdateCache ("no cache").
- A stale entry is not removed by a lookup.
- A disk hit is not copied into the memory tier.
- A successful response is stored in the cache after the completion call that
  delivers it (the headers fix the order only for DeleteCache, which runs after
  the completion).
- A nil per-call `keyGenerator` falls back to the cache's own key generator.

## Model

| member | source | states |
|---|---|---|
| `Cache.Fresh` | ACNetworking/ACNetCache.h:45-53 | without an expiry every entry is fresh; under expiry `ttl` an entry stored at T is fresh exactly while the time is before T + ttl |
| `Cache.Probe` | ACNetworking/ACNetCache.h:131-148 | a hit exists iff memory or disk holds a fresh entry; a hit is fresh; Memory is reported iff memory holds a fresh entry, and then with the memory entry; otherwise Disk with the disk entry |
| `Cache.Store` | ACNetworking/ACNetCache.h:102-111 | each selected tier holds exactly the stored entry for the key afterwards, each unselected tier is unchanged, no other key or path changes |
| `Cache.Delete` | ACNetworking/ACNetCache.h:121-129 | each selected tier has no entry for the key afterwards, each unselected tier is unchanged, no other key or path changes |
| `Cache.ExpiryBoundary` | ACNetworking/ACNetCache.h:45-53 | a fresh entry was fresh at every earlier time and stays fresh under a longer expiry; it is stale from T + ttl on; ttl 0 is stale from the storing time on |
| `Cache.NeverExpiresCountsAnyEntry` | ACNetworking/ACNetCache.h:36-43 | without an expiry each tier check, and the combined lookup, is plain presence at any time |
| `Cache.StoreSelectedTiers` | ACNetworking/ACNetCache.h:102-111 | after a store of a fresh entry, each selected tier's check holds with the stored entry itself (memory reported first); an unselected tier's check is unchanged |
| `Cache.DiskOnlyStoreReportsDisk` | ACNetworking/ACNetCache.h:102-111 | an entry stored to disk only is fetched with type Disk when memory holds nothing fresh |
| `Cache.DeleteSelectedTiers` | ACNetworking/ACNetCache.h:121-129 | after a delete each selected tier's check fails and each unselected tier's check is unchanged; both tiers leaves nothing to find; neither is a no-op |
| `Cache.DeleteAfterStore` | ACNetworking/ACNetCache.h:113-119 | deleting from both tiers after storing to both gives the same state as deleting alone |
| `Cache.NamespacesIsolated` | ACNetworking/ACNetCache.h:27-34 | store or delete under one directory/namespace leaves the disk entries of any other directory/namespace as they were |
| `Cache.DiskStore.constructor` | ACNetworking/ACNetCache.h:27-34 | a cache directory tree starts with no files |
| `Cache.NetCache.constructor` | ACNetworking/ACNetCache.h:27-34 | a new cache has its namespace, directory, key generator and disk store, an empty memory tier and no lookups yet |
| `Cache.NetCache.MemoryCacheExists` | ACNetworking/ACNetCache.h:55-72 | true iff the memory tier holds the key with an entry fresh under the given expiry; without expiry iff the memory tier holds the key |
| `Cache.NetCache.DiskCacheExists` | ACNetworking/ACNetCache.h:74-91 | true iff this cache's directory and namespace hold the key on disk with an entry fresh under the given expiry; without expiry iff one is present |
| `Cache.NetCache.NetCacheExists` | ACNetworking/ACNetCache.h:36-53 | true iff the memory check or the disk check is true |
| `Cache.NetCache.StoreResponse` | ACNetworking/ACNetCache.h:93-100 | writes both tiers, stamped with the current time; afterwards both checks without expiry hold; no lookup is counted |
| `Cache.NetCache.StoreResponseTo` | ACNetworking/ACNetCache.h:102-111 | the new state is the selective store of the old state |
| `Cache.NetCache.DeleteResponse` | ACNetworking/ACNetCache.h:113-119 | removes the key from both tiers; afterwards the combined check is false for every expiry and time |
| `Cache.NetCache.DeleteResponseFrom` | ACNetworking/ACNetCache.h:121-129 | the new state is the selective delete of the old state |
| `Cache.NetCache.FetchResponse` | ACNetworking/ACNetCache.h:131-148 | reports the memory-first lookup: type None iff nothing fresh, Memory iff the memory check holds, Disk iff only the disk check holds; changes no entry and counts one lookup |
| `FetchOption.FirstRaised` | ACNetworking/ACNetworkingManager.h:19-27 | the index found is the first mode, in declaration order, whose flag is raised, or the end when none is |
| `FetchOption.Resolve` | ACNetworking/ACNetworkingManager.h:16-33 | the honoured mode is raised unless it is the default NetFirst; each modifier is on iff its flag is raised |
| `FetchOption.ResolveHonoursPrecedence` | ACNetworking/ACNetworkingManager.h:17-27 | no raised mode outranks the resolved one (NetOnly > LocalOnly > LocalFirst > LocalAndNet > NetFirst) |
| `FetchOption.RankIsInjective` | ACNetworking/ACNetworkingManager.h:17-27 | distinct modes have distinct priorities, so the honoured mode is unique |
| `FetchOption.NetFirstFlagIrrelevant` | ACNetworking/ACNetworkingManager.h:17-18 | raising the NetFirst flag never changes the resolution, NetFirst being the default |
| `FetchOption.ModifiersDoNotAffectMode` | ACNetworking/ACNetworkingManager.h:28-32 | raising NotUpdateCache or DeleteCache leaves the primary mode unchanged and turns the modifier on |
| `FetchOption.NetOnlyBeatsLocalOnly` | ACNetworking/ACNetworkingManager.h:19-23 | any mask with NetOnly raised resolves to NetOnly |
| `FetchPlan.LocalPhase` | ACNetworking/ACNetworkingManager.h:22-27 | only the modes that read first have a local phase; it is one cache read followed by at most one completion call, so it issues no request and changes no cache entry |
| `FetchPlan.NetPhase` | ACNetworking/ACNetworkingManager.h:17-30 | only a fetch that issues the request has a network phase; it starts with the request, has two or three steps, and ends with storing the transport's response right after the completion call exactly when the request succeeded without NotUpdateCache, otherwise with the completion call |
| `FetchPlan.Plan` | ACNetworking/ACNetworkingManager.h:16-32 | a fetch has at least one step, and its last step is the cache delete exactly when DeleteCache is set (after the completion has run) |
| `FetchPlan.LocalPhaseDeliveries` | ACNetworking/ACNetworkingManager.h:22-27 | the local modes deliver a hit without a task, LocalOnly delivers a clean miss, nothing else is delivered before the request |
| `FetchPlan.NetPhaseDeliveries` | ACNetworking/ACNetworkingManager.h:17-27 | an issued request yields exactly one delivery: the network outcome, or for a failed NetFirst the cache hit if any |
| `FetchPlan.PlanDeliveries` | ACNetworking/ACNetworkingManager.h:35-44 | the completion calls of a fetch are those of the local phase followed by those of the network phase |
| `FetchPlan.CompletionContract` | ACNetworking/ACNetworkingManager.h:35-44 | for every completion call of every fetch: a cache date iff type Memory or Disk; an error only with type Net after a failed request, and it is the transport's own error; type Net carries a task and, after a success, the transport's own response; Memory or Disk is the lookup's hit with its response and date and no error; type None is LocalOnly's clean miss |
| `FetchPlan.RequestIssued` | ACNetworking/ACNetworkingManager.h:17-27 | the request is issued iff the mode is NetOnly, NetFirst or LocalAndNet, or LocalFirst with no hit |
| `FetchPlan.CacheLookups` | ACNetworking/ACNetworkingManager.h:17-27 | a fetch reads the cache once under LocalOnly, LocalFirst and LocalAndNet and under NetFirst after a failed request, and never otherwise (never under NetOnly, never under a successful NetFirst) |
| `FetchPlan.LocalPhaseLookups` | ACNetworking/ACNetworkingManager.h:22-27 | the local phase reads the cache once for the modes that read first and never for the others |
| `FetchPlan.NetPhaseLookups` | ACNetworking/ACNetworkingManager.h:17-18 | the network phase reads the cache only for the fallback of a failed NetFirst request |
| `FetchPlan.DeliveryCount` | ACNetworking/ACNetworkingManager.h:26-27 | the completion fires at least once and at most twice; twice exactly for LocalAndNet with a hit |
| `FetchPlan.NetOnlyPlan` | ACNetworking/ACNetworkingManager.h:20-21 | NetOnly never reads the cache, issues the request and delivers only the network outcome |
| `FetchPlan.LocalOnlyPlan` | ACNetworking/ACNetworkingManager.h:22-23 | LocalOnly never issues a request and delivers only the hit (no task) or a clean miss |
| `FetchPlan.LocalFirstPlan` | ACNetworking/ACNetworkingManager.h:24-25 | LocalFirst reads first; a hit is delivered with no request; a miss issues the request and delivers its outcome |
| `FetchPlan.LocalAndNetPlan` | ACNetworking/ACNetworkingManager.h:26-27 | LocalAndNet reads first and always issues the request; a hit is delivered before the network outcome |
| `FetchPlan.NetFirstPlan` | ACNetworking/ACNetworkingManager.h:17-18 | NetFirst requests first; on success it delivers the outcome without reading the cache; on failure it reads the cache and delivers the hit, or the error on a miss |
| `FetchPlan.SuccessUpdatesCache` | ACNetworking/ACNetworkingManager.h:29-30 | a successful request stores the response in both tiers unless NotUpdateCache is set |
| `FetchPlan.CacheUntouched` | ACNetworking/ACNetworkingManager.h:29-30 | without DeleteCache the cache is unchanged under NotUpdateCache, after a failed request, or when no request is issued |
| `FetchPlan.DeleteCacheClears` | ACNetworking/ACNetworkingManager.h:31-32 | with DeleteCache, under any mode and outcome, the fetch ends with the key deleted from both tiers and nothing else changed |
| `FetchPlan.PlanEffect` | ACNetworking/ACNetworkingManager.h:28-32 | the cache after any fetch: the response stored in both tiers iff the request was issued and succeeded without NotUpdateCache, then the key removed from both tiers iff DeleteCache |
| `FetchPlan.NetOnlyAndLocalOnlyActAsNetOnly` | ACNetworking/ACNetworkingManager.h:19-23 | NetOnly together with LocalOnly takes the steps of NetOnly alone and never reads the cache |
| `FetchPlan.SuppressedWriteLeavesMiss` | ACNetworking/ACNetworkingManager.h:29-30 | after a NotUpdateCache fetch over an empty cache, a LocalOnly fetch delivers a clean miss |
| `FetchPlan.DeletedLeavesMiss` | ACNetworking/ACNetworkingManager.h:31-32 | after any DeleteCache fetch, a LocalOnly fetch of the key delivers a clean miss |
| `FetchPlan.ExpiryScenario` | ACNetworking/ACNetworkingManager.h:98-103 | with expiry 60: NetFirst caches P1; LocalFirst 30 s later delivers P1 from memory with no request; at 90 s the entry is stale and the network answers |
| `Manager.WrapperOptions` | ACNetworking/ACNetworkingManager.h:161-168 | Net resolves to NetOnly, Request to NetFirst, Data to LocalFirst, LocalAndNet to LocalAndNet, Local to LocalOnly, all without modifiers; the multipart upload to NetOnly with NotUpdateCache; no `expires` means never expires |
| `Manager.NetworkingManager.constructor` | ACNetworking/ACNetworkingManager.h:76-83 | the manager uses the given response cache |
| `Manager.NetworkingManager.KeyFor` | ACNetworking/ACNetworkingManager.h:116-122 | the cache key comes from the per-call key generator when one is given, and from the cache's own key generator otherwise |
| `Manager.NetworkingManager.Fetch` | ACNetworking/ACNetworkingManager.h:98-159 | the steps taken are `Plan` of the resolved options, the lookup before the call and the network outcome; the completion calls are the plan's; the task is non-nil iff the request was issued; the cache is looked up exactly as many times as the plan reads it; the new cache is the old one with the plan's store/delete applied |
| `Manager.NetworkingManager.RunPhases` | ACNetworking/ACNetworkingManager.h:98-103 | the local phase then the network phase: their steps and completion calls in that order, a task iff the request is issued, one lookup per read step, and the response stored in both tiers iff the request succeeded without NotUpdateCache |
| `Manager.NetworkingManager.ReadLocal` | ACNetworking/ACNetworkingManager.h:22-27 | the local phase: a lookup only for the modes that read first (counted once), no cache entry changed, and the plan's local steps and deliveries |
| `Manager.NetworkingManager.RunNetwork` | ACNetworking/ACNetworkingManager.h:17-30 | the network phase: the plan's network steps and deliveries; one lookup per read step (only a failed NetFirst reads); a task iff the request is issued; the cache gains the response in both tiers iff the request succeeded without NotUpdateCache |
| `Manager.NetworkingManager.Call` | ACNetworking/ACNetworkingManager.h:170-350 | each convenience method is `Fetch` with its fixed options and the cache's key generator, looking the cache up exactly as often as its plan reads it (so Request reads only after a failed request); Local never issues a request and looks the cache up once; Net and the multipart upload always issue it and never look the cache up; the upload leaves the cache unchanged |

## Left out

- The transport (`AFHTTPSessionManager`, `NSURLSessionDataTask`, progress blocks, multipart body construction): the network is the parameter `net`, the outcome of the one request a fetch may issue, and the task is a flag saying whether a request was issued.
- Disk persistence and file I/O: the disk tier is the in-memory map of a `DiskStore`; I/O failures and survival across restarts are not modelled.
- Asynchronous delivery and thread safety: a fetch runs sequentially, and its completion calls are returned as an ordered list; cancellation is not modelled.
- Floating-point time (`NSTimeInterval`, `NSDate`): time is integer seconds passed in as `now`; a stored response is stamped with the `now` of its fetch.
- `Expire_Time` is not defined in the headers: an expiry is an optional number of seconds, `None` meaning never expires.
- The `sharedCache` singleton and the `manager` / `managerWithSessionManager:` factories: caches and managers are built explicitly with their constructors.
- `DefaultKeyGenerator`: a key generator is any function of (url, params); no hashing is modelled, and the cache operations take the key the generator produced rather than the url and parameters.
- Any eviction or size bound of the memory tier.
- A disk shared by path: two caches see each other's disk entries only when they are constructed over the same `DiskStore` object; two `DiskStore` objects standing for the same directory on a real disk are not identified.
- `ACNetCacheFetchCompletion` is a block: `FetchResponse` returns its arguments (the type and the entry) instead.
