/**
 * `ACNetworkingManager`: runs one fetch against its response cache. The network is
 * a parameter (`net`, what the request returns if it is issued) and the clock is
 * `now`; the completion calls are returned as the list of deliveries, in order.
 */
module Manager {
  import opened Wrappers
  import opened Cache
  import opened FetchOption
  import opened FetchPlan

  /** GET or POST: only the HTTP method the transport uses differs. */
  datatype Verb = Get | Post

  /**
   * The convenience methods: `get`/`post` + `Net`, `Request`, `Data`, `LocalAndNet`,
   * `Local`, and the multipart `postNet:...constructingBlock:`. An `expire` of `None`
   * is the overload without `expires:`.
   */
  datatype Wrapper =
    | WrapNet
    | WrapRequest(expire: Expiry)
    | WrapData(expire: Expiry)
    | WrapLocalAndNet(expire: Expiry)
    | WrapLocal
    | WrapFormNet

  /** The option mask and expiry each convenience method passes to `get:`/`post:`. */
  function WrapperOptions(w: Wrapper): (r: (bv64, Expiry))
    ensures w.WrapNet? ==> Resolve(r.0) == Strategy(NetOnly, false, false) && r.1 == None
    ensures w.WrapRequest? ==> Resolve(r.0) == Strategy(NetFirst, false, false) && r.1 == w.expire
    ensures w.WrapData? ==> Resolve(r.0) == Strategy(LocalFirst, false, false) && r.1 == w.expire
    ensures w.WrapLocalAndNet? ==> Resolve(r.0) == Strategy(LocalAndNet, false, false) && r.1 == w.expire
    ensures w.WrapLocal? ==> Resolve(r.0) == Strategy(LocalOnly, false, false) && r.1 == None
    ensures w.WrapFormNet? ==> Resolve(r.0) == Strategy(NetOnly, true, false) && r.1 == None
  {
    match w
    case WrapNet => (NetOnlyFlag, None)
    case WrapRequest(e) => (NetFirstFlag, e)
    case WrapData(e) => (LocalFirstFlag, e)
    case WrapLocalAndNet(e) => (LocalAndNetFlag, e)
    case WrapLocal => (LocalOnlyFlag, None)
    case WrapFormNet => (NetOnlyFlag | NotUpdateCacheFlag, None)
  }

  class NetworkingManager {
    /** The cache the manager reads and updates (`responseCache`). */
    const responseCache: NetCache

    /** `initWithSessionManager:responseCache:` (the session manager is the transport). */
    constructor (responseCache: NetCache)
      ensures this.responseCache == responseCache
    {
      this.responseCache := responseCache;
    }

    /** The key of a request: from the per-call generator if one is given, else the cache's. */
    function KeyFor(generator: Option<KeyGenerator>, url: string, params: Params): (k: Key)
      ensures generator.Some? ==> k == generator.value(url, params)
      ensures generator.None? ==> k == responseCache.keyGenerator(url, params)
    {
      generator.GetOr(responseCache.keyGenerator)(url, params)
    }

    /**
     * `get:`/`post:expires:options:parameters:[keyGenerator:]progress:completion:`.
     * The steps taken are those of `Plan` for the resolved options, the cache's
     * lookup as it stood before the call and the network outcome; `task` is
     * non-nil exactly when the request was issued; the cache is looked up once per
     * read step of the plan and no more; the cache afterwards is the old one with
     * the plan's store and delete steps applied.
     */
    method Fetch(verb: Verb, url: string, expire: Expiry, options: bv64, params: Params,
                 generator: Option<KeyGenerator>, net: NetResult, now: int)
      returns (task: bool, deliveries: seq<Delivery>, ghost trace: seq<Event>)
      modifies responseCache, responseCache.store
      ensures var p := responseCache.PathOf(KeyFor(generator, url, params));
              trace == Plan(Resolve(options), Probe(old(responseCache.State()), p, expire, now), net) &&
              deliveries == Deliveries(trace) &&
              (task <==> Request in trace) &&
              responseCache.lookups == old(responseCache.lookups) + Lookups(trace) &&
              responseCache.State() == ApplyAll(old(responseCache.State()), p, trace, now)
    {
      var s := Resolve(options);
      var key := KeyFor(generator, url, params);
      ghost var t0 := responseCache.State();
      ghost var p := responseCache.PathOf(key);
      ghost var hit := Probe(t0, p, expire, now);

      task, deliveries, trace := RunPhases(s, key, expire, net, now);

      // DeleteCache: after the completion has run.
      if s.deleteCache {
        responseCache.DeleteResponse(key);
        LookupsAppend(trace, [DeleteCache]);
        LookupsOfStep(DeleteCache);
        trace := trace + [DeleteCache];
      }
      PlanEffect(t0, p, s, hit, net, now);
      PlanDeliveries(s, hit, net);
      RequestIssued(s, hit, net);
    }

    /** The local phase followed by the network phase of a fetch with strategy `s`. */
    method RunPhases(s: Strategy, key: Key, expire: Expiry, net: NetResult, now: int)
      returns (task: bool, deliveries: seq<Delivery>, ghost steps: seq<Event>)
      modifies responseCache, responseCache.store
      ensures var p := responseCache.PathOf(key);
              var hit := Probe(old(responseCache.State()), p, expire, now);
              steps == LocalPhase(s.mode, hit) + NetPhase(s, hit, net) &&
              deliveries == Deliveries(LocalPhase(s.mode, hit)) + Deliveries(NetPhase(s, hit, net)) &&
              (task <==> IssuesRequest(s.mode, hit)) &&
              responseCache.lookups == old(responseCache.lookups) + Lookups(steps) &&
              responseCache.State() ==
                if task && net.Succeeded? && !s.notUpdateCache
                then Store(old(responseCache.State()), p, Entry(net.response, now), true, true)
                else old(responseCache.State())
    {
      var found, localDeliveries, localSteps := ReadLocal(s.mode, key, expire, now);
      var netDeliveries;
      ghost var netSteps;
      task, netDeliveries, netSteps := RunNetwork(s, key, expire, found, net, now);
      deliveries := localDeliveries + netDeliveries;
      steps := localSteps + netSteps;
      LookupsAppend(localSteps, netSteps);
    }

    /**
     * The local phase of a fetch: the modes that read first look the key up and
     * deliver a hit without a task (LocalOnly also delivers a miss). The lookup
     * is the only access to the cache, and it changes no entry.
     */
    method ReadLocal(mode: Mode, key: Key, expire: Expiry, now: int)
      returns (found: Option<Found>, delivered: seq<Delivery>, ghost steps: seq<Event>)
      modifies responseCache
      ensures responseCache.State() == old(responseCache.State())
      ensures found == if ReadsFirst(mode)
                       then Probe(old(responseCache.State()), responseCache.PathOf(key), expire, now)
                       else None
      ensures delivered ==
                Deliveries(LocalPhase(mode, Probe(old(responseCache.State()), responseCache.PathOf(key), expire, now)))
      ensures steps == LocalPhase(mode, Probe(old(responseCache.State()), responseCache.PathOf(key), expire, now))
      ensures responseCache.lookups == old(responseCache.lookups) + Lookups(steps)
    {
      ghost var hit := Probe(responseCache.State(), responseCache.PathOf(key), expire, now);
      found, delivered, steps := None, [], [];
      if ReadsFirst(mode) {
        var source;
        source, found := responseCache.FetchResponse(key, expire, now);
        steps := [ReadCache];
        if found.Some? {
          var d := CacheDelivery(false, found.value);
          delivered := [d];
          steps := steps + [Deliver(d)];
        } else if mode == LocalOnly {
          delivered := [MissDelivery];
          steps := steps + [Deliver(MissDelivery)];
        }
      }
      LocalPhaseDeliveries(mode, hit);
      LocalPhaseLookups(mode, hit);
    }

    /**
     * The network phase of a fetch: issue the request unless the mode (or a
     * LocalFirst hit) rules it out; NetFirst falls back to the cache after a
     * failure; a successful response is stored in both tiers unless NotUpdateCache.
     */
    method RunNetwork(s: Strategy, key: Key, expire: Expiry, found: Option<Found>, net: NetResult, now: int)
      returns (task: bool, delivered: seq<Delivery>, ghost steps: seq<Event>)
      requires found == if ReadsFirst(s.mode)
                        then Probe(responseCache.State(), responseCache.PathOf(key), expire, now)
                        else None
      modifies responseCache, responseCache.store
      ensures var p := responseCache.PathOf(key);
              var hit := Probe(old(responseCache.State()), p, expire, now);
              steps == NetPhase(s, hit, net) &&
              delivered == Deliveries(steps) &&
              (task <==> IssuesRequest(s.mode, hit)) &&
              responseCache.lookups == old(responseCache.lookups) + Lookups(steps) &&
              responseCache.State() ==
                if task && net.Succeeded? && !s.notUpdateCache
                then Store(old(responseCache.State()), p, Entry(net.response, now), true, true)
                else old(responseCache.State())
    {
      ghost var hit := Probe(responseCache.State(), responseCache.PathOf(key), expire, now);
      task, delivered, steps := false, [], [];
      if IssuesRequest(s.mode, found) {
        task := true;
        steps := [Request];
        var d := NetDelivery(net);
        if s.mode == NetFirst && net.Failed? {
          var source, fallback := responseCache.FetchResponse(key, expire, now);
          steps := steps + [ReadCache];
          if fallback.Some? {
            d := CacheDelivery(true, fallback.value);
          }
        }
        delivered := [d];
        steps := steps + [Deliver(d)];
        if net.Succeeded? && !s.notUpdateCache {
          responseCache.StoreResponse(net.response, key, now);
          steps := steps + [StoreCache(net.response)];
        }
      }
      NetPhaseDeliveries(s, hit, net);
      NetPhaseLookups(s, hit, net);
    }

    /**
     * The convenience methods: `Fetch` with the wrapper's options and expiry and the
     * cache's own key generator. The local-only wrappers never issue a request; the
     * network-only ones always do; the multipart upload never touches the cache.
     */
    method Call(verb: Verb, w: Wrapper, url: string, params: Params, net: NetResult, now: int)
      returns (task: bool, deliveries: seq<Delivery>, ghost trace: seq<Event>)
      requires w.WrapFormNet? ==> verb == Post
      modifies responseCache, responseCache.store
      ensures var p := responseCache.PathOf(responseCache.keyGenerator(url, params));
              trace == Plan(Resolve(WrapperOptions(w).0),
                            Probe(old(responseCache.State()), p, WrapperOptions(w).1, now), net) &&
              deliveries == Deliveries(trace) &&
              (task <==> Request in trace) &&
              responseCache.lookups == old(responseCache.lookups) + Lookups(trace) &&
              responseCache.State() == ApplyAll(old(responseCache.State()), p, trace, now)
      ensures w.WrapLocal? ==> !task && responseCache.lookups == old(responseCache.lookups) + 1
      ensures w.WrapNet? || w.WrapFormNet? ==> task && responseCache.lookups == old(responseCache.lookups)
      ensures w.WrapFormNet? ==> responseCache.State() == old(responseCache.State())
    {
      var (options, expire) := WrapperOptions(w);
      ghost var t0 := responseCache.State();
      task, deliveries, trace := Fetch(verb, url, expire, options, params, None, net, now);
      ghost var p := responseCache.PathOf(responseCache.keyGenerator(url, params));
      ghost var hit := Probe(t0, p, expire, now);
      ghost var s := Resolve(options);
      CacheLookups(s, hit, net);
      if w.WrapLocal? {
        LocalOnlyPlan(s, hit, net);
      }
      if w.WrapNet? || w.WrapFormNet? {
        NetOnlyPlan(s, hit, net);
      }
      if w.WrapFormNet? {
        CacheUntouched(t0, p, s, hit, net, now);
      }
    }
  }
}
