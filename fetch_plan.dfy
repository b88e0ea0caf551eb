/**
 * The fetch decision machine behind `get:`/`post:expires:options:...`: for a resolved
 * strategy, the cache lookup result and the network outcome, the sequence of steps
 * the fetch takes (cache reads, the request, deliveries to the completion, cache
 * updates) in the order it takes them. The manager's fetch is proved to take
 * exactly these steps.
 */
module FetchPlan {
  import opened Wrappers
  import opened Cache
  import opened FetchOption

  /** An `NSError` from the transport; its contents are opaque here. */
  type NetError = string

  /** What the transport reports for the one request a fetch may issue. */
  datatype NetResult = Succeeded(response: Response) | Failed(error: NetError)

  /**
   * One call of `ACNetworkingCompletion`: whether a task is passed (nil when only the
   * local cache was read), the cache type, the response, the error and the cache date.
   */
  datatype Delivery = Delivery(task: bool, source: CacheType, response: Option<Response>,
                               error: Option<NetError>, cacheDate: Option<int>)

  /** One step of a fetch. */
  datatype Event = ReadCache | Request | Deliver(delivery: Delivery) | StoreCache(response: Response) | DeleteCache

  /** The delivery of a network outcome: type Net, with the transport's own response or error. */
  function NetDelivery(net: NetResult): (d: Delivery)
    ensures d.task && d.source == CacheNet && d.cacheDate.None?
    ensures net.Succeeded? ==> d.response == Some(net.response) && d.error.None?
    ensures net.Failed? ==> d.error == Some(net.error) && d.response.None?
  {
    match net
    case Succeeded(r) => Delivery(true, CacheNet, Some(r), None, None)
    case Failed(e) => Delivery(true, CacheNet, None, Some(e), None)
  }

  /** The delivery of a cache hit: its tier, its response and the date it was stored. */
  function CacheDelivery(task: bool, f: Found): Delivery
  {
    Delivery(task, f.source, Some(f.entry.response), None, Some(f.entry.storedAt))
  }

  /** The delivery of a local miss: nothing at all. */
  const MissDelivery: Delivery := Delivery(false, CacheNone, None, None, None)

  /** The modes that read the cache before deciding on the network. */
  predicate ReadsFirst(m: Mode)
  {
    m == LocalOnly || m == LocalFirst || m == LocalAndNet
  }

  /** The modes (and, for LocalFirst, the lookups) that issue the request. */
  predicate IssuesRequest(m: Mode, hit: Option<Found>)
  {
    m == NetOnly || m == NetFirst || m == LocalAndNet || (m == LocalFirst && hit.None?)
  }

  /**
   * The local phase: read the cache, deliver a hit; LocalOnly also delivers a miss.
   * Only the modes that read first have one, and it is the read followed by at
   * most one completion call: no request and no change to the cache.
   */
  function LocalPhase(m: Mode, hit: Option<Found>): (r: seq<Event>)
    ensures ReadsFirst(m) <==> r != []
    ensures r != [] ==> r[0] == ReadCache && |r| <= 2 && (|r| == 2 ==> r[1].Deliver?)
  {
    if !ReadsFirst(m) then []
    else if hit.Some? then [ReadCache, Deliver(CacheDelivery(false, hit.value))]
    else if m == LocalOnly then [ReadCache, Deliver(MissDelivery)]
    else [ReadCache]
  }

  /**
   * The network phase: issue the request; NetFirst reads the cache after a failure
   * and delivers a hit in place of the error; a successful response is stored
   * unless NotUpdateCache is set. Only a fetch that issues the request has one; it
   * starts with the request, and it ends with the store of the transport's response
   * exactly when that succeeded without NotUpdateCache, right after the completion
   * call, or else with the completion call.
   */
  function NetPhase(s: Strategy, hit: Option<Found>, net: NetResult): (r: seq<Event>)
    ensures IssuesRequest(s.mode, hit) <==> r != []
    ensures r != [] ==> r[0] == Request && 2 <= |r| <= 3
    ensures r != [] ==> (r[|r| - 1].StoreCache? <==> net.Succeeded? && !s.notUpdateCache)
    ensures r != [] && r[|r| - 1].StoreCache? ==> r[|r| - 1].response == net.response && r[|r| - 2].Deliver?
    ensures r != [] && !r[|r| - 1].StoreCache? ==> r[|r| - 1].Deliver?
  {
    if !IssuesRequest(s.mode, hit) then []
    else
      [Request]
      + (if s.mode == NetFirst && net.Failed? then
           [ReadCache, Deliver(if hit.Some? then CacheDelivery(true, hit.value) else NetDelivery(net))]
         else [Deliver(NetDelivery(net))])
      + (if net.Succeeded? && !s.notUpdateCache then [StoreCache(net.response)] else [])
  }

  /**
   * All steps of a fetch with strategy `s`, where `hit` is what the cache lookup
   * returns (used only by the steps that read the cache) and `net` is what the
   * request returns (used only when it is issued). DeleteCache comes last, after
   * the completion has run, and only when its flag is set.
   */
  function Plan(s: Strategy, hit: Option<Found>, net: NetResult): (r: seq<Event>)
    ensures r != [] && (r[|r| - 1] == DeleteCache <==> s.deleteCache)
  {
    LocalPhase(s.mode, hit) + NetPhase(s, hit, net) + (if s.deleteCache then [DeleteCache] else [])
  }

  /** The completion calls of a trace, in order. */
  function Deliveries(trace: seq<Event>): seq<Delivery>
    decreases |trace|
  {
    if trace == [] then []
    else (if trace[0].Deliver? then [trace[0].delivery] else []) + Deliveries(trace[1..])
  }

  /** The cache after a trace's StoreCache (both tiers, stamped `now`) and DeleteCache (both tiers) steps. */
  function ApplyAll(t: Tiers, p: DiskPath, trace: seq<Event>, now: int): Tiers
    decreases |trace|
  {
    if trace == [] then t
    else
      var t' := match trace[0]
                case StoreCache(r) => Store(t, p, Entry(r, now), true, true)
                case DeleteCache => Delete(t, p, true, true)
                case _ => t;
      ApplyAll(t', p, trace[1..], now)
  }

  /** How many times a trace looks the cache up. */
  function Lookups(trace: seq<Event>): nat
    decreases |trace|
  {
    if trace == [] then 0
    else (if trace[0] == ReadCache then 1 else 0) + Lookups(trace[1..])
  }

  lemma {:induction false} DeliveriesAppend(a: seq<Event>, b: seq<Event>)
    ensures Deliveries(a + b) == Deliveries(a) + Deliveries(b)
    decreases |a|
  {
    if a != [] {
      assert (a + b)[0] == a[0];
      assert (a + b)[1..] == a[1..] + b;
      DeliveriesAppend(a[1..], b);
    } else {
      assert a + b == b;
    }
  }

  lemma {:induction false} ApplyAllAppend(t: Tiers, p: DiskPath, a: seq<Event>, b: seq<Event>, now: int)
    ensures ApplyAll(t, p, a + b, now) == ApplyAll(ApplyAll(t, p, a, now), p, b, now)
    decreases |a|
  {
    if a != [] {
      assert (a + b)[0] == a[0];
      assert (a + b)[1..] == a[1..] + b;
      var t' := match a[0]
                case StoreCache(r) => Store(t, p, Entry(r, now), true, true)
                case DeleteCache => Delete(t, p, true, true)
                case _ => t;
      ApplyAllAppend(t', p, a[1..], b, now);
    } else {
      assert a + b == b;
    }
  }

  lemma {:induction false} LookupsAppend(a: seq<Event>, b: seq<Event>)
    ensures Lookups(a + b) == Lookups(a) + Lookups(b)
    decreases |a|
  {
    if a != [] {
      assert (a + b)[0] == a[0];
      assert (a + b)[1..] == a[1..] + b;
      LookupsAppend(a[1..], b);
    } else {
      assert a + b == b;
    }
  }

  /** The lookups of a one-step trace. */
  lemma LookupsOfStep(e: Event)
    ensures Lookups([e]) == if e == ReadCache then 1 else 0
  {
    assert [e][1..] == [];
  }

  /** A trace without StoreCache and DeleteCache steps leaves the cache alone. */
  lemma {:induction false} ApplyAllReadOnly(t: Tiers, p: DiskPath, trace: seq<Event>, now: int)
    requires forall i :: 0 <= i < |trace| ==> !trace[i].StoreCache? && !trace[i].DeleteCache?
    ensures ApplyAll(t, p, trace, now) == t
    decreases |trace|
  {
    if trace != [] {
      ApplyAllReadOnly(t, p, trace[1..], now);
    }
  }

  /** A trace without completion calls delivers nothing. */
  lemma {:induction false} NoDeliveries(trace: seq<Event>)
    requires forall i :: 0 <= i < |trace| ==> !trace[i].Deliver?
    ensures Deliveries(trace) == []
    decreases |trace|
  {
    if trace != [] {
      NoDeliveries(trace[1..]);
    }
  }

  /** A trace with one completion call, surrounded by other steps, delivers exactly that call. */
  lemma SingleDelivery(before: seq<Event>, d: Delivery, after: seq<Event>)
    requires forall i :: 0 <= i < |before| ==> !before[i].Deliver?
    requires forall i :: 0 <= i < |after| ==> !after[i].Deliver?
    ensures Deliveries(before + [Deliver(d)] + after) == [d]
  {
    DeliveriesAppend(before + [Deliver(d)], after);
    DeliveriesAppend(before, [Deliver(d)]);
    NoDeliveries(before);
    NoDeliveries(after);
    DeliveriesOfStep(Deliver(d));
  }

  /** The completion calls of a one-step trace. */
  lemma DeliveriesOfStep(e: Event)
    ensures Deliveries([e]) == if e.Deliver? then [e.delivery] else []
  {
    assert [e][1..] == [];
  }

  /** The completion calls of a two-step trace. */
  lemma DeliveriesOfSteps(e: Event, f: Event)
    ensures Deliveries([e, f]) == Deliveries([e]) + Deliveries([f])
  {
    assert [e, f] == [e] + [f];
    DeliveriesAppend([e], [f]);
  }

  /** The local phase delivers a hit, or a miss under LocalOnly, and nothing else. */
  lemma LocalPhaseDeliveries(m: Mode, hit: Option<Found>)
    ensures Deliveries(LocalPhase(m, hit)) ==
              if !ReadsFirst(m) then []
              else if hit.Some? then [CacheDelivery(false, hit.value)]
              else if m == LocalOnly then [MissDelivery]
              else []
  {
    var local := LocalPhase(m, hit);
    DeliveriesOfStep(ReadCache);
    if ReadsFirst(m) && (hit.Some? || m == LocalOnly) {
      DeliveriesOfSteps(local[0], local[1]);
      DeliveriesOfStep(local[1]);
    }
  }

  /** The network phase delivers exactly once when the request is issued, and nothing otherwise. */
  lemma NetPhaseDeliveries(s: Strategy, hit: Option<Found>, net: NetResult)
    ensures Deliveries(NetPhase(s, hit, net)) ==
              if !IssuesRequest(s.mode, hit) then []
              else if s.mode == NetFirst && net.Failed? then
                [if hit.Some? then CacheDelivery(true, hit.value) else NetDelivery(net)]
              else [NetDelivery(net)]
  {
    if IssuesRequest(s.mode, hit) {
      var fallback := s.mode == NetFirst && net.Failed?;
      var d := if fallback then (if hit.Some? then CacheDelivery(true, hit.value) else NetDelivery(net))
               else NetDelivery(net);
      var before: seq<Event> := if fallback then [Request, ReadCache] else [Request];
      var after: seq<Event> := if net.Succeeded? && !s.notUpdateCache then [StoreCache(net.response)] else [];
      assert NetPhase(s, hit, net) == before + [Deliver(d)] + after;
      SingleDelivery(before, d, after);
    }
  }


  /** The deliveries of a plan are those of its local phase followed by those of its network phase. */
  lemma PlanDeliveries(s: Strategy, hit: Option<Found>, net: NetResult)
    ensures Deliveries(Plan(s, hit, net)) ==
              Deliveries(LocalPhase(s.mode, hit)) + Deliveries(NetPhase(s, hit, net))
  {
    var local := LocalPhase(s.mode, hit);
    var remote := NetPhase(s, hit, net);
    var del: seq<Event> := if s.deleteCache then [DeleteCache] else [];
    DeliveriesAppend(local + remote, del);
    DeliveriesAppend(local, remote);
    if s.deleteCache { DeliveriesOfStep(DeleteCache); }
  }

  /** The request is issued exactly when the mode (and, for LocalFirst, a miss) calls for it. */
  lemma RequestIssued(s: Strategy, hit: Option<Found>, net: NetResult)
    ensures Request in Plan(s, hit, net) <==> IssuesRequest(s.mode, hit)
  {
    var trace := Plan(s, hit, net);
    if IssuesRequest(s.mode, hit) {
      assert trace[|LocalPhase(s.mode, hit)|] == Request;
    } else {
      assert forall i :: 0 <= i < |trace| ==> trace[i] != Request;
    }
  }

  /**
   * The cache is looked up once by the modes that read first and once by a NetFirst
   * fetch whose request failed, and never otherwise: NetOnly never reads it, and
   * NetFirst reads it only after a failure.
   */
  lemma CacheLookups(s: Strategy, hit: Option<Found>, net: NetResult)
    ensures Lookups(Plan(s, hit, net)) ==
              if ReadsFirst(s.mode) || (s.mode == NetFirst && net.Failed?) then 1 else 0
  {
    var local := LocalPhase(s.mode, hit);
    var remote := NetPhase(s, hit, net);
    var del: seq<Event> := if s.deleteCache then [DeleteCache] else [];
    LookupsAppend(local + remote, del);
    LookupsAppend(local, remote);
    if s.deleteCache { LookupsOfStep(DeleteCache); }
    LocalPhaseLookups(s.mode, hit);
    NetPhaseLookups(s, hit, net);
  }

  /** The local phase reads the cache once for the modes that read first. */
  lemma LocalPhaseLookups(m: Mode, hit: Option<Found>)
    ensures Lookups(LocalPhase(m, hit)) == if ReadsFirst(m) then 1 else 0
  {
    var local := LocalPhase(m, hit);
    LookupsOfStep(ReadCache);
    if ReadsFirst(m) && (hit.Some? || m == LocalOnly) {
      assert local == [ReadCache] + [local[1]];
      LookupsAppend([ReadCache], [local[1]]);
      LookupsOfStep(local[1]);
    }
  }

  /** The network phase reads the cache only for a NetFirst fetch whose request failed. */
  lemma NetPhaseLookups(s: Strategy, hit: Option<Found>, net: NetResult)
    ensures Lookups(NetPhase(s, hit, net)) ==
              if IssuesRequest(s.mode, hit) && s.mode == NetFirst && net.Failed? then 1 else 0
  {
    if IssuesRequest(s.mode, hit) {
      var d := if s.mode == NetFirst && net.Failed? then
                 (if hit.Some? then CacheDelivery(true, hit.value) else NetDelivery(net))
               else NetDelivery(net);
      var middle: seq<Event> := if s.mode == NetFirst && net.Failed? then [ReadCache, Deliver(d)] else [Deliver(d)];
      var stored: seq<Event> := if net.Succeeded? && !s.notUpdateCache then [StoreCache(net.response)] else [];
      assert NetPhase(s, hit, net) == [Request] + middle + stored;
      LookupsAppend([Request] + middle, stored);
      LookupsAppend([Request], middle);
      LookupsOfStep(Request);
      LookupsOfStep(Deliver(d));
      if s.mode == NetFirst && net.Failed? {
        assert middle == [ReadCache] + [Deliver(d)];
        LookupsAppend([ReadCache], [Deliver(d)]);
        LookupsOfStep(ReadCache);
      }
      if net.Succeeded? && !s.notUpdateCache {
        LookupsOfStep(StoreCache(net.response));
      }
    }
  }

  /**
   * The completion contract, for every call a fetch makes: a cache date comes with
   * a memory or disk delivery and only with one; an error is the transport's own
   * and comes only with type Net; a successful request delivers the transport's own
   * response; a memory or disk delivery is the lookup's hit with its response and
   * date; type None is the clean miss of LocalOnly.
   */
  lemma CompletionContract(s: Strategy, hit: Option<Found>, net: NetResult, d: Delivery)
    requires hit.Some? ==> hit.value.source == CacheMemory || hit.value.source == CacheDisk
    requires d in Deliveries(Plan(s, hit, net))
    ensures d.cacheDate.Some? <==> d.source == CacheMemory || d.source == CacheDisk
    ensures d.error.Some? ==> d.source == CacheNet && net.Failed? && d.error == Some(net.error)
    ensures d.source == CacheNet ==> d.task && (net.Succeeded? ==> d.response == Some(net.response))
    ensures d.source == CacheMemory || d.source == CacheDisk ==>
              hit.Some? && hit.value.source == d.source && d.error.None? &&
              d.response == Some(hit.value.entry.response) && d.cacheDate == Some(hit.value.entry.storedAt)
    ensures d.source == CacheNone ==> d == MissDelivery && s.mode == LocalOnly && hit.None?
  {
    PlanDeliveries(s, hit, net);
    LocalPhaseDeliveries(s.mode, hit);
    NetPhaseDeliveries(s, hit, net);
  }

  /**
   * The completion fires once, or twice exactly when LocalAndNet finds a cached
   * entry; it always fires at least once, even when every source fails.
   */
  lemma DeliveryCount(s: Strategy, hit: Option<Found>, net: NetResult)
    ensures 1 <= |Deliveries(Plan(s, hit, net))| <= 2
    ensures |Deliveries(Plan(s, hit, net))| == 2 <==> s.mode == LocalAndNet && hit.Some?
  {
    PlanDeliveries(s, hit, net);
    LocalPhaseDeliveries(s.mode, hit);
    NetPhaseDeliveries(s, hit, net);
  }

  /** NetOnly: no cache read, the request is issued, one delivery of the network outcome. */
  lemma NetOnlyPlan(s: Strategy, hit: Option<Found>, net: NetResult)
    requires s.mode == NetOnly
    ensures ReadCache !in Plan(s, hit, net)
    ensures Request in Plan(s, hit, net)
    ensures Deliveries(Plan(s, hit, net)) == [NetDelivery(net)]
  {
    PlanDeliveries(s, hit, net);
    LocalPhaseDeliveries(s.mode, hit);
    NetPhaseDeliveries(s, hit, net);
  }

  /** LocalOnly: no request (so no task), one delivery of the hit or of a clean miss. */
  lemma LocalOnlyPlan(s: Strategy, hit: Option<Found>, net: NetResult)
    requires s.mode == LocalOnly
    ensures Request !in Plan(s, hit, net)
    ensures Deliveries(Plan(s, hit, net)) ==
              [if hit.Some? then CacheDelivery(false, hit.value) else MissDelivery]
  {
    PlanDeliveries(s, hit, net);
    LocalPhaseDeliveries(s.mode, hit);
    NetPhaseDeliveries(s, hit, net);
  }

  /** LocalFirst: a hit is delivered without a request; a miss falls through to the network. */
  lemma LocalFirstPlan(s: Strategy, hit: Option<Found>, net: NetResult)
    requires s.mode == LocalFirst
    ensures Plan(s, hit, net)[0] == ReadCache
    ensures hit.Some? ==> Request !in Plan(s, hit, net) &&
                          Deliveries(Plan(s, hit, net)) == [CacheDelivery(false, hit.value)]
    ensures hit.None? ==> Request in Plan(s, hit, net) &&
                          Deliveries(Plan(s, hit, net)) == [NetDelivery(net)]
  {
    PlanDeliveries(s, hit, net);
    LocalPhaseDeliveries(s.mode, hit);
    NetPhaseDeliveries(s, hit, net);
  }

  /**
   * LocalAndNet: the request is always issued; a hit is delivered first, without a
   * task, and the network outcome after it.
   */
  lemma LocalAndNetPlan(s: Strategy, hit: Option<Found>, net: NetResult)
    requires s.mode == LocalAndNet
    ensures Plan(s, hit, net)[0] == ReadCache
    ensures Request in Plan(s, hit, net)
    ensures Deliveries(Plan(s, hit, net)) ==
              (if hit.Some? then [CacheDelivery(false, hit.value)] else []) + [NetDelivery(net)]
  {
    PlanDeliveries(s, hit, net);
    LocalPhaseDeliveries(s.mode, hit);
    NetPhaseDeliveries(s, hit, net);
  }

  /**
   * NetFirst: the request comes first; on success its outcome is delivered and the
   * cache is not read; on failure the cache is read and a hit is delivered in place
   * of the error, a miss delivers the network error.
   */
  lemma NetFirstPlan(s: Strategy, hit: Option<Found>, net: NetResult)
    requires s.mode == NetFirst
    ensures Plan(s, hit, net)[0] == Request
    ensures net.Succeeded? ==> ReadCache !in Plan(s, hit, net) &&
                               Deliveries(Plan(s, hit, net)) == [NetDelivery(net)]
    ensures net.Failed? ==> ReadCache in Plan(s, hit, net) &&
                            Deliveries(Plan(s, hit, net)) ==
                              [if hit.Some? then CacheDelivery(true, hit.value) else NetDelivery(net)]
  {
    PlanDeliveries(s, hit, net);
    LocalPhaseDeliveries(s.mode, hit);
    NetPhaseDeliveries(s, hit, net);
  }

  /**
   * A successful response updates both tiers unless NotUpdateCache is set, for every
   * mode that issues the request (DeleteCache aside).
   */
  lemma SuccessUpdatesCache(t: Tiers, p: DiskPath, s: Strategy, hit: Option<Found>, r: Response, now: int)
    requires IssuesRequest(s.mode, hit) && !s.notUpdateCache && !s.deleteCache
    ensures ApplyAll(t, p, Plan(s, hit, Succeeded(r)), now) == Store(t, p, Entry(r, now), true, true)
  {
    var trace := Plan(s, hit, Succeeded(r));
    var before := LocalPhase(s.mode, hit) + [Request, Deliver(NetDelivery(Succeeded(r)))];
    assert NetPhase(s, hit, Succeeded(r)) == [Request, Deliver(NetDelivery(Succeeded(r)))] + [StoreCache(r)];
    assert trace == before + [StoreCache(r)];
    ApplyAllAppend(t, p, before, [StoreCache(r)], now);
    ApplyAllReadOnly(t, p, before, now);
  }

  /**
   * The cache is left as it was when nothing is stored and nothing is deleted: with
   * NotUpdateCache, after a failed request, and whenever no request is issued.
   */
  lemma CacheUntouched(t: Tiers, p: DiskPath, s: Strategy, hit: Option<Found>, net: NetResult, now: int)
    requires !s.deleteCache
    requires s.notUpdateCache || net.Failed? || !IssuesRequest(s.mode, hit)
    ensures ApplyAll(t, p, Plan(s, hit, net), now) == t
  {
    ApplyAllReadOnly(t, p, Plan(s, hit, net), now);
  }

  /**
   * DeleteCache: whatever the mode and outcome, the entry is gone from both tiers
   * after the fetch, and no other key or path changed.
   */
  lemma DeleteCacheClears(t: Tiers, p: DiskPath, s: Strategy, hit: Option<Found>, net: NetResult,
                          now: int, expire: Expiry, later: int)
    requires s.deleteCache
    ensures ApplyAll(t, p, Plan(s, hit, net), now) == Delete(t, p, true, true)
    ensures Probe(ApplyAll(t, p, Plan(s, hit, net), now), p, expire, later) == None
  {
    var s' := s.(deleteCache := false);
    var body := Plan(s', hit, net);
    assert NetPhase(s', hit, net) == NetPhase(s, hit, net);
    assert body == LocalPhase(s.mode, hit) + NetPhase(s, hit, net);
    assert Plan(s, hit, net) == body + [DeleteCache];
    ApplyAllAppend(t, p, body, [DeleteCache], now);
    if net.Succeeded? && !s.notUpdateCache && IssuesRequest(s.mode, hit) {
      SuccessUpdatesCache(t, p, s', hit, net.response, now);
      DeleteAfterStore(t, p, Entry(net.response, now));
    } else {
      CacheUntouched(t, p, s', hit, net, now);
    }
    DeleteSelectedTiers(t, p, true, true, expire, later);
  }

  /**
   * The cache after a fetch, step by step: the response stored in both tiers when
   * the request is issued and succeeds without NotUpdateCache, then the key deleted
   * from both tiers under DeleteCache.
   */
  lemma PlanEffect(t: Tiers, p: DiskPath, s: Strategy, hit: Option<Found>, net: NetResult, now: int)
    ensures var mid := if IssuesRequest(s.mode, hit) && net.Succeeded? && !s.notUpdateCache
                       then Store(t, p, Entry(net.response, now), true, true) else t;
            ApplyAll(t, p, Plan(s, hit, net), now) == if s.deleteCache then Delete(mid, p, true, true) else mid
  {
    if s.deleteCache {
      DeleteCacheClears(t, p, s, hit, net, now, None, now);
      if IssuesRequest(s.mode, hit) && net.Succeeded? && !s.notUpdateCache {
        DeleteAfterStore(t, p, Entry(net.response, now));
      }
    } else if IssuesRequest(s.mode, hit) && net.Succeeded? && !s.notUpdateCache {
      SuccessUpdatesCache(t, p, s, hit, net.response, now);
    } else {
      CacheUntouched(t, p, s, hit, net, now);
    }
  }

  /** NetOnly | LocalOnly takes the same steps as NetOnly alone: no cache access, one request. */
  lemma NetOnlyAndLocalOnlyActAsNetOnly(hit: Option<Found>, net: NetResult)
    ensures Plan(Resolve(NetOnlyFlag | LocalOnlyFlag), hit, net) == Plan(Resolve(NetOnlyFlag), hit, net)
    ensures ReadCache !in Plan(Resolve(NetOnlyFlag | LocalOnlyFlag), hit, net)
  {
    NetOnlyBeatsLocalOnly(NetOnlyFlag | LocalOnlyFlag);
    NetOnlyBeatsLocalOnly(NetOnlyFlag);
    NetOnlyPlan(Resolve(NetOnlyFlag | LocalOnlyFlag), hit, net);
  }

  /**
   * Suppressed write: when nothing fresh was cached, a fetch with NotUpdateCache
   * (and no DeleteCache) leaves a following LocalOnly fetch with a clean miss.
   */
  lemma SuppressedWriteLeavesMiss(t: Tiers, p: DiskPath, s: Strategy, hit: Option<Found>, net: NetResult,
                                  now: int, expire: Expiry, later: int, next: Strategy, net': NetResult)
    requires s.notUpdateCache && !s.deleteCache
    requires Probe(t, p, expire, later) == None
    requires next.mode == LocalOnly
    ensures var t' := ApplyAll(t, p, Plan(s, hit, net), now);
            Deliveries(Plan(next, Probe(t', p, expire, later), net')) == [MissDelivery]
  {
    CacheUntouched(t, p, s, hit, net, now);
    LocalOnlyPlan(next, None, net');
  }

  /**
   * Post-delete: after any fetch with DeleteCache, a following LocalOnly fetch of the
   * same key delivers a clean miss, even when the fetch itself delivered a payload.
   */
  lemma DeletedLeavesMiss(t: Tiers, p: DiskPath, s: Strategy, hit: Option<Found>, net: NetResult,
                          now: int, expire: Expiry, later: int, next: Strategy, net': NetResult)
    requires s.deleteCache
    requires next.mode == LocalOnly
    ensures var t' := ApplyAll(t, p, Plan(s, hit, net), now);
            Deliveries(Plan(next, Probe(t', p, expire, later), net')) == [MissDelivery]
  {
    DeleteCacheClears(t, p, s, hit, net, now, expire, later);
    LocalOnlyPlan(next, None, net');
  }

  /**
   * A worked run with an expiry of 60 seconds on an empty cache: NetFirst at time 0
   * delivers the network response P1 and caches it; LocalFirst at time 30 delivers
   * P1 from memory with its date and issues no request; LocalFirst at time 90 finds
   * the entry stale, issues the request and delivers the new response P2.
   */
  lemma ExpiryScenario(p: DiskPath, p1: Response, p2: Response)
    ensures var ttl: Expiry := Some(60);
      var t0 := Tiers(map[], map[]);
      var first := Plan(Strategy(NetFirst, false, false), Probe(t0, p, ttl, 0), Succeeded(p1));
      var t1 := ApplyAll(t0, p, first, 0);
      var second := Plan(Strategy(LocalFirst, false, false), Probe(t1, p, ttl, 30), Succeeded(p2));
      var t2 := ApplyAll(t1, p, second, 30);
      var third := Plan(Strategy(LocalFirst, false, false), Probe(t2, p, ttl, 90), Succeeded(p2));
      Deliveries(first) == [Delivery(true, CacheNet, Some(p1), None, None)] &&
      Request !in second &&
      Deliveries(second) == [Delivery(false, CacheMemory, Some(p1), None, Some(0))] &&
      Request in third &&
      Deliveries(third) == [Delivery(true, CacheNet, Some(p2), None, None)]
  {
    var ttl: Expiry := Some(60);
    var t0 := Tiers(map[], map[]);
    var netFirst := Strategy(NetFirst, false, false);
    var localFirst := Strategy(LocalFirst, false, false);
    NetFirstPlan(netFirst, Probe(t0, p, ttl, 0), Succeeded(p1));
    SuccessUpdatesCache(t0, p, netFirst, Probe(t0, p, ttl, 0), p1, 0);
    var t1 := ApplyAll(t0, p, Plan(netFirst, Probe(t0, p, ttl, 0), Succeeded(p1)), 0);
    assert t1.memory[p.key] == Entry(p1, 0);
    var hit := Probe(t1, p, ttl, 30);
    assert hit == Some(Found(CacheMemory, Entry(p1, 0)));
    LocalFirstPlan(localFirst, hit, Succeeded(p2));
    CacheUntouched(t1, p, localFirst, hit, Succeeded(p2), 30);
    assert !Fresh(Entry(p1, 0), ttl, 90);
    assert Probe(t1, p, ttl, 90) == None;
    LocalFirstPlan(localFirst, None, Succeeded(p2));
  }
}
