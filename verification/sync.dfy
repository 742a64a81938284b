/** The three dataset synchronisers: the query functions behind the index
    and the map geometry, and the effect that lazily loads the code
    details. Each reads the cache, decides whether to go to the network,
    writes back what it fetched and falls back as far as it can.

    The steps that call into code outside this model are inputs: the
    schema migration (it settles with whether it migrated, which drops the
    cached index, or rejects), the user settings (a value or a rejection),
    the cached index metadata (a value or a rejection), the connectivity
    flag, the network, and the bundled fallback index (a value or a
    rejection of its dynamic import). */
module Synchronisers {
  import opened Wrappers
  import opened JsonValues
  import opened Validators
  import opened Loaders
  import opened Storage

  const IndexUrl := "/data/index.transformed.json"
  const TopoUrl := "/data/kfz250.topo.json"
  const DetailsUrl := "/data/code-details.json"

  /** `settings?.offlineMode || false`. */
  predicate OfflineMode(settings: Json) {
    Truthy(Get(settings, "offlineMode"))
  }

  /** A `setCachedData` call: the key, the payload and the options object
      passed as its third argument. */
  datatype CacheWrite = CacheWrite(key: string, data: Json, options: Json)

  // ---------------------------------------------------------------------
  // Index

  /** What the index query settles with, the store after it, the request
      the loader was given (if it was called) and the cache write made. */
  datatype IndexSync = IndexSync(
    result: Result<Json, Failure>,
    store: Store,
    request: Option<Request>,
    written: Option<CacheWrite>)

  /** The store after a migration that settled with `migrated`. */
  function AfterMigration(s: Store, migrated: bool): (t: Store)
    ensures t.progress == s.progress && t.readable == s.readable && t.writable == s.writable
    ensures migrated ==> IndexKey !in t.cache
    ensures forall k :: k != IndexKey ==> (k in t.cache <==> k in s.cache)
    ensures forall k :: k != IndexKey && k in s.cache ==> t.cache[k] == s.cache[k]
  {
    if migrated then s.(cache := s.cache - {IndexKey}) else s
  }

  /** `cachedMeta?.dataVersion ? { 'If-None-Match': … } : {}`. */
  function ConditionalHeaders(meta: Json): (h: map<string, Json>)
    ensures "If-None-Match" in h <==> Truthy(Get(meta, "dataVersion"))
    ensures "If-None-Match" in h ==> h == map["If-None-Match" := Get(meta, "dataVersion")]
    ensures "If-None-Match" !in h ==> h == map[]
  {
    var version := Get(meta, "dataVersion");
    if Truthy(version) then map["If-None-Match" := version] else map[]
  }

  function IndexOptions(meta: Json): RequestOptions {
    RequestOptions(None, Some(ConditionalHeaders(meta)))
  }

  /** `!cachedMeta || freshData.dataVersion !== cachedMeta.dataVersion`. */
  predicate IsNewer(meta: Json, latest: Json) {
    !Truthy(meta) || Get(latest, "dataVersion") != Get(meta, "dataVersion")
  }

  /** `{ dataVersion: index.dataVersion, buildHash: index.buildHash }`. */
  function VersionMeta(index: Json): Json {
    JObj(map["dataVersion" := Get(index, "dataVersion"), "buildHash" := Get(index, "buildHash")])
  }

  /** Step 5: the value in hand, else the fallback. */
  function WithFallback(index: Option<Json>, fallback: Result<Json, Failure>): (r: Result<Json, Failure>)
    ensures index.Some? ==> r == Ok(index.value)
    ensures index.None? ==> r == fallback
  {
    if index.Some? then Ok(index.value) else fallback
  }

  /** The `queryFn` of the index query. */
  function SyncIndex(
    s: Store, migration: Result<bool, Failure>, settings: Result<Json, Failure>, online: bool,
    meta: Result<Json, Failure>, network: Network, fallback: Result<Json, Failure>, now: string)
    : (r: IndexSync)
    // the loader runs iff every step before it settled and the app is online and not in offline mode
    ensures r.request.Some? <==>
      migration.Ok? && settings.Ok? && meta.Ok? && online && !OfflineMode(settings.value)
    ensures r.request.Some? ==> r.request.value == IndexRequest(IndexUrl, Some(IndexOptions(meta.value)))
    ensures r.request.Some? ==> r.request.value.cache == "no-cache"
    // a write happens iff the loader delivered a newer version, and it carries that version
    ensures r.written.Some? <==>
      r.request.Some? && network(r.request.value).Responded?
      && LoadIndexData(IndexUrl, Some(IndexOptions(meta.value)), network).Ok?
      && IsNewer(meta.value, LoadIndexData(IndexUrl, Some(IndexOptions(meta.value)), network).value)
    ensures r.written.Some? ==>
      r.written.value.key == IndexKey && IsValidIndex(r.written.value.data)
      && r.written.value.options == VersionMeta(r.written.value.data)
      && r.result == Ok(r.written.value.data)
      && r.store == SetCachedData(AfterMigration(s, migration.value), IndexKey, r.written.value.data, now)
    // otherwise the migrated cache is all that changes, and the result is the cached value or the fallback
    ensures migration.Err? ==> r == IndexSync(Err(migration.error), s, None, None)
    ensures migration.Ok? && r.written.None? ==> r.store == AfterMigration(s, migration.value)
    ensures migration.Ok? && (settings.Err? || meta.Err?) ==>
      r.result == Err(if settings.Err? then settings.error else meta.error)
    ensures migration.Ok? && settings.Ok? && meta.Ok? && r.written.None? ==>
      r.result == WithFallback(GetCachedData(AfterMigration(s, migration.value), IndexKey), fallback)
  {
    match migration
    case Err(e) => IndexSync(Err(e), s, None, None)
    case Ok(migrated) =>
      var s1 := AfterMigration(s, migrated);
      match settings
      case Err(e) => IndexSync(Err(e), s1, None, None)
      case Ok(st) =>
        var cached := GetCachedData(s1, IndexKey);
        match meta
        case Err(e) => IndexSync(Err(e), s1, None, None)
        case Ok(m) =>
          if online && !OfflineMode(st) then
            var q := IndexRequest(IndexUrl, Some(IndexOptions(m)));
            match LoadIndexData(IndexUrl, Some(IndexOptions(m)), network)
            case Err(_) => IndexSync(WithFallback(cached, fallback), s1, Some(q), None)
            case Ok(latest) =>
              if IsNewer(m, latest) then
                var w := CacheWrite(IndexKey, latest, VersionMeta(latest));
                IndexSync(Ok(latest), SetCachedData(s1, IndexKey, latest, now), Some(q), Some(w))
              else
                IndexSync(WithFallback(cached, fallback), s1, Some(q), None)
          else
            IndexSync(WithFallback(cached, fallback), s1, None, None)
  }

  /** The cached index, if there is one, passed validation. */
  predicate IndexCacheValid(s: Store) {
    IndexKey in s.cache ==> IsValidIndex(s.cache[IndexKey].data)
  }

  /** The index query only ever stores a validated index. */
  lemma SyncIndexKeepsCacheValid(
    s: Store, migration: Result<bool, Failure>, settings: Result<Json, Failure>, online: bool,
    meta: Result<Json, Failure>, network: Network, fallback: Result<Json, Failure>, now: string)
    requires IndexCacheValid(s)
    ensures IndexCacheValid(SyncIndex(s, migration, settings, online, meta, network, fallback, now).store)
  {
  }

  /** A loader failure is swallowed: the query still settles with the
      cached index or the fallback. */
  lemma LoaderFailureFallsBack(
    s: Store, settings: Json, meta: Json, network: Network, fallback: Result<Json, Failure>, now: string)
    requires !OfflineMode(settings)
    requires LoadIndexData(IndexUrl, Some(IndexOptions(meta)), network).Err?
    ensures var r := SyncIndex(s, Ok(false), Ok(settings), true, Ok(meta), network, fallback, now);
      r.request.Some? && r.written.None? && r.store == s
      && r.result == WithFallback(GetCachedData(s, IndexKey), fallback)
  {
  }

  /** When the fetched version equals the recorded one the latest payload is
      dropped, even if the cache holds no index, and the fallback is used. */
  lemma SameVersionDropsFreshIndex(
    s: Store, settings: Json, meta: Json, network: Network, fallback: Result<Json, Failure>, now: string)
    requires !OfflineMode(settings)
    requires IndexKey !in s.cache
    requires LoadIndexData(IndexUrl, Some(IndexOptions(meta)), network).Ok?
    requires !IsNewer(meta, LoadIndexData(IndexUrl, Some(IndexOptions(meta)), network).value)
    ensures SyncIndex(s, Ok(false), Ok(settings), true, Ok(meta), network, fallback, now).result == fallback
  {
  }

  /** The migration runs before the cache is read: once it has dropped the
      stored index, an offline query no longer sees it. */
  lemma MigrationPrecedesCacheRead(
    s: Store, settings: Json, meta: Json, network: Network, fallback: Result<Json, Failure>, now: string)
    ensures SyncIndex(s, Ok(true), Ok(settings), false, Ok(meta), network, fallback, now).result == fallback
  {
  }

  /** What an online query stored is what a later offline query returns. */
  lemma IndexSyncRoundTrip(
    s: Store, settings: Json, meta: Json, network: Network, fallback: Result<Json, Failure>, now: string,
    later: Json, meta2: Json, fallback2: Result<Json, Failure>, now2: string)
    requires s.readable && s.writable
    requires !OfflineMode(settings)
    ensures var r := SyncIndex(s, Ok(false), Ok(settings), true, Ok(meta), network, fallback, now);
      r.written.Some? ==>
        SyncIndex(r.store, Ok(false), Ok(later), false, Ok(meta2), network, fallback2, now2).result
          == Ok(r.written.value.data)
  {
    var r := SyncIndex(s, Ok(false), Ok(settings), true, Ok(meta), network, fallback, now);
    if r.written.Some? {
      var d := r.written.value.data;
      assert Truthy(d) by { assert IsValidIndex(d); }
      CacheRoundTrip(s, IndexKey, d, now);
    }
  }

  // ---------------------------------------------------------------------
  // Map geometry

  datatype TopoSync = TopoSync(result: Result<Option<Json>, Failure>, store: Store, loaderCalled: bool)

  /** The `queryFn` of the geometry query: settles with the geometry or
      `null` (the map is then unavailable). There is no bundled fallback. */
  function SyncTopo(s: Store, settings: Result<Json, Failure>, online: bool, network: Network, now: string)
    : (r: TopoSync)
    ensures settings.Err? ==> r == TopoSync(Err(settings.error), s, false)
    // a fetch is tried when nothing is cached, even in offline mode
    ensures r.loaderCalled <==>
      settings.Ok? && (GetCachedData(s, TopoKey).None? || (online && !OfflineMode(settings.value)))
    ensures r.loaderCalled && LoadTopoData(TopoUrl, None, network).Ok? ==>
      var latest := LoadTopoData(TopoUrl, None, network).value;
      r.result == Ok(Some(latest)) && r.store == SetCachedData(s, TopoKey, latest, now)
    ensures settings.Ok? && !(r.loaderCalled && LoadTopoData(TopoUrl, None, network).Ok?) ==>
      r.result == Ok(GetCachedData(s, TopoKey)) && r.store == s
  {
    match settings
    case Err(e) => TopoSync(Err(e), s, false)
    case Ok(st) =>
      var cached := GetCachedData(s, TopoKey);
      if cached.None? || (online && !OfflineMode(st)) then
        match LoadTopoData(TopoUrl, None, network)
        case Ok(latest) => TopoSync(Ok(Some(latest)), SetCachedData(s, TopoKey, latest, now), true)
        case Err(_) => TopoSync(Ok(cached), s, true)
      else
        TopoSync(Ok(cached), s, false)
  }

  predicate TopoCacheValid(s: Store) {
    TopoKey in s.cache ==> IsValidTopoJson(s.cache[TopoKey].data)
  }

  /** The geometry query only ever stores validated geometry, and over a
      cache that holds only validated geometry it settles with valid
      geometry or `null`. */
  lemma SyncTopoValid(s: Store, settings: Result<Json, Failure>, online: bool, network: Network, now: string)
    requires TopoCacheValid(s)
    ensures var r := SyncTopo(s, settings, online, network, now);
      TopoCacheValid(r.store)
      && (r.result.Ok? && r.result.value.Some? ==> IsValidTopoJson(r.result.value.value))
  {
  }

  /** Offline mode with cached geometry: no network, the cached value. */
  lemma OfflineTopoUsesCache(s: Store, settings: Json, online: bool, network: Network, now: string)
    requires OfflineMode(settings)
    requires GetCachedData(s, TopoKey).Some?
    ensures SyncTopo(s, Ok(settings), online, network, now) == TopoSync(Ok(GetCachedData(s, TopoKey)), s, false)
  {
  }

  /** Nothing cached and the fetch fails: the query settles with `null`. */
  lemma TopoWithoutAnything(s: Store, settings: Json, online: bool, network: Network, now: string)
    requires GetCachedData(s, TopoKey).None?
    requires LoadTopoData(TopoUrl, None, network).Err?
    ensures SyncTopo(s, Ok(settings), online, network, now).result == Ok(None)
  {
  }

  // ---------------------------------------------------------------------
  // Code details

  const DetailsTtlSeconds := 30 * 24 * 60 * 60

  const DetailsUnavailable := "Code-Details konnten nicht geladen werden"
  const DetailsFailed := "Fehler beim Laden der Code-Details"

  datatype DetailsState = DetailsState(codeDetails: Json, isLoading: bool, error: Option<string>)

  const InitialDetails := DetailsState(JNull, true, None)

  /** One run of `loadCodeDetails`: the state it sets (`None` when the
      component has unmounted by the time it finishes), the store after it,
      whether it fetched, and the cache write it made. The cache key is an
      input: it is not among the keys the storage module defines. */
  datatype DetailsRun = DetailsRun(
    state: Option<DetailsState>,
    store: Store,
    fetched: bool,
    written: Option<CacheWrite>)

  function DetailsRequest(): Request {
    Request(DetailsUrl, "no-cache", None)
  }

  /** The state set at the end of a run that did not throw. */
  function Settled(codeDetails: Json): (st: DetailsState)
    ensures !st.isLoading && st.codeDetails == codeDetails
    ensures st.error.None? <==> Truthy(codeDetails)
    ensures st.error.Some? ==> st.error.value == DetailsUnavailable
  {
    DetailsState(codeDetails, false, if Truthy(codeDetails) then None else Some(DetailsUnavailable))
  }

  function LoadCodeDetails(
    s: Store, key: string, mounted: bool, settings: Result<Json, Failure>, online: bool,
    network: Network, now: string)
    : (r: DetailsRun)
    ensures r.fetched <==> settings.Ok? && online && !OfflineMode(settings.value)
    ensures !mounted ==> r.state.None?
    // a fetched body replaces the value and is cached as it is, without validation
    ensures r.written.Some? <==>
      r.fetched && network(DetailsRequest()).Responded?
      && network(DetailsRequest()).response.ok && network(DetailsRequest()).response.body.Ok?
    ensures r.written.Some? ==>
      var body := network(DetailsRequest()).response.body.value;
      r.written.value == CacheWrite(key, body, JObj(map["ttlSeconds" := JNum(DetailsTtlSeconds as real)]))
      && r.store == SetCachedData(s, key, body, now)
      && (mounted ==> r.state == Some(Settled(body)))
    // otherwise the cached value stands and nothing is written
    ensures r.written.None? ==> r.store == s
    ensures settings.Ok? && r.written.None? && mounted ==>
      r.state == Some(Settled(GetCachedData(s, key).GetOr(JNull)))
    // the settings read is the one step that can throw
    ensures settings.Err? && mounted ==> r.state == Some(DetailsState(JNull, false, Some(DetailsFailed)))
  {
    match settings
    case Err(_) =>
      DetailsRun(if mounted then Some(DetailsState(JNull, false, Some(DetailsFailed))) else None, s, false, None)
    case Ok(st) =>
      var cached := GetCachedData(s, key).GetOr(JNull);
      if online && !OfflineMode(st) then
        match network(DetailsRequest())
        case Responded(response) =>
          if response.ok && response.body.Ok? then
            var body := response.body.value;
            var w := CacheWrite(key, body, JObj(map["ttlSeconds" := JNum(DetailsTtlSeconds as real)]));
            DetailsRun(if mounted then Some(Settled(body)) else None, SetCachedData(s, key, body, now), true, Some(w))
          else
            DetailsRun(if mounted then Some(Settled(cached)) else None, s, true, None)
        case Rejected(_) =>
          DetailsRun(if mounted then Some(Settled(cached)) else None, s, true, None)
      else
        DetailsRun(if mounted then Some(Settled(cached)) else None, s, false, None)
  }

  /** The error is cleared exactly when code details are present, whatever
      the path taken. */
  lemma DetailsErrorIffMissing(
    s: Store, key: string, settings: Result<Json, Failure>, online: bool, network: Network, now: string)
    ensures var r := LoadCodeDetails(s, key, true, settings, online, network, now);
      r.state.Some? && !r.state.value.isLoading
      && (r.state.value.error.None? <==> Truthy(r.state.value.codeDetails))
  {
  }

  /** A `null` body from a successful response is cached too, and the run
      ends with the unavailable message. */
  lemma NullDetailsCached(s: Store, key: string, settings: Json, network: Network, now: string)
    requires !OfflineMode(settings)
    requires network(DetailsRequest()) == Responded(Response(true, 200, "OK", Ok(JNull)))
    ensures var r := LoadCodeDetails(s, key, true, Ok(settings), true, network, now);
      r.written.Some? && r.written.value.data == JNull
      && r.state == Some(DetailsState(JNull, false, Some(DetailsUnavailable)))
  {
  }
}

/** The combined data state of the app: loading and error flags over the
    two queries, whether the map can be shown, and the connectivity
    transitions. */
module DataFacade {
  import opened Wrappers
  import opened JsonValues
  import opened Validators

  /** A value a query rejected with: an `Error` (with its message) or
      anything else that was thrown. */
  datatype Thrown = ErrorObject(message: string) | ThrownValue(value: Json)

  predicate ThrownTruthy(t: Thrown) {
    match t
    case ErrorObject(_) => true
    case ThrownValue(v) => Truthy(v)
  }

  /** What a query exposes: its data (`undefined` before the first result),
      whether it is loading, and its error (`None` for `null`). */
  datatype QueryState = QueryState(data: Json, isLoading: bool, error: Option<Thrown>)

  predicate HasError(q: QueryState) {
    q.error.Some? && ThrownTruthy(q.error.value)
  }

  const GenericError := "Fehler beim Laden der Daten"
  const MapError := "Karte konnte nicht geladen werden"

  datatype DataState = DataState(
    index: Json,
    topoJson: Json,
    isLoading: bool,
    error: Option<string>,
    mapAvailable: bool)

  function CombinedError(index: QueryState, topo: QueryState): (e: Option<string>)
    ensures e.None? <==> !HasError(index) && !HasError(topo)
    ensures HasError(index) && index.error.value.ErrorObject? ==> e == Some(index.error.value.message)
    ensures HasError(index) && index.error.value.ThrownValue? ==> e == Some(GenericError)
    ensures !HasError(index) && HasError(topo) ==> e == Some(MapError)
  {
    if HasError(index) then
      match index.error.value
      case ErrorObject(m) => Some(m)
      case ThrownValue(_) => Some(GenericError)
    else if HasError(topo) then Some(MapError)
    else None
  }

  /** `useKfzData()`'s combined view of the two queries. */
  function Combine(index: QueryState, topo: QueryState): (d: DataState)
    ensures d.isLoading <==> index.isLoading || topo.isLoading
    ensures d.mapAvailable <==> IsValidTopoJson(topo.data)
    ensures d.index == index.data && d.topoJson == topo.data
    ensures d.error == CombinedError(index, topo)
  {
    DataState(index.data, topo.data, index.isLoading || topo.isLoading, CombinedError(index, topo),
      IsValidTopoJson(topo.data))
  }

  /** Without geometry (not loaded yet, or `null`) there is no map. */
  lemma NoGeometryNoMap(index: QueryState, topo: QueryState)
    requires topo.data.JUndefined? || topo.data.JNull?
    ensures !Combine(index, topo).mapAvailable
  {
  }

  /** An index error hides a geometry error. */
  lemma IndexErrorFirst(index: QueryState, topo: QueryState)
    requires HasError(index) && HasError(topo)
    ensures Combine(index, topo).error != Some(MapError) || index.error.value == ErrorObject(MapError)
  {
  }

  datatype Dataset = IndexData | TopoData

  datatype ConnectivityEvent = WentOnline | WentOffline

  /** `useState(!navigator.onLine)`. */
  function InitialOffline(online: bool): bool {
    !online
  }

  /** The `online`/`offline` handlers: the new flag and the queries they
      refetch. */
  function OnConnectivity(ev: ConnectivityEvent): (r: (bool, seq<Dataset>))
    ensures r.0 <==> ev == WentOffline
    ensures ev == WentOnline ==> r.1 == [IndexData, TopoData]
    ensures ev == WentOffline ==> r.1 == []
  {
    match ev
    case WentOnline => (false, [IndexData, TopoData])
    case WentOffline => (true, [])
  }

  /** After any sequence of events the flag reflects the last one, or the
      initial connectivity when there was none. */
  function AfterEvents(online: bool, evs: seq<ConnectivityEvent>): bool
    decreases |evs|
  {
    if |evs| == 0 then InitialOffline(online) else OnConnectivity(evs[|evs| - 1]).0
  }

  /** Replaying the events one by one agrees with reading off the last. */
  function Replay(offline: bool, evs: seq<ConnectivityEvent>): bool
    decreases |evs|
  {
    if |evs| == 0 then offline else Replay(OnConnectivity(evs[0]).0, evs[1..])
  }

  lemma {:induction false} ReplayFollowsLastEvent(online: bool, evs: seq<ConnectivityEvent>)
    ensures Replay(InitialOffline(online), evs) == AfterEvents(online, evs)
    decreases |evs|
  {
    if |evs| > 0 {
      ReplayFrom(InitialOffline(online), evs);
    }
  }

  lemma {:induction false} ReplayFrom(offline: bool, evs: seq<ConnectivityEvent>)
    requires |evs| > 0
    ensures Replay(offline, evs) == OnConnectivity(evs[|evs| - 1]).0
    decreases |evs|
  {
    if |evs| > 1 {
      ReplayFrom(OnConnectivity(evs[0]).0, evs[1..]);
      assert evs[1..][|evs[1..]| - 1] == evs[|evs| - 1];
    }
  }
}
