/** The service workers of both versions (src/sw.js and sw.js): which old
    caches `activate` deletes, which requests `fetch` takes over, the
    cache-first reply with its refresh of the cache and its offline page,
    and the `sync` and `message` dispatch of src/sw.js. A cache is a map
    from request URL to stored response. */
module ServiceWorker {
  import opened Wrappers
  import opened Seqs
  import Text

  const AppName := "mws-restaurant"
  const CacheVersion: nat := 1
  /** `${APP_NAME}-v${CACHE_VERSION}`. */
  const CacheName := AppName + "-v" + Text.NatToString(CacheVersion)
  const OfflinePage := "/offline.html"
  const ApiPort := "1337"

  /** Example: the current cache is "mws-restaurant-v1", a name of this
      app. */
  lemma CacheNameValue()
    ensures CacheName == "mws-restaurant-v1"
    ensures Text.StartsWith(CacheName, AppName)
  {
    assert Text.NatToString(1) == "1";
  }

  /** The `activate` filter: another cache of this app. */
  predicate IsStale(cacheName: string) {
    cacheName != CacheName && Text.StartsWith(cacheName, AppName)
  }

  /** The cache names `activate` passes to `caches.delete`, in the order
      `caches.keys()` lists them. */
  function CachesToDelete(cacheNames: seq<string>): (deleted: seq<string>)
    ensures |deleted| <= |cacheNames|
    ensures forall n :: n in deleted <==> n in cacheNames && n != CacheName && Text.StartsWith(n, AppName)
  {
    Filter(cacheNames, IsStale)
  }

  /** The caches left after `activate`. */
  function CachesKept(cacheNames: seq<string>): seq<string> {
    Filter(cacheNames, (n: string) => !IsStale(n))
  }

  /** `activate` deletes exactly the caches of this app other than the
      current one: the current cache and the caches of other apps survive,
      and afterwards the only cache of this app is the current one. */
  lemma ActivateDeletesStale(cacheNames: seq<string>)
    ensures forall n :: n in CachesToDelete(cacheNames) <==>
      n in cacheNames && n != CacheName && Text.StartsWith(n, AppName)
    ensures CacheName in cacheNames ==> CacheName !in CachesToDelete(cacheNames) && CacheName in CachesKept(cacheNames)
    ensures forall n :: n in cacheNames && !Text.StartsWith(n, AppName) ==> n in CachesKept(cacheNames)
    ensures forall n :: n in CachesKept(cacheNames) && Text.StartsWith(n, AppName) ==> n == CacheName
    ensures forall n :: n in cacheNames ==> (n in CachesToDelete(cacheNames) <==> n !in CachesKept(cacheNames))
  {
  }

  /** Deleting twice deletes nothing more: after `activate`, a second
      `activate` finds nothing to delete. */
  lemma ActivateIdempotent(cacheNames: seq<string>)
    ensures CachesToDelete(CachesKept(cacheNames)) == []
  {
    var kept := CachesKept(cacheNames);
    assert forall i :: 0 <= i < |kept| ==> kept[i] in kept;
    FilterKeepsNone(kept, IsStale);
  }

  datatype Response = Response(status: int, body: string)

  /** What `fetch(event.request)` does: reject, or resolve with a response
      (whatever its status). */
  datatype Network = NetworkDown | Responded(response: Response)

  /** A request as the handler sees it: its URL and, as `new URL` parses
      them, its protocol and port. */
  datatype Request = Request(url: string, protocol: string, port: string)

  /** The handler either returns without `respondWith` (the browser then
      fetches on its own), or answers with a response or with undefined. */
  datatype Reply = PassThrough | Respond(response: Option<Response>)

  /** The cache-first answer shared by both versions, with the cache as it
      is after the handler's `cache.put`. */
  function CacheFirst(cache: map<string, Response>, key: string, net: Network): (out: (Reply, map<string, Response>))
  {
    var refreshed := if net.Responded? then cache[key := net.response] else cache;
    var fallback := if net.Responded? then Some(net.response)
                    else if OfflinePage in cache then Some(cache[OfflinePage]) else None;
    (Respond(if key in cache then Some(cache[key]) else fallback), refreshed)
  }

  /** src/sw.js: requests whose protocol does not start with "http", and
      requests to the API port, are left alone. */
  predicate Handles(request: Request) {
    Text.StartsWith(request.protocol, "http") && request.port != ApiPort
  }

  /** sw.js: only URLs starting with "http" are taken over. */
  predicate HandlesLegacy(request: Request) {
    Text.StartsWith(request.url, "http")
  }

  /** The `fetch` listener of src/sw.js. */
  function OnFetch(cache: map<string, Response>, request: Request, net: Network): (out: (Reply, map<string, Response>))
    ensures !Handles(request) ==> out == (PassThrough, cache)
    ensures Handles(request) ==> out == CacheFirst(cache, request.url, net)
  {
    if !Handles(request) then (PassThrough, cache) else CacheFirst(cache, request.url, net)
  }

  /** The `fetch` listener of sw.js. */
  function OnFetchLegacy(cache: map<string, Response>, request: Request, net: Network): (out: (Reply, map<string, Response>))
    ensures !HandlesLegacy(request) ==> out == (PassThrough, cache)
    ensures HandlesLegacy(request) ==> out == CacheFirst(cache, request.url, net)
  {
    if !HandlesLegacy(request) then (PassThrough, cache) else CacheFirst(cache, request.url, net)
  }

  /** The reply: a cached response wins; without one, the network
      response, or the cached offline page (undefined when that is not
      cached either) when the network is down. */
  lemma CacheFirstReply(cache: map<string, Response>, key: string, net: Network)
    ensures key in cache ==> CacheFirst(cache, key, net).0 == Respond(Some(cache[key]))
    ensures key !in cache && net.Responded? ==> CacheFirst(cache, key, net).0 == Respond(Some(net.response))
    ensures key !in cache && net.NetworkDown? ==>
      CacheFirst(cache, key, net).0 == Respond(if OfflinePage in cache then Some(cache[OfflinePage]) else None)
  {
  }

  /** The cache after the reply: every network response is stored under
      the request, even when a cached response was served; nothing else
      changes, and a network failure changes nothing. */
  lemma CacheFirstRefresh(cache: map<string, Response>, key: string, net: Network)
    ensures net.Responded? ==> CacheFirst(cache, key, net).1 == cache[key := net.response]
    ensures net.NetworkDown? ==> CacheFirst(cache, key, net).1 == cache
    ensures forall k :: k in cache && k != key ==> k in CacheFirst(cache, key, net).1 && CacheFirst(cache, key, net).1[k] == cache[k]
  {
  }

  /** A page fetched once on line is served from the cache when the
      network is down afterwards; the response is the one last fetched. */
  lemma OnlineThenOffline(cache: map<string, Response>, request: Request, response: Response)
    requires Handles(request)
    ensures var (_, after) := OnFetch(cache, request, Responded(response));
      OnFetch(after, request, NetworkDown) == (Respond(Some(response)), after)
  {
  }

  /** The src worker never takes over calls to the API port; the older one
      takes over every http(s) URL, API calls included. */
  lemma ApiCallsBypassOnlyInSrc(cache: map<string, Response>, request: Request, net: Network)
    requires request.port == ApiPort
    ensures OnFetch(cache, request, net) == (PassThrough, cache)
    ensures Text.StartsWith(request.url, "http") ==> OnFetchLegacy(cache, request, net).0 != PassThrough
    ensures Text.StartsWith(request.url, "http") && net.Responded? ==>
      request.url in OnFetchLegacy(cache, request, net).1
  {
  }

  datatype SyncAction = RunSyncFavorites | NoSync

  /** The `sync` listener: only "sync-favorites" starts `syncFavorites`. */
  function OnSync(tag: string): (action: SyncAction)
    ensures action == RunSyncFavorites <==> tag == "sync-favorites"
  {
    if tag == "sync-favorites" then RunSyncFavorites else NoSync
  }

  /** `event.data`: absent, or an object whose `action` may be absent. */
  datatype MessageData = NoData | Data(action: Option<string>)

  /** What the `message` listener does; reading `action` of undefined data
      throws. */
  datatype MessageOutcome = SkipWaiting | Ignored | Throws

  function OnMessage(data: MessageData): (outcome: MessageOutcome)
    ensures outcome == SkipWaiting <==> data == Data(Some("skipWaiting"))
    ensures outcome == Throws <==> data.NoData?
  {
    match data
    case NoData => Throws
    case Data(action) => if action == Some("skipWaiting") then SkipWaiting else Ignored
  }
}
