/** The offline cache policy of the service worker: `install` precaches the
    application shell into one named cache, `activate` deletes every other
    cache, and `fetch` answers API requests network-first (storing each
    network answer) and everything else cache-first (never storing).

    The cache storage is an ordered list of named caches, each a map from URL
    to stored response; `caches.match` looks through all of them in creation
    order. The network is an oracle from request to `Resolved(response)` or
    `Rejected`, and whether the storage layer accepts a write is a boolean
    parameter. Every handler is a pure function from the old storage to the
    new storage and the answer. */
module ServiceWorker {
  import opened Wrappers
  import opened Strings

  // ---------------------------------------------------------------------------
  // Requests, responses and the network
  // ---------------------------------------------------------------------------

  datatype Url = Url(path: string, query: string)

  datatype Request = Request(verb: string, url: Url)

  /** A response is opaque apart from its HTTP status. */
  datatype Response = Response(status: int, body: string)

  /** What `fetch(request)` settles to. */
  datatype NetResult = Resolved(response: Response) | Rejected {
    /** The answer a page sees: a response, or a network error (`None`). */
    function ToOption(): Option<Response>
    {
      match this
      case Resolved(r) => Some(r)
      case Rejected => None
    }
  }

  type Network = Request -> NetResult

  // ---------------------------------------------------------------------------
  // Cache storage
  // ---------------------------------------------------------------------------

  datatype Cache = Cache(name: string, entries: map<Url, Response>)

  /** All caches of the origin, in creation order. */
  type Store = seq<Cache>

  /** The storage never holds two caches with the same name. */
  ghost predicate DistinctNames(store: Store)
  {
    forall i, j :: 0 <= i < j < |store| ==> store[i].name != store[j].name
  }

  /** The entries of the first cache called `name`, if there is one. */
  function Find(store: Store, name: string): (r: Option<map<Url, Response>>)
    ensures r.None? <==> forall i :: 0 <= i < |store| ==> store[i].name != name
    ensures r.Some? ==> exists i :: 0 <= i < |store| && store[i] == Cache(name, r.value)
    decreases |store|
  {
    if |store| == 0 then None
    else if store[0].name == name then Some(store[0].entries)
    else Find(store[1..], name)
  }

  /** With distinct names the cache called `name` is the one found. */
  lemma FindUnique(store: Store, i: int)
    requires DistinctNames(store)
    requires 0 <= i < |store|
    ensures Find(store, store[i].name) == Some(store[i].entries)
  {
    var r := Find(store, store[i].name);
    var j :| 0 <= j < |store| && store[j] == Cache(store[i].name, r.value);
    assert i == j;
  }

  /** The entries of the cache called `name`; a missing cache has none. */
  function Entries(store: Store, name: string): map<Url, Response>
  {
    Find(store, name).GetOr(map[])
  }

  lemma {:induction false} FindSnoc(store: Store, c: Cache, name: string)
    ensures Find(store + [c], name) ==
              if Find(store, name).Some? then Find(store, name)
              else if c.name == name then Some(c.entries)
              else None
    decreases |store|
  {
    if |store| > 0 {
      assert (store + [c])[1..] == store[1..] + [c];
      FindSnoc(store[1..], c, name);
    }
  }

  lemma FindSnocAll(store: Store, c: Cache)
    ensures forall n :: Find(store + [c], n) ==
              if Find(store, n).Some? then Find(store, n)
              else if c.name == n then Some(c.entries)
              else None
  {
    forall n {
      FindSnoc(store, c, n);
    }
  }

  /** `caches.open(name)`: the storage with a cache called `name`, created
      empty at the end when missing; nothing else changes. */
  function Open(store: Store, name: string): (r: Store)
    ensures Find(r, name) == Some(Entries(store, name))
    ensures forall n :: n != name ==> Find(r, n) == Find(store, n)
    ensures DistinctNames(store) ==> DistinctNames(r)
  {
    if Find(store, name).Some? then store
    else
      FindSnocAll(store, Cache(name, map[]));
      store + [Cache(name, map[])]
  }

  /** Writes the entries `m` into every cache called `name` (there is at most
      one), replacing entries with the same URL; names and order stay. */
  function Put(store: Store, name: string, m: map<Url, Response>): (r: Store)
    ensures |r| == |store|
    ensures forall i :: 0 <= i < |r| ==> r[i].name == store[i].name
    ensures forall i :: 0 <= i < |r| ==>
              r[i].entries == if store[i].name == name then store[i].entries + m else store[i].entries
    decreases |store|
  {
    if |store| == 0 then []
    else
      var c := store[0];
      var rest := Put(store[1..], name, m);
      var r := [if c.name == name then Cache(name, c.entries + m) else c] + rest;
      assert forall i :: 0 < i < |store| ==> store[i] == store[1..][i - 1] && r[i] == rest[i - 1];
      r
  }

  /** Looking a cache up after a write: the written cache gained `m`, every
      other cache is as it was. */
  lemma {:induction false} FindPut(store: Store, name: string, m: map<Url, Response>, n: string)
    ensures Find(Put(store, name, m), n) ==
              if n == name && Find(store, n).Some? then Some(Find(store, n).value + m) else Find(store, n)
    decreases |store|
  {
    if |store| > 0 {
      FindPut(store[1..], name, m, n);
    }
  }

  // ---------------------------------------------------------------------------
  // Lookup
  // ---------------------------------------------------------------------------

  /** The first stored response for `url`, searching the caches in order. */
  function MatchUrl(store: Store, url: Url): (r: Option<Response>)
    ensures r.None? <==> forall i :: 0 <= i < |store| ==> url !in store[i].entries
    ensures r.Some? ==> exists i :: 0 <= i < |store| && url in store[i].entries && store[i].entries[url] == r.value
                                   && forall j :: 0 <= j < i ==> url !in store[j].entries
    decreases |store|
  {
    if |store| == 0 then None
    else if url in store[0].entries then Some(store[0].entries[url])
    else MatchUrl(store[1..], url)
  }

  /** `caches.match(request)`: only GET requests match, and the first cache
      holding the URL answers. */
  function MatchAll(store: Store, req: Request): (r: Option<Response>)
    ensures req.verb != "GET" ==> r.None?
    ensures req.verb == "GET" ==>
              (r.None? <==> forall i :: 0 <= i < |store| ==> req.url !in store[i].entries)
    ensures r.Some? ==> exists i :: 0 <= i < |store| && req.url in store[i].entries
                                   && store[i].entries[req.url] == r.value
                                   && forall j :: 0 <= j < i ==> req.url !in store[j].entries
  {
    if req.verb != "GET" then None else MatchUrl(store, req.url)
  }

  /** The single-cache lookup: the entry for the request in the application
      cache only. */
  function MatchApp(store: Store, req: Request): Option<Response>
  {
    var e := Entries(store, AppCache);
    if req.verb == "GET" && req.url in e then Some(e[req.url]) else None
  }

  // ---------------------------------------------------------------------------
  // The three event handlers
  // ---------------------------------------------------------------------------

  const AppCache := "breakout-app-v1"

  /** The application shell precached at install time. */
  const AppAssets: seq<string> := [
    "/", "/index.html", "/manifest.webmanifest",
    "/src/main.jsx", "/src/App.jsx", "/src/index.css",
    "/icons/icon-192.png", "/icons/icon-512.png", "/icons/apple-touch-icon.png"
  ]

  /** The GET request `cache.addAll` builds for one asset path. */
  function AssetRequest(path: string): Request
  {
    Request("GET", Url(path, ""))
  }

  /** `cache.addAll` refuses a response that is not `ok` (status outside
      200..299) or is a partial response (206). */
  predicate AddAllAccepts(res: Response)
  {
    200 <= res.status <= 299 && res.status != 206
  }

  /** `cache.addAll(assets)` succeeds exactly when every asset's fetch
      resolves with a response it accepts. */
  predicate AllAssetsAccepted(net: Network, assets: seq<string>)
  {
    forall i :: 0 <= i < |assets| ==>
      net(AssetRequest(assets[i])).Resolved? && AddAllAccepts(net(AssetRequest(assets[i])).response)
  }

  /** The entries `addAll` writes once every listed asset has been fetched:
      one per asset URL, holding that asset's response, and nothing else. */
  function AssetEntries(paths: seq<string>, net: Network): (m: map<Url, Response>)
    requires forall i :: 0 <= i < |paths| ==> net(AssetRequest(paths[i])).Resolved?
    ensures forall i :: 0 <= i < |paths| ==>
              Url(paths[i], "") in m && m[Url(paths[i], "")] == net(AssetRequest(paths[i])).response
    ensures forall u :: u in m ==> u.query == "" && u.path in paths
    decreases |paths|
  {
    if |paths| == 0 then map[]
    else AssetEntries(paths[1..], net)[Url(paths[0], "") := net(AssetRequest(paths[0])).response]
  }

  datatype InstallOutcome = InstallOutcome(store: Store, installed: bool)

  /** `caches.open(APP_CACHE)` then `cache.addAll(assets)`. The cache is
      created even if `addAll` fails; `addAll` either writes an entry for
      every asset or, when any fetch fails or is refused or the batched write
      itself fails (`writeOk` false, say over quota), writes nothing and the
      install fails. Other caches are never touched. */
  function Install(store: Store, net: Network, assets: seq<string>, writeOk: bool): (r: InstallOutcome)
    ensures r.installed <==> AllAssetsAccepted(net, assets) && writeOk
    ensures Entries(r.store, AppCache) ==
              if r.installed then Entries(store, AppCache) + AssetEntries(assets, net)
              else Entries(store, AppCache)
    ensures Find(r.store, AppCache).Some?
    ensures forall n :: n != AppCache ==> Find(r.store, n) == Find(store, n)
    ensures DistinctNames(store) ==> DistinctNames(r.store)
  {
    var withApp := Open(store, AppCache);
    if AllAssetsAccepted(net, assets) && writeOk then
      var m := AssetEntries(assets, net);
      FindPutAll(withApp, m);
      InstallOutcome(Put(withApp, AppCache, m), true)
    else
      InstallOutcome(withApp, false)
  }

  /** The `install` handler: installs the application shell. */
  function OnInstall(store: Store, net: Network, writeOk: bool): (r: InstallOutcome)
    ensures r.installed <==> AllAssetsAccepted(net, AppAssets) && writeOk
    ensures Find(r.store, AppCache).Some?
    ensures !r.installed ==> Entries(r.store, AppCache) == Entries(store, AppCache)
    ensures forall n :: n != AppCache ==> Find(r.store, n) == Find(store, n)
  {
    Install(store, net, AppAssets, writeOk)
  }

  /** A successful install maps every asset URL to the response fetched for
      it at install time. */
  lemma InstallStoresAssets(store: Store, net: Network, assets: seq<string>, k: nat)
    requires AllAssetsAccepted(net, assets)
    requires k < |assets|
    ensures var e := Entries(Install(store, net, assets, true).store, AppCache);
            var p := assets[k];
            Url(p, "") in e && e[Url(p, "")] == net(AssetRequest(p)).response
  {
    var m := AssetEntries(assets, net);
    assert Url(assets[k], "") in m;
  }

  /** Install touches only the asset URLs of the application cache. */
  lemma InstallKeepsOtherEntries(store: Store, net: Network, assets: seq<string>, writeOk: bool, u: Url)
    requires u in Entries(store, AppCache)
    requires !(u.query == "" && u.path in assets)
    ensures var e := Entries(Install(store, net, assets, writeOk).store, AppCache);
            u in e && e[u] == Entries(store, AppCache)[u]
  {
    if AllAssetsAccepted(net, assets) && writeOk {
      assert u !in AssetEntries(assets, net);
    }
  }

  /** The facts about one write into the application cache that the
      handlers rely on. */
  lemma FindPutAll(store: Store, m: map<Url, Response>)
    requires Find(store, AppCache).Some?
    ensures Entries(Put(store, AppCache, m), AppCache) == Entries(store, AppCache) + m
    ensures forall n :: n != AppCache ==> Find(Put(store, AppCache, m), n) == Find(store, n)
    ensures DistinctNames(store) ==> DistinctNames(Put(store, AppCache, m))
  {
    FindPut(store, AppCache, m, AppCache);
    forall n | n != AppCache ensures Find(Put(store, AppCache, m), n) == Find(store, n) {
      FindPut(store, AppCache, m, n);
    }
  }

  /** `activate`: delete every cache whose name is not `APP_CACHE`. */
  function OnActivate(store: Store): (r: Store)
    ensures forall i :: 0 <= i < |r| ==> r[i].name == AppCache
    ensures Find(r, AppCache) == Find(store, AppCache)
    ensures DistinctNames(store) ==> |r| <= 1
    decreases |store|
  {
    if |store| == 0 then []
    else
      var rest := OnActivate(store[1..]);
      if store[0].name == AppCache then
        assert forall i :: 0 < i < |store| ==> store[i] == store[1..][i - 1];
        [store[0]] + rest
      else rest
  }

  /** API requests are those whose path starts with `/api/`. */
  predicate IsApi(req: Request)
  {
    StartsWith(req.url.path, "/api/")
  }

  /** `cache.put` refuses non-GET requests and partial (206) responses. */
  predicate PutAccepts(req: Request, res: Response)
  {
    req.verb == "GET" && res.status != 206
  }

  /** The fire-and-forget copy into the application cache after a network
      answer: the cache is withApp, and the entry is written only if `put`
      accepts it and the storage write succeeds. */
  function StoreCopy(store: Store, req: Request, res: Response, storageOk: bool): (r: Store)
    ensures forall n :: n != AppCache ==> Find(r, n) == Find(store, n)
    ensures DistinctNames(store) ==> DistinctNames(r)
  {
    var withApp := Open(store, AppCache);
    if PutAccepts(req, res) && storageOk then
      FindPutAll(withApp, map[req.url := res]);
      Put(withApp, AppCache, map[req.url := res])
    else withApp
  }

  datatype FetchOutcome = FetchOutcome(store: Store, response: Option<Response>)

  /** `fetch`: API requests go network-first and store what the network
      returns, falling back to the caches when the network rejects; every
      other request is answered from the caches and only on a miss from the
      network, whose answer is not stored. `None` is a network error. */
  function OnFetch(store: Store, req: Request, net: Network, storageOk: bool): (r: FetchOutcome)
    ensures !IsApi(req) ==> r.store == store
    ensures forall n :: n != AppCache ==> Find(r.store, n) == Find(store, n)
    ensures DistinctNames(store) ==> DistinctNames(r.store)
    ensures IsApi(req) && net(req).Resolved? ==> r.response == Some(net(req).response)
    ensures r.response.None? ==> net(req).Rejected?
  {
    if IsApi(req) then
      match net(req)
      case Resolved(res) => FetchOutcome(StoreCopy(store, req, res, storageOk), Some(res))
      case Rejected => FetchOutcome(store, MatchAll(store, req))
    else
      match MatchAll(store, req)
      case Some(cached) => FetchOutcome(store, Some(cached))
      case None => FetchOutcome(store, net(req).ToOption())
  }

  // ---------------------------------------------------------------------------
  // Properties
  // ---------------------------------------------------------------------------

  /** The classification is a plain prefix test: `/api` itself and `/apix/q`
      are not API requests, `/api/scan` is. */
  lemma ApiClassification(req: Request)
    ensures IsApi(req) <==> |req.url.path| >= 5 && req.url.path[..5] == "/api/"
    ensures !IsApi(Request(req.verb, Url("/api", req.url.query)))
    ensures !IsApi(Request(req.verb, Url("/apix/q", req.url.query)))
    ensures IsApi(Request(req.verb, Url("/api/scan", req.url.query)))
  {
    assert "/apix/q"[4] == 'x';
    assert "/api/scan"[..5] == "/api/";
  }

  /** Network-first, network reachable: the caller gets exactly the network
      response, whatever its status; the application cache then maps the
      URL to it (when `put` accepts it and the write succeeds) and no other
      entry of any cache changes. */
  lemma ApiResolved(store: Store, req: Request, net: Network, storageOk: bool)
    requires IsApi(req) && net(req).Resolved?
    ensures var r := OnFetch(store, req, net, storageOk);
            && r.response == Some(net(req).response)
            && Entries(r.store, AppCache) ==
                 (if PutAccepts(req, net(req).response) && storageOk
                  then Entries(store, AppCache)[req.url := net(req).response]
                  else Entries(store, AppCache))
            && (forall n :: n != AppCache ==> Find(r.store, n) == Find(store, n))
            && (DistinctNames(store) ==> DistinctNames(r.store))
  {
    var res := net(req).response;
    var withApp := Open(store, AppCache);
    assert Entries(withApp, AppCache) == Entries(store, AppCache);
    if PutAccepts(req, res) && storageOk {
      FindPutAll(withApp, map[req.url := res]);
      MergeSingleton(Entries(store, AppCache), req.url, res);
    }
  }

  lemma MergeSingleton(m: map<Url, Response>, k: Url, v: Response)
    ensures m + map[k := v] == m[k := v]
  {
  }

  /** A failed or refused cache write never changes the answer: the write
      is not awaited. */
  lemma WriteFailureInvisible(store: Store, req: Request, net: Network)
    ensures OnFetch(store, req, net, true).response == OnFetch(store, req, net, false).response
  {
  }

  /** Network-first, network down: nothing is written, and the answer is
      the cached entry for the request if there is one, otherwise a network
      error. */
  lemma ApiRejected(store: Store, req: Request, net: Network, storageOk: bool)
    requires IsApi(req) && net(req).Rejected?
    ensures OnFetch(store, req, net, storageOk) == FetchOutcome(store, MatchAll(store, req))
  {
  }

  /** Cache-first, hit: the stored response is returned, the storage is
      unchanged, and the network is never consulted, so any two networks
      give the same outcome. */
  lemma StaticHit(store: Store, req: Request, net1: Network, net2: Network, ok1: bool, ok2: bool)
    requires !IsApi(req) && MatchAll(store, req).Some?
    ensures OnFetch(store, req, net1, ok1) == FetchOutcome(store, MatchAll(store, req))
    ensures OnFetch(store, req, net1, ok1) == OnFetch(store, req, net2, ok2)
  {
  }

  /** Cache-first, miss: the network's answer is passed through and not stored. */
  lemma StaticMiss(store: Store, req: Request, net: Network, storageOk: bool)
    requires !IsApi(req) && MatchAll(store, req).None?
    ensures OnFetch(store, req, net, storageOk) == FetchOutcome(store, net(req).ToOption())
  {
  }

  /** Once only one cache, called `APP_CACHE`, can remain, looking in all
      caches is looking in the application cache. */
  lemma MatchSingleCache(store: Store, req: Request)
    requires |store| <= 1
    requires forall i :: 0 <= i < |store| ==> store[i].name == AppCache
    ensures MatchAll(store, req) == MatchApp(store, req)
  {
    if |store| == 1 {
      assert store[1..] == [];
    }
  }

  /** After activation `caches.match` is the single-cache lookup in the
      application cache as it was before activation. */
  lemma MatchAfterActivate(store: Store, req: Request)
    requires DistinctNames(store)
    ensures MatchAll(OnActivate(store), req) == MatchApp(store, req)
  {
    MatchSingleCache(OnActivate(store), req);
  }

  /** No asset path starts with `/api/`: their second characters differ. */
  lemma AssetsAreStatic(p: string)
    requires p in AppAssets
    ensures !IsApi(AssetRequest(p))
  {
    assert |p| < 2 || p[1] in "ims";
  }

  /** The offline shell: after a successful install followed by activation,
      every asset is answered from the cache with the response fetched at
      install time, whatever the network does later. */
  lemma ShellServedOffline(store: Store, net: Network, later: Network, storageOk: bool, k: nat)
    requires DistinctNames(store)
    requires AllAssetsAccepted(net, AppAssets)
    requires k < |AppAssets|
    ensures var installed := OnInstall(store, net, true);
            var active := OnActivate(installed.store);
            OnFetch(active, AssetRequest(AppAssets[k]), later, storageOk) ==
              FetchOutcome(active, Some(net(AssetRequest(AppAssets[k])).response))
  {
    var installed := OnInstall(store, net, true);
    var active := OnActivate(installed.store);
    var p := AppAssets[k];
    var req := AssetRequest(p);
    MatchAfterActivate(installed.store, req);
    InstallStoresAssets(store, net, AppAssets, k);
    AssetsAreStatic(p);
  }
}
