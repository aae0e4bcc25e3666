/**
 * service-worker.js (its first half, lines 1-107; the second half repeats it):
 * cache-first for static assets, stale-while-revalidate with a two-minute TTL
 * for the market-data API, and the sweep of old caches on activation.
 *
 * Cache Storage is a class holding named caches, each a map from request URL
 * to stored response. fetch() inside the worker is an oracle value of type
 * NetResult, and Date.now() is a parameter.
 */
module ServiceWorker {
  import opened Wrappers
  import Decimal
  import JsSet

  const STATIC_CACHE := "static-v1"
  const RUNTIME_CACHE := "runtime-v1"
  const API_TTL_MS := 2 * 60 * 1000
  const API_ORIGIN := "https://api.coingecko.com"
  /** The header withTimestamp stamps on every response it stores. */
  const TS_HEADER := "x-sw-ts"

  /** A response; header names are lower-case, as the Headers class keeps them. */
  datatype Response = Response(status: int, statusText: string, headers: map<string, string>, body: seq<bv8>)

  datatype Request = Request(verb: string, origin: string, url: string)

  /** What fetch(request) gives the worker: a response of any status, or a rejection. */
  datatype NetResult = Got(response: Response) | NetworkFailure

  /** Which branch of the fetch listener a request takes. */
  datatype Route = Passthrough | ApiRoute | StaticRoute

  function RouteOf(req: Request): (r: Route)
    ensures r == Passthrough <==> req.verb != "GET"
    ensures r == ApiRoute <==> req.verb == "GET" && req.origin == API_ORIGIN
    ensures r == StaticRoute <==> req.verb == "GET" && req.origin != API_ORIGIN
  {
    if req.verb != "GET" then Passthrough
    else if req.origin == API_ORIGIN then ApiRoute
    else StaticRoute
  }

  /** A status the Response constructor accepts: one of 200..599 (an opaque response has status 0). */
  predicate ConstructibleStatus(status: int) { 200 <= status <= 599 }

  /** The null-body statuses, for which the constructor refuses a body. */
  predicate NullBodyStatus(status: int) { status == 204 || status == 205 || status == 304 }

  /**
   * withTimestamp(res) at time now: a copy of res with x-sw-ts set to String(now).
   * The Response constructor throws a RangeError for a status outside 200..599,
   * and a TypeError for a null-body status, since the copied body is always an
   * ArrayBuffer: both cases are None.
   */
  function WithTimestamp(res: Response, now: nat): (r: Option<Response>)
    ensures r.Some? <==> ConstructibleStatus(res.status) && !NullBodyStatus(res.status)
    ensures r.Some? ==>
      && r.value.status == res.status && r.value.statusText == res.statusText && r.value.body == res.body
      && TS_HEADER in r.value.headers && r.value.headers[TS_HEADER] == Decimal.NatToString(now)
      && r.value.headers.Keys == res.headers.Keys + {TS_HEADER}
      && forall h :: h in res.headers && h != TS_HEADER ==> r.value.headers[h] == res.headers[h]
  {
    if ConstructibleStatus(res.status) && !NullBodyStatus(res.status) then
      Some(Response(res.status, res.statusText, res.headers[TS_HEADER := Decimal.NatToString(now)], res.body))
    else None
  }

  /** new Response(JSON.stringify([]), {headers: {'content-type': 'application/json'}, status: 200}). */
  const EMPTY_JSON: Response :=
    Response(200, "", map["content-type" := "application/json"], [0x5B, 0x5D])

  /** Number(cached.headers.get('x-sw-ts') || 0): None stands for NaN. */
  function StoredAt(res: Response): Option<nat>
  {
    if TS_HEADER !in res.headers || res.headers[TS_HEADER] == "" then Some(0)
    else Decimal.ParseDecimal(res.headers[TS_HEADER])
  }

  /** now - ts > API_TTL_MS; a comparison with NaN is false. */
  predicate IsStale(res: Response, now: int)
  {
    match StoredAt(res)
    case None => false
    case Some(ts) => now - ts > API_TTL_MS
  }

  /**
   * An entry stamped at time t is revalidated on a hit at time now exactly when
   * more than two minutes have passed: the stamp reads back as t.
   */
  lemma StampedEntryStaleness(res: Response, t: nat, now: int)
    requires WithTimestamp(res, t).Some?
    ensures IsStale(WithTimestamp(res, t).value, now) <==> now - t > 120000
  {
    Decimal.ParseNatToString(t);
  }

  /** A response without the stamp counts as stored at time 0. */
  lemma UnstampedCountsAsEpoch(res: Response, now: int)
    requires TS_HEADER !in res.headers
    ensures IsStale(res, now) <==> now > API_TTL_MS
  {
  }

  /** A stamp that does not read as a number is never stale, so that entry is never revalidated. */
  lemma UnreadableStampNeverStale(res: Response, now: int)
    requires TS_HEADER in res.headers && res.headers[TS_HEADER] != ""
    requires !Decimal.AllDigits(res.headers[TS_HEADER])
    ensures !IsStale(res, now)
  {
  }

  /** The paths the install listener pre-caches, relative to the worker's directory. */
  const STATIC_ASSETS: seq<string> := [
    "./", "./index.html",
    "./styles/base.css", "./styles/theme.css", "./styles/table.css", "./styles/components.css",
    "./js/main.js", "./js/api.js", "./js/utils.js", "./js/state.js", "./js/ui-table.js",
    "./js/ui-detail.js", "./js/ui-toasts.js", "./js/charts.js", "./js/pwa.js",
    "./assets/logo.svg", "./manifest.json"
  ]

  /** A "./"-relative asset path resolved against scope, the worker's directory URL ending in '/'. */
  function AssetUrl(scope: string, asset: string): string
  {
    if |asset| >= 2 && asset[..2] == "./" then scope + asset[2..] else scope + asset
  }

  /** The request URLs of the static assets, in list order. */
  function AssetUrls(scope: string): (r: seq<string>)
    ensures |r| == |STATIC_ASSETS|
    ensures forall i :: 0 <= i < |r| ==> r[i] == AssetUrl(scope, STATIC_ASSETS[i])
  {
    seq(|STATIC_ASSETS|, i requires 0 <= i < |STATIC_ASSETS| => AssetUrl(scope, STATIC_ASSETS[i]))
  }

  /** response.ok: a 2xx status. */
  predicate Ok(res: Response) { 200 <= res.status <= 299 }

  /** cache.addAll resolves only when every fetch gave an ok response. */
  predicate AllOk(fetched: seq<NetResult>)
  {
    forall i :: 0 <= i < |fetched| ==> fetched[i].Got? && Ok(fetched[i].response)
  }

  /** The entries of m after putting fetched[i] under urls[i], in order. */
  function Added(m: map<string, Response>, urls: seq<string>, fetched: seq<NetResult>): map<string, Response>
    requires |urls| == |fetched| && AllOk(fetched)
    decreases |urls|
  {
    if urls == [] then m
    else Added(m[urls[0] := fetched[0].response], urls[1..], fetched[1..])
  }

  /**
   * What addAll leaves in the cache: every URL of the list is added; an entry
   * not in the list is kept; and a URL's entry is the response fetched for its
   * last occurrence in the list.
   */
  lemma {:induction false} AddedEntries(m: map<string, Response>, urls: seq<string>, fetched: seq<NetResult>)
    requires |urls| == |fetched| && AllOk(fetched)
    ensures forall u :: u in Added(m, urls, fetched) <==> u in m || u in urls
    ensures forall u :: u in m && u !in urls ==> Added(m, urls, fetched)[u] == m[u]
    ensures forall i :: 0 <= i < |urls| && urls[i] !in urls[i + 1..] ==>
      Added(m, urls, fetched)[urls[i]] == fetched[i].response
    decreases |urls|
  {
    if urls != [] {
      var m' := m[urls[0] := fetched[0].response];
      var r := Added(m, urls, fetched);
      assert AllOk(fetched[1..]) by {
        forall i | 0 <= i < |fetched[1..]| ensures fetched[1..][i].Got? && Ok(fetched[1..][i].response) {
          assert fetched[1..][i] == fetched[i + 1];
        }
      }
      AddedEntries(m', urls[1..], fetched[1..]);
      assert r == Added(m', urls[1..], fetched[1..]);
      forall i | 1 <= i < |urls| && urls[i] !in urls[i + 1..] ensures r[urls[i]] == fetched[i].response {
        assert urls[i] == urls[1..][i - 1] && urls[i + 1..] == urls[1..][i..];
        assert fetched[i] == fetched[1..][i - 1];
      }
    }
  }

  lemma StaticAssetsDistinct()
    ensures JsSet.Distinct(STATIC_ASSETS)
  {
  }

  lemma StaticAssetsRelative()
    ensures forall i :: 0 <= i < |STATIC_ASSETS| ==> |STATIC_ASSETS[i]| >= 2 && STATIC_ASSETS[i][..2] == "./"
  {
  }

  /** No two static assets resolve to the same URL. */
  lemma AssetUrlsDistinct(scope: string)
    ensures JsSet.Distinct(AssetUrls(scope))
  {
    StaticAssetsDistinct();
    StaticAssetsRelative();
    forall i, j | 0 <= i < j < |STATIC_ASSETS| ensures AssetUrls(scope)[i] != AssetUrls(scope)[j] {
      var a, b := STATIC_ASSETS[i], STATIC_ASSETS[j];
      assert AssetUrl(scope, a)[|scope|..] == a[2..];
      assert AssetUrl(scope, b)[|scope|..] == b[2..];
      assert a == a[..2] + a[2..] && b == b[..2] + b[2..];
    }
  }

  /**
   * A successful install caches every static asset under its URL with the
   * response fetched for it, and keeps every other entry static-v1 held.
   */
  lemma InstallCachesEveryAsset(m: map<string, Response>, scope: string, fetched: seq<NetResult>)
    requires |fetched| == |STATIC_ASSETS| && AllOk(fetched)
    ensures forall i :: 0 <= i < |STATIC_ASSETS| ==>
      && AssetUrl(scope, STATIC_ASSETS[i]) in Added(m, AssetUrls(scope), fetched)
      && Added(m, AssetUrls(scope), fetched)[AssetUrl(scope, STATIC_ASSETS[i])] == fetched[i].response
    ensures forall u :: u in Added(m, AssetUrls(scope), fetched) <==> u in m || u in AssetUrls(scope)
    ensures forall u :: u in m && u !in AssetUrls(scope) ==> Added(m, AssetUrls(scope), fetched)[u] == m[u]
  {
    var urls := AssetUrls(scope);
    AddedEntries(m, urls, fetched);
    AssetUrlsDistinct(scope);
    forall i | 0 <= i < |urls| ensures urls[i] !in urls[i + 1..] {
      forall k | i + 1 <= k < |urls| ensures urls[k] != urls[i] { }
    }
  }

  /** What the fetch listener does with a request. */
  datatype Handled =
    | NotIntercepted
    | Respond(response: Response)
    | NetworkError   // respondWith(undefined): the page's fetch rejects

  /** The worker's Cache Storage: named caches in creation order. */
  class CacheStorage {
    var names: seq<string>
    var stores: map<string, map<string, Response>>

    ghost predicate Valid()
      reads this
    {
      JsSet.Distinct(names) && (forall n :: n in names <==> n in stores)
    }

    constructor ()
      ensures Valid() && names == [] && stores == map[]
    {
      names := [];
      stores := map[];
    }

    /** The entries of one cache, empty if the cache does not exist. */
    function Entries(name: string): map<string, Response>
      reads this
    {
      if name in stores then stores[name] else map[]
    }

    /** caches.open(name): creates the cache, last in order, if it is missing. */
    method Open(name: string)
      requires Valid()
      modifies this
      ensures Valid()
      ensures names == JsSet.Add(old(names), name)
      ensures stores == if name in old(stores) then old(stores) else old(stores)[name := map[]]
    {
      if name !in stores {
        names := names + [name];
        stores := stores[name := map[]];
      }
    }

    /** caches.open(name) then cache.put(url, res). */
    method Put(name: string, url: string, res: Response)
      requires Valid()
      modifies this
      ensures Valid()
      ensures names == JsSet.Add(old(names), name)
      ensures stores == old(stores)[name := old(Entries(name))[url := res]]
    {
      Open(name);
      stores := stores[name := stores[name][url := res]];
    }

    /** caches.match(url): the first cache, in creation order, holding url. */
    function Match(url: string): (r: Option<Response>)
      reads this
      requires Valid()
      ensures r.None? <==> forall n :: n in stores ==> url !in stores[n]
      ensures r.Some? ==> exists i :: FirstHolding(names, url, i) && r.value == stores[names[i]][url]
    {
      MatchInFirst(names, url);
      MatchIn(names, url)
    }

    /** order[i] is the first cache in order that holds url. */
    ghost predicate FirstHolding(order: seq<string>, url: string, i: int)
      reads this
    {
      && 0 <= i < |order| && order[i] in stores && url in stores[order[i]]
      && forall j :: 0 <= j < i ==> order[j] in stores && url !in stores[order[j]]
    }

    function MatchIn(order: seq<string>, url: string): (r: Option<Response>)
      reads this
      requires forall n :: n in order ==> n in stores
      ensures r.None? <==> forall n :: n in order ==> url !in stores[n]
    {
      if order == [] then None
      else if url in stores[order[0]] then Some(stores[order[0]][url])
      else MatchIn(order[1..], url)
    }

    /** A match comes from the first cache in order that holds the URL. */
    lemma {:induction false} MatchInFirst(order: seq<string>, url: string)
      requires forall n :: n in order ==> n in stores
      ensures MatchIn(order, url).Some? ==>
        exists i :: FirstHolding(order, url, i) && MatchIn(order, url).value == stores[order[i]][url]
    {
      if order != [] {
        if url in stores[order[0]] {
          assert FirstHolding(order, url, 0);
        } else {
          MatchInFirst(order[1..], url);
          if MatchIn(order[1..], url).Some? {
            var i :| FirstHolding(order[1..], url, i) && MatchIn(order[1..], url).value == stores[order[1..][i]][url];
            assert FirstHolding(order, url, i + 1);
          }
        }
      }
    }

    /**
     * The activate listener: deletes every cache whose name is neither
     * static-v1 nor runtime-v1, one caches.delete per name; the survivors keep
     * their entries and their order.
     */
    method Activate()
      requires Valid()
      modifies this
      ensures Valid()
      ensures stores.Keys == old(stores).Keys * {STATIC_CACHE, RUNTIME_CACHE}
      ensures forall n :: n in stores ==> stores[n] == old(stores)[n]
      ensures names == Kept(old(names))
    {
      var keys := names;
      DeleteStale(keys);
      SweptAll(old(stores), keys);
    }

    /** keys.filter(not current).map(caches.delete), visiting keys in order. */
    method DeleteStale(keys: seq<string>)
      requires names == keys && JsSet.Distinct(keys)
      modifies this
      ensures names == Kept(keys)
      ensures stores == Swept(old(stores), keys)
    {
      var i := 0;
      while i < |keys|
        invariant 0 <= i <= |keys|
        invariant names == Kept(keys[..i]) + keys[i..]
        invariant stores == Swept(old(stores), keys[..i])
      {
        Visit(keys, i, old(stores));
        i := i + 1;
      }
      assert keys[..i] == keys;
    }

    /** One turn of the activate loop: caches.delete(keys[i]) unless it is current. */
    method Visit(keys: seq<string>, i: nat, ghost before: map<string, map<string, Response>>)
      requires JsSet.Distinct(keys) && i < |keys|
      requires names == Kept(keys[..i]) + keys[i..] && stores == Swept(before, keys[..i])
      modifies this
      ensures names == Kept(keys[..i + 1]) + keys[i + 1..] && stores == Swept(before, keys[..i + 1])
    {
      ActivateStep(keys, i);
      SweptStep(before, keys, i);
      if !IsCurrent(keys[i]) {
        Delete(keys[i]);
      }
    }

    /** caches.delete(name). */
    method Delete(name: string)
      modifies this
      ensures names == JsSet.Delete(old(names), name)
      ensures stores == old(stores) - {name}
    {
      names := JsSet.Delete(names, name);
      stores := stores - {name};
    }

    /**
     * apiSWR(request) at time now, the network answering at time arrival. A hit
     * is served as stored, with a revalidation iff the entry is stale; a miss
     * is fetched, stamped, stored and returned; a failed miss gets the
     * synthetic empty response and stores nothing.
     */
    method ApiSWR(req: Request, now: int, arrival: nat, net: NetResult)
      returns (resp: Response, revalidate: bool)
      requires Valid()
      modifies this
      ensures Valid()
      ensures names == JsSet.Add(old(names), RUNTIME_CACHE)
      ensures forall n :: n != RUNTIME_CACHE ==> Entries(n) == old(Entries(n)) && (n in stores <==> n in old(stores))
      ensures req.url in old(Entries(RUNTIME_CACHE)) ==>
        && resp == old(Entries(RUNTIME_CACHE))[req.url]
        && revalidate == IsStale(resp, now)
        && Entries(RUNTIME_CACHE) == old(Entries(RUNTIME_CACHE))
      ensures req.url !in old(Entries(RUNTIME_CACHE)) ==>
        && !revalidate
        && (net.Got? && WithTimestamp(net.response, arrival).Some? ==>
              && resp == WithTimestamp(net.response, arrival).value
              && Entries(RUNTIME_CACHE) == old(Entries(RUNTIME_CACHE))[req.url := resp])
        && (!(net.Got? && WithTimestamp(net.response, arrival).Some?) ==>
              && resp == EMPTY_JSON
              && Entries(RUNTIME_CACHE) == old(Entries(RUNTIME_CACHE)))
    {
      Open(RUNTIME_CACHE);
      if req.url in stores[RUNTIME_CACHE] {
        resp := stores[RUNTIME_CACHE][req.url];
        revalidate := IsStale(resp, now);
        return;
      }
      revalidate := false;
      var wrapped := if net.Got? then WithTimestamp(net.response, arrival) else None;
      if wrapped.Some? {
        resp := wrapped.value;
        stores := stores[RUNTIME_CACHE := stores[RUNTIME_CACHE][req.url := resp]];
      } else {
        resp := EMPTY_JSON;
      }
    }

    /**
     * revalidate(request, cache), settling at time now: a fetched response
     * that can be stamped replaces the entry; any failure leaves the cache as it was.
     */
    method Revalidate(req: Request, now: nat, net: NetResult)
      requires Valid()
      modifies this
      ensures Valid()
      ensures net.Got? && WithTimestamp(net.response, now).Some? ==>
        && names == JsSet.Add(old(names), RUNTIME_CACHE)
        && stores == old(stores)[RUNTIME_CACHE := old(Entries(RUNTIME_CACHE))[req.url := WithTimestamp(net.response, now).value]]
      ensures !(net.Got? && WithTimestamp(net.response, now).Some?) ==>
        names == old(names) && stores == old(stores)
    {
      if net.Got? {
        var wrapped := WithTimestamp(net.response, now);
        if wrapped.Some? {
          Put(RUNTIME_CACHE, req.url, wrapped.value);
        }
      }
    }

    /**
     * The cache-first branch for everything that is not the API: a stored
     * response from any cache is returned without a fetch; a fetched one is
     * returned and a copy put into static-v1; a failed fetch with nothing
     * stored falls back to `cached`, which is undefined.
     */
    method CacheFirst(req: Request, net: NetResult) returns (h: Handled)
      requires Valid()
      modifies this
      ensures Valid()
      ensures old(Match(req.url)).Some? ==>
        h == Respond(old(Match(req.url)).value) && names == old(names) && stores == old(stores)
      ensures old(Match(req.url)).None? && net.Got? ==>
        && h == Respond(net.response)
        && names == JsSet.Add(old(names), STATIC_CACHE)
        && stores == old(stores)[STATIC_CACHE := old(Entries(STATIC_CACHE))[req.url := net.response]]
      ensures old(Match(req.url)).None? && net.NetworkFailure? ==>
        h == NetworkError && names == old(names) && stores == old(stores)
    {
      var cached := Match(req.url);
      if cached.Some? {
        return Respond(cached.value);
      }
      match net
      case Got(res) =>
        Put(STATIC_CACHE, req.url, res);
        h := Respond(res);
      case NetworkFailure =>
        h := NetworkError;
    }

    /**
     * The install listener: caches.open(STATIC_CACHE), then cache.addAll of the
     * static assets. fetched[i] is what fetching STATIC_ASSETS[i] gives; addAll
     * stores nothing unless every fetch gave an ok response, and reports that.
     */
    method Install(scope: string, fetched: seq<NetResult>) returns (ok: bool)
      requires Valid()
      requires |fetched| == |STATIC_ASSETS|
      modifies this
      ensures Valid()
      ensures ok <==> AllOk(fetched)
      ensures names == JsSet.Add(old(names), STATIC_CACHE)
      ensures ok ==> stores == old(stores)[STATIC_CACHE := Added(old(Entries(STATIC_CACHE)), AssetUrls(scope), fetched)]
      ensures !ok ==> stores == old(stores)[STATIC_CACHE := old(Entries(STATIC_CACHE))]
    {
      Open(STATIC_CACHE);
      ok := AllOk(fetched);
      if ok {
        stores := stores[STATIC_CACHE := Added(stores[STATIC_CACHE], AssetUrls(scope), fetched)];
      }
    }

    /**
     * The fetch listener. `net` is what fetch would give if the branch taken
     * goes to the network; `revalidate` says whether a background refresh was
     * started (to be settled by Revalidate).
     */
    method HandleFetch(req: Request, now: int, arrival: nat, net: NetResult)
      returns (h: Handled, revalidate: bool)
      requires Valid()
      modifies this
      ensures Valid()
      ensures RouteOf(req) == Passthrough ==>
        h == NotIntercepted && !revalidate && names == old(names) && stores == old(stores)
      ensures RouteOf(req) == ApiRoute ==>
        && h.Respond?
        && names == JsSet.Add(old(names), RUNTIME_CACHE)
        && (forall n :: n != RUNTIME_CACHE ==> Entries(n) == old(Entries(n)) && (n in stores <==> n in old(stores)))
        && (req.url in old(Entries(RUNTIME_CACHE)) ==>
              && h.response == old(Entries(RUNTIME_CACHE))[req.url]
              && revalidate == IsStale(h.response, now)
              && Entries(RUNTIME_CACHE) == old(Entries(RUNTIME_CACHE)))
        && (req.url !in old(Entries(RUNTIME_CACHE)) && net.Got? && WithTimestamp(net.response, arrival).Some? ==>
              && h.response == WithTimestamp(net.response, arrival).value
              && Entries(RUNTIME_CACHE) == old(Entries(RUNTIME_CACHE))[req.url := h.response])
        && (req.url !in old(Entries(RUNTIME_CACHE)) && !(net.Got? && WithTimestamp(net.response, arrival).Some?) ==>
              && h.response == EMPTY_JSON
              && Entries(RUNTIME_CACHE) == old(Entries(RUNTIME_CACHE)))
      ensures RouteOf(req) == StaticRoute ==>
        && !revalidate
        && (old(Match(req.url)).Some? ==>
              h == Respond(old(Match(req.url)).value) && names == old(names) && stores == old(stores))
        && (old(Match(req.url)).None? && net.Got? ==>
              && h == Respond(net.response)
              && names == JsSet.Add(old(names), STATIC_CACHE)
              && stores == old(stores)[STATIC_CACHE := old(Entries(STATIC_CACHE))[req.url := net.response]])
        && (old(Match(req.url)).None? && net.NetworkFailure? ==>
              h == NetworkError && names == old(names) && stores == old(stores))
      ensures revalidate ==> RouteOf(req) == ApiRoute && req.url in old(Entries(RUNTIME_CACHE))
    {
      match RouteOf(req)
      case Passthrough =>
        h, revalidate := NotIntercepted, false;
      case ApiRoute =>
        var resp;
        resp, revalidate := ApiSWR(req, now, arrival, net);
        h := Respond(resp);
      case StaticRoute =>
        h := CacheFirst(req, net);
        revalidate := false;
    }
  }

  predicate IsCurrent(name: string) { name == STATIC_CACHE || name == RUNTIME_CACHE }

  /** keys.filter(k => [STATIC_CACHE, RUNTIME_CACHE].includes(k)): the names activate keeps. */
  function Kept(names: seq<string>): seq<string>
  {
    if names == [] then []
    else (if IsCurrent(names[0]) then [names[0]] else []) + Kept(names[1..])
  }

  /** The kept names are exactly the current ones among the names. */
  lemma {:induction false} KeptMembers(names: seq<string>)
    ensures forall n :: n in Kept(names) <==> n in names && IsCurrent(n)
  {
    if names != [] {
      KeptMembers(names[1..]);
      assert names == [names[0]] + names[1..];
    }
  }

  /** The caches left after deleting, in turn, every non-current name of ks. */
  function Swept<V>(m: map<string, V>, ks: seq<string>): map<string, V>
  {
    if ks == [] then m
    else if IsCurrent(ks[|ks| - 1]) then Swept(m, ks[..|ks| - 1])
    else Swept(m, ks[..|ks| - 1]) - {ks[|ks| - 1]}
  }

  /** A cache survives the sweep when it is current or was not visited, and keeps its entries. */
  lemma {:induction false} SweptMembers<V>(m: map<string, V>, ks: seq<string>)
    ensures forall n :: n in Swept(m, ks) <==> n in m && (IsCurrent(n) || n !in ks)
    ensures forall n :: n in Swept(m, ks) ==> Swept(m, ks)[n] == m[n]
  {
    if ks != [] {
      SweptMembers(m, ks[..|ks| - 1]);
      assert ks == ks[..|ks| - 1] + [ks[|ks| - 1]];
    }
  }

  /**
   * Once every cache name has been visited, only the two current caches
   * remain, unchanged, and the kept names list exactly them, each once.
   */
  lemma SweptAll<V>(m: map<string, V>, order: seq<string>)
    requires JsSet.Distinct(order) && forall n :: n in order <==> n in m
    ensures Swept(m, order).Keys == m.Keys * {STATIC_CACHE, RUNTIME_CACHE}
    ensures forall n :: n in Swept(m, order) ==> Swept(m, order)[n] == m[n]
    ensures JsSet.Distinct(Kept(order))
    ensures forall n :: n in Kept(order) <==> n in Swept(m, order)
  {
    KeptDistinct(order);
    KeptMembers(order);
    SweptMembers(m, order);
  }

  /** One turn of the activate loop, on the stores: keys[i] goes unless it is current. */
  lemma SweptStep<V>(m: map<string, V>, keys: seq<string>, i: nat)
    requires i < |keys|
    ensures Swept(m, keys[..i + 1])
            == if IsCurrent(keys[i]) then Swept(m, keys[..i]) else Swept(m, keys[..i]) - {keys[i]}
  {
    assert keys[..i + 1][..i] == keys[..i];
  }

  /** One turn of the activate loop: deleting keys[i] when it is not current. */
  lemma ActivateStep(keys: seq<string>, i: nat)
    requires JsSet.Distinct(keys) && i < |keys|
    ensures (if IsCurrent(keys[i]) then Kept(keys[..i]) + keys[i..]
             else JsSet.Delete(Kept(keys[..i]) + keys[i..], keys[i]))
            == Kept(keys[..i + 1]) + keys[i + 1..]
  {
    var k := keys[i];
    assert keys[i..] == [k] + keys[i + 1..];
    assert k !in keys[i + 1..] by {
      forall j | i + 1 <= j < |keys| ensures keys[j] != k { }
    }
    assert k !in keys[..i];
    assert keys[..i + 1] == keys[..i] + [k];
    if IsCurrent(k) {
      VisitCurrent(keys[..i], k, keys[i + 1..]);
    } else {
      VisitStale(keys[..i], k, keys[i + 1..]);
    }
  }

  /** Visiting a current name k between the names already visited and those still to come. */
  lemma VisitCurrent(done: seq<string>, k: string, todo: seq<string>)
    requires IsCurrent(k)
    ensures Kept(done) + ([k] + todo) == Kept(done + [k]) + todo
  {
    KeptAppend(done, k);
    assert Kept(done) + ([k] + todo) == (Kept(done) + [k]) + todo;
  }

  /** Visiting a stale name k, which appears nowhere else: deleting it leaves the rest in order. */
  lemma VisitStale(done: seq<string>, k: string, todo: seq<string>)
    requires !IsCurrent(k) && k !in done && k !in todo
    ensures JsSet.Delete(Kept(done) + ([k] + todo), k) == Kept(done + [k]) + todo
  {
    var kept := Kept(done);
    KeptMembers(done);
    assert kept + ([k] + todo) == kept + [k] + todo;
    JsSet.DeleteAtSplit(kept, k, todo);
    KeptAppend(done, k);
    assert kept + [] == kept;
  }

  lemma {:induction false} KeptDistinct(names: seq<string>)
    requires JsSet.Distinct(names)
    ensures JsSet.Distinct(Kept(names))
  {
    if names != [] {
      assert JsSet.Distinct(names[1..]) by {
        forall i, j | 0 <= i < j < |names[1..]| ensures names[1..][i] != names[1..][j] {
          assert names[i + 1] != names[j + 1];
        }
      }
      KeptDistinct(names[1..]);
      KeptMembers(names[1..]);
      assert names[0] !in names[1..] by {
        forall j | 1 <= j < |names| ensures names[j] != names[0] { }
      }
    }
  }

  lemma {:induction false} KeptAppend(names: seq<string>, n: string)
    ensures Kept(names + [n]) == Kept(names) + (if IsCurrent(n) then [n] else [])
  {
    if names == [] {
      assert names + [n] == [n];
    } else {
      var head := if IsCurrent(names[0]) then [names[0]] else [];
      var last := if IsCurrent(n) then [n] else [];
      calc {
        Kept(names + [n]);
      == { assert (names + [n])[0] == names[0] && (names + [n])[1..] == names[1..] + [n]; }
        head + Kept(names[1..] + [n]);
      == { KeptAppend(names[1..], n); }
        head + (Kept(names[1..]) + last);
        (head + Kept(names[1..])) + last;
        Kept(names) + last;
      }
    }
  }
}
