/**
 * js/api.js: the retry/backoff executor, the error fetchJson throws, the cache
 * keys, and the stale-while-revalidate read over sessionStorage.
 *
 * The network is an oracle: `net(request, k)` is what the k-th attempt of a
 * retry run for `request` receives. Math.random() * 100 is the jitter
 * function `jitter(k)`, and Date.now() at the moment a result is stored is `now`.
 */
module Api {
  import opened Wrappers
  import Decimal
  import JsonText
  import Text

  /** A response body, passed through without interpretation. */
  type Json = string

  /**
   * What one fetch() call yields: a response, or a transport failure (fetch
   * rejects). A body is None when it is not valid JSON, so res.json() rejects.
   */
  datatype HttpReply = Response(status: int, retryAfter: Option<string>, body: Option<Json>) | Unreachable

  /**
   * What fetchJson throws: an HTTP error, possibly with retryAfterMs set, the
   * transport's own error, or the SyntaxError of res.json() on a malformed body.
   */
  datatype FetchError = HttpError(status: int, retryAfterMs: Option<int>) | TransportError | MalformedBody

  /** The outcome of one call of the function withBackoff retries. */
  datatype Attempt = Delivered(data: Json) | Failed(err: FetchError)

  /** The two requests the dashboard sends, as their URLs describe them. */
  datatype Request =
    | MarketsRequest(vsCurrency: string, perPage: nat, page: nat)
    | DetailRequest(id: string)

  const DEFAULT_TRIES := 4
  const DEFAULT_BASE := 500

  /** retryAfterMs from a Retry-After header: (Number(ra) || 1) * 1000, set only for a non-empty header. */
  function RetryAfterMs(header: Option<string>): (r: Option<int>)
    ensures r.None? <==> header.None? || header == Some("")
    ensures r.Some? ==> 1000 <= r.value && r.value % 1000 == 0
    ensures r.Some? ==> (r.value == 1000 <==>
      Decimal.ParseDecimal(header.value) in {None, Some(0), Some(1)})
  {
    match header
    case None => None
    case Some(ra) =>
      if ra == "" then None
      else
        var seconds := match Decimal.ParseDecimal(ra)
          case Some(n) => if n == 0 then 1 else n
          case None => 1;
        Some(seconds * 1000)
  }

  /**
   * fetchJson: a non-OK status becomes a thrown HttpError; an OK body is
   * delivered when it parses, and otherwise res.json() rejects.
   */
  function FetchJson(reply: HttpReply): (a: Attempt)
    ensures a.Delivered? <==> reply.Response? && 200 <= reply.status <= 299 && reply.body.Some?
    ensures a.Delivered? ==> a.data == reply.body.value
    ensures reply.Unreachable? ==> a == Failed(TransportError)
    ensures reply.Response? && 200 <= reply.status <= 299 && reply.body.None? ==> a == Failed(MalformedBody)
    ensures reply.Response? && !(200 <= reply.status <= 299) ==>
      a.Failed? && a.err.HttpError? && a.err.status == reply.status && a.err.retryAfterMs == RetryAfterMs(reply.retryAfter)
  {
    match reply
    case Unreachable => Failed(TransportError)
    case Response(status, retryAfter, body) =>
      if !(200 <= status <= 299) then Failed(HttpError(status, RetryAfterMs(retryAfter)))
      else if body.None? then Failed(MalformedBody)
      else Delivered(body.value)
  }

  function Pow2(k: nat): (p: nat)
    ensures 1 <= p
  {
    if k == 0 then 1 else 2 * Pow2(k - 1)
  }

  /** Number(e?.retryAfterMs || 0): the server's delay, or 0 when the error carries none. */
  function ServerDelay(e: FetchError): int
  {
    if e.HttpError? && e.retryAfterMs.Some? then e.retryAfterMs.value else 0
  }

  /** The wait after failed attempt k: the server's delay if non-zero, else base * 2^k plus jitter. */
  function Wait(e: FetchError, base: int, k: nat, jitter: int): int
  {
    var retryAfter := ServerDelay(e);
    if retryAfter != 0 then retryAfter else base * Pow2(k) + jitter
  }

  /**
   * A Retry-After header fixes the wait outright, whatever base is; without one
   * the wait lies in [base * 2^k, base * 2^k + 100).
   */
  lemma WaitBounds(e: FetchError, base: int, k: nat, jitter: int)
    requires 0 <= jitter < 100
    ensures e.HttpError? && e.retryAfterMs.Some? && e.retryAfterMs.value != 0 ==>
      Wait(e, base, k, jitter) == e.retryAfterMs.value
    ensures ServerDelay(e) == 0 ==>
      base * Pow2(k) <= Wait(e, base, k, jitter) < base * Pow2(k) + 100
  {
  }

  /** A wait taken from a header that fetchJson built is at least one second. */
  lemma HeaderWaitAtLeastOneSecond(status: int, header: Option<string>, base: int, k: nat, jitter: int)
    requires RetryAfterMs(header).Some?
    ensures Wait(HttpError(status, RetryAfterMs(header)), base, k, jitter) >= 1000
  {
  }

  /**
   * What withBackoff settles to from attempt `attempt` on, lastErr being the
   * error seen last: the first delivery, or the last error once tries run out.
   */
  function RetryOutcome(fetchFn: nat -> Attempt, tries: int, attempt: nat, lastErr: Option<FetchError>)
    : Result<Json, Option<FetchError>>
    decreases tries - attempt
  {
    if tries <= attempt then Failure(lastErr)
    else if fetchFn(attempt).Delivered? then Success(fetchFn(attempt).data)
    else RetryOutcome(fetchFn, tries, attempt + 1, Some(fetchFn(attempt).err))
  }

  /** The outcome of a whole withBackoff run. */
  function BackoffOutcome(fetchFn: nat -> Attempt, tries: int): Result<Json, Option<FetchError>>
  {
    RetryOutcome(fetchFn, tries, 0, None)
  }

  /**
   * withBackoff returns the data of the first attempt that delivers, if one of
   * the first `tries` does; otherwise it throws the error of the last attempt
   * (undefined when tries <= 0).
   */
  lemma {:induction false} RetryOutcomeIsFirstSuccess(fetchFn: nat -> Attempt, tries: int, attempt: nat,
                                                       lastErr: Option<FetchError>)
    requires attempt <= tries || attempt == 0
    requires attempt == 0 ==> lastErr == None
    requires attempt > 0 ==> fetchFn(attempt - 1).Failed? && lastErr == Some(fetchFn(attempt - 1).err)
    ensures var r := RetryOutcome(fetchFn, tries, attempt, lastErr);
      && (r.Success? <==> exists k: nat :: attempt <= k < tries && fetchFn(k).Delivered?)
      && (r.Success? ==>
            exists k: nat :: (&& attempt <= k < tries && fetchFn(k) == Delivered(r.value)
                              && forall j: nat :: attempt <= j < k ==> fetchFn(j).Failed?))
      && (r.Failure? && tries >= 1 ==> r.error == Some(fetchFn(tries - 1).err))
      && (r.Failure? && tries < 1 ==> r.error == None)
    decreases tries - attempt
  {
    if attempt < tries {
      if fetchFn(attempt).Failed? {
        RetryOutcomeIsFirstSuccess(fetchFn, tries, attempt + 1, Some(fetchFn(attempt).err));
        var r := RetryOutcome(fetchFn, tries, attempt, lastErr);
        if r.Success? {
          var k: nat :| && attempt + 1 <= k < tries && fetchFn(k) == Delivered(r.value)
                        && forall j: nat :: attempt + 1 <= j < k ==> fetchFn(j).Failed?;
          assert forall j: nat :: attempt <= j < k ==> fetchFn(j).Failed?;
        }
      } else {
        assert fetchFn(attempt) == Delivered(RetryOutcome(fetchFn, tries, attempt, lastErr).value);
      }
    }
  }

  /**
   * withBackoff(fetchFn, {tries, base}): calls fetchFn at most `tries` times,
   * sleeping after every failed call (the last one included), and returns
   * the first delivery or throws the last error. `calls` counts the calls of
   * fetchFn and `waits` lists the sleeps in order.
   */
  method WithBackoff(fetchFn: nat -> Attempt, tries: int, base: int, jitter: nat -> int)
    returns (r: Result<Json, Option<FetchError>>, calls: nat, waits: seq<int>)
    ensures r == BackoffOutcome(fetchFn, tries)
    ensures calls <= (if tries < 0 then 0 else tries)
    ensures r.Success? ==> 1 <= calls && fetchFn(calls - 1) == Delivered(r.value) && |waits| == calls - 1
    ensures r.Failure? ==> calls == (if tries < 0 then 0 else tries) && |waits| == calls
    ensures forall k: nat :: k < |waits| ==>
      fetchFn(k).Failed? && waits[k] == Wait(fetchFn(k).err, base, k, jitter(k))
  {
    var attempt: nat := 0;
    var lastErr: Option<FetchError> := None;
    waits := [];
    while attempt < tries
      invariant attempt <= (if tries < 0 then 0 else tries)
      invariant |waits| == attempt
      invariant forall k: nat :: k < attempt ==>
        fetchFn(k).Failed? && waits[k] == Wait(fetchFn(k).err, base, k, jitter(k))
      invariant lastErr == if attempt == 0 then None else Some(fetchFn(attempt - 1).err)
      invariant BackoffOutcome(fetchFn, tries) == RetryOutcome(fetchFn, tries, attempt, lastErr)
      decreases tries - attempt
    {
      var a := fetchFn(attempt);
      if a.Delivered? {
        return Success(a.data), attempt + 1, waits;
      }
      lastErr := Some(a.err);
      var retryAfter := ServerDelay(a.err);
      var wait := if retryAfter != 0 then retryAfter else base * Pow2(attempt) + jitter(attempt);
      waits := waits + [wait];
      attempt := attempt + 1;
    }
    return Failure(lastErr), attempt, waits;
  }

  /** cacheKey(name, params) = name + ":" + JSON.stringify(params). */
  function CacheKey(name: string, params: string): string
  {
    name + ":" + params
  }

  /** The key fetchMarkets uses: params {vsCurrency, page, perPage}, serialised in that order. */
  function MarketsKey(vsCurrency: string, page: nat, perPage: nat): string
  {
    CacheKey("markets", "{\"vsCurrency\":" + JsonText.Quote(vsCurrency) + PagingJson(page, perPage))
  }

  /** The page and perPage members of the markets params, and the closing brace. */
  function PagingJson(page: nat, perPage: nat): string
  {
    ",\"page\":" + Decimal.NatToString(page) + ",\"perPage\":" + Decimal.NatToString(perPage) + "}"
  }

  /** The key fetchCoinDetail uses: params {id}. */
  function DetailKey(id: string): string
  {
    CacheKey("detail", "{\"id\":" + JsonText.Quote(id) + "}")
  }

  /** A decimal number at the start of s, and the rest. */
  function ReadNat(s: string): Option<(nat, string)>
  {
    var (digits, rest) := Decimal.SpanDigits(s);
    match Decimal.ParseDecimal(digits)
    case None => None
    case Some(n) => Some((n, rest))
  }

  lemma ReadNatOfNatToString(n: nat, rest: string)
    requires rest == [] || !Decimal.IsDigit(rest[0])
    ensures ReadNat(Decimal.NatToString(n) + rest) == Some((n, rest))
  {
    Decimal.SpanDigitsExact(Decimal.NatToString(n), rest);
    Decimal.ParseNatToString(n);
  }

  /** Reads a markets key back into its arguments. */
  function ParseMarketsKey(key: string): Option<(string, nat, nat)>
  {
    match Text.DropPrefix("markets:", key)
    case None => None
    case Some(params) =>
      match Text.DropPrefix("{\"vsCurrency\":", params)
      case None => None
      case Some(s1) =>
        match JsonText.Unquote(s1)
        case None => None
        case Some((currency, s2)) =>
          match ParsePaging(s2)
          case None => None
          case Some((page, perPage)) => Some((currency, page, perPage))
  }

  /** Reads the `,"page":N,"perPage":M}` tail of a markets key. */
  function ParsePaging(s2: string): Option<(nat, nat)>
  {
    match Text.DropPrefix(",\"page\":", s2)
    case None => None
    case Some(s3) =>
      match ReadNat(s3)
      case None => None
      case Some((page, s4)) =>
        match Text.DropPrefix(",\"perPage\":", s4)
        case None => None
        case Some(s5) =>
          match ReadNat(s5)
          case None => None
          case Some((perPage, s6)) =>
            if s6 == "}" then Some((page, perPage)) else None
  }

  lemma ParsePagingRoundTrip(page: nat, perPage: nat)
    ensures ParsePaging(PagingJson(page, perPage)) == Some((page, perPage))
  {
    var p1 := Decimal.NatToString(page);
    var p2 := Decimal.NatToString(perPage);
    var s5 := p2 + "}";
    var s4 := ",\"perPage\":" + s5;
    var s3 := p1 + s4;
    calc {
      PagingJson(page, perPage);
      ",\"page\":" + p1 + ",\"perPage\":" + p2 + "}";
    == { Text.AppendAssoc(",\"page\":" + p1 + ",\"perPage\":", p2, "}"); }
      ",\"page\":" + p1 + ",\"perPage\":" + s5;
    == { Text.AppendAssoc(",\"page\":" + p1, ",\"perPage\":", s5); }
      ",\"page\":" + p1 + s4;
    == { Text.AppendAssoc(",\"page\":", p1, s4); }
      ",\"page\":" + s3;
    }
    Text.DropPrefixOfConcat(",\"page\":", s3);
    ReadNatOfNatToString(page, s4);
    Text.DropPrefixOfConcat(",\"perPage\":", s5);
    ReadNatOfNatToString(perPage, "}");
  }

  /** A markets key determines its arguments: the key can be read back. */
  lemma ParseMarketsKeyRoundTrip(vsCurrency: string, page: nat, perPage: nat)
    ensures ParseMarketsKey(MarketsKey(vsCurrency, page, perPage)) == Some((vsCurrency, page, perPage))
  {
    var q := JsonText.Quote(vsCurrency);
    var s2 := PagingJson(page, perPage);
    var params := "{\"vsCurrency\":" + q + s2;
    assert MarketsKey(vsCurrency, page, perPage) == "markets:" + params by {
      assert "markets" + ":" == "markets:";
    }
    Text.DropPrefixOfConcat("markets:", params);
    Text.AppendAssoc("{\"vsCurrency\":", q, s2);
    Text.DropPrefixOfConcat("{\"vsCurrency\":", q + s2);
    JsonText.UnquoteQuote(vsCurrency, s2);
    ParsePagingRoundTrip(page, perPage);
  }

  /** Distinct arguments never share a markets cache entry; equal arguments always do. */
  lemma MarketsKeyInjective(c1: string, page1: nat, per1: nat, c2: string, page2: nat, per2: nat)
    ensures MarketsKey(c1, page1, per1) == MarketsKey(c2, page2, per2) <==>
      c1 == c2 && page1 == page2 && per1 == per2
  {
    ParseMarketsKeyRoundTrip(c1, page1, per1);
    ParseMarketsKeyRoundTrip(c2, page2, per2);
  }

  /** Reads a detail key back into its coin id. */
  function ParseDetailKey(key: string): Option<string>
  {
    match Text.DropPrefix("detail:", key)
    case None => None
    case Some(params) =>
      match Text.DropPrefix("{\"id\":", params)
      case None => None
      case Some(s1) =>
        match JsonText.Unquote(s1)
        case None => None
        case Some((id, s2)) => if s2 == "}" then Some(id) else None
  }

  /** A detail key determines its coin id: the key can be read back. */
  lemma ParseDetailKeyRoundTrip(id: string)
    ensures ParseDetailKey(DetailKey(id)) == Some(id)
  {
    var q := JsonText.Quote(id);
    var params := "{\"id\":" + q + "}";
    assert DetailKey(id) == "detail:" + params by {
      assert "detail" + ":" == "detail:";
    }
    Text.DropPrefixOfConcat("detail:", params);
    Text.AppendAssoc("{\"id\":", q, "}");
    Text.DropPrefixOfConcat("{\"id\":", q + "}");
    JsonText.UnquoteQuote(id, "}");
  }

  /** Distinct coin ids never share a detail entry, and no detail key is a markets key. */
  lemma DetailKeyInjective(id1: string, id2: string, vsCurrency: string, page: nat, perPage: nat)
    ensures DetailKey(id1) == DetailKey(id2) <==> id1 == id2
    ensures DetailKey(id1) != MarketsKey(vsCurrency, page, perPage)
  {
    ParseDetailKeyRoundTrip(id1);
    ParseDetailKeyRoundTrip(id2);
    assert DetailKey(id1)[0] == 'd';
    assert MarketsKey(vsCurrency, page, perPage)[0] == 'm';
  }

  /** The request fetchMarkets sends: the URL carries the currency lower-cased. */
  function MarketsRequestFor(vsCurrency: string, page: nat, perPage: nat): Request
  {
    MarketsRequest(Text.ToLower(vsCurrency), perPage, page)
  }

  /**
   * Two spellings of one currency ('USD', 'usd') send the same request but are
   * cached under different keys.
   */
  lemma CurrencyCaseSplitsCache(c1: string, c2: string, page: nat, perPage: nat)
    requires c1 != c2 && Text.ToLower(c1) == Text.ToLower(c2)
    ensures MarketsRequestFor(c1, page, perPage) == MarketsRequestFor(c2, page, perPage)
    ensures MarketsKey(c1, page, perPage) != MarketsKey(c2, page, perPage)
  {
    MarketsKeyInjective(c1, page, perPage, c2, page, perPage);
  }

  /** What sessionStorage holds under a key: the time of the fetch and its data. */
  datatype Entry = Entry(ts: int, data: Json)

  /** What fetchMarkets and fetchCoinDetail resolve to. */
  datatype Served = Served(data: Json, fromCache: bool, ts: int)

  /** A background refresh started by a cache hit, to be settled later by Revalidate. */
  datatype Revalidation = Revalidation(key: string, request: Request)

  /** The withBackoff run behind one request, with the default tries and base. */
  function RunFor(net: (Request, nat) -> HttpReply, request: Request): nat -> Attempt
  {
    (k: nat) => FetchJson(net(request, k))
  }

  /** The session store: sessionStorage seen through ssGet and ssSet. */
  class SessionCache {
    var entries: map<string, Entry>

    constructor (stored: map<string, Entry>)
      ensures entries == stored
    {
      entries := stored;
    }

    /** ssGet: the stored entry, or null. */
    function Get(key: string): (e: Option<Entry>)
      reads this
      ensures e.Some? <==> key in entries
      ensures e.Some? ==> e.value == entries[key]
    {
      if key in entries then Some(entries[key]) else None
    }

    /** ssSet: replaces the whole entry under key. */
    method Set(key: string, e: Entry)
      modifies this
      ensures entries == old(entries)[key := e]
    {
      entries := entries[key := e];
    }

    /**
     * The read both fetchMarkets and fetchCoinDetail perform. With useCache and
     * a stored entry: the entry, at once, and a background refresh. Otherwise:
     * the awaited withBackoff run, stored with its completion time and returned.
     */
    method ReadThrough(key: string, request: Request, useCache: bool,
                       net: (Request, nat) -> HttpReply, jitter: nat -> int, now: int)
      returns (r: Result<Served, Option<FetchError>>, background: Option<Revalidation>)
      modifies this
      ensures useCache && key in old(entries) ==>
        && r == Success(Served(old(entries)[key].data, true, old(entries)[key].ts))
        && background == Some(Revalidation(key, request))
        && entries == old(entries)
      ensures !(useCache && key in old(entries)) ==>
        && background.None?
        && (r.Success? <==> BackoffOutcome(RunFor(net, request), DEFAULT_TRIES).Success?)
        && (r.Success? ==>
              && r.value == Served(BackoffOutcome(RunFor(net, request), DEFAULT_TRIES).value, false, now)
              && entries == old(entries)[key := Entry(now, r.value.data)])
        && (r.Failure? ==>
              && r.error == BackoffOutcome(RunFor(net, request), DEFAULT_TRIES).error
              && entries == old(entries))
    {
      var cached := Get(key);
      if useCache && cached.Some? {
        return Success(Served(cached.value.data, true, cached.value.ts)), Some(Revalidation(key, request));
      }
      var latest, calls, waits := WithBackoff(RunFor(net, request), DEFAULT_TRIES, DEFAULT_BASE, jitter);
      background := None;
      match latest
      case Failure(e) =>
        r := Failure(e);
      case Success(data) =>
        var out := Entry(now, data);
        Set(key, out);
        r := Success(Served(data, false, out.ts));
    }

    /**
     * The background refresh a cache hit started, settling at time now: a
     * delivery overwrites the entry with {ts: now, data}; a failure is swallowed
     * and leaves the store as it was.
     */
    method Revalidate(job: Revalidation, net: (Request, nat) -> HttpReply, jitter: nat -> int, now: int)
      modifies this
      ensures var outcome := BackoffOutcome(RunFor(net, job.request), DEFAULT_TRIES);
        && (outcome.Success? ==> entries == old(entries)[job.key := Entry(now, outcome.value)])
        && (outcome.Failure? ==> entries == old(entries))
    {
      var latest, calls, waits := WithBackoff(RunFor(net, job.request), DEFAULT_TRIES, DEFAULT_BASE, jitter);
      if latest.Success? {
        Set(job.key, Entry(now, latest.value));
      }
    }

    /** fetchMarkets({vsCurrency, page, perPage}, {useCache}). */
    method FetchMarkets(vsCurrency: string, page: nat, perPage: nat, useCache: bool,
                        net: (Request, nat) -> HttpReply, jitter: nat -> int, now: int)
      returns (r: Result<Served, Option<FetchError>>, background: Option<Revalidation>)
      modifies this
      ensures var key := MarketsKey(vsCurrency, page, perPage);
        && (useCache && key in old(entries) ==>
              && r == Success(Served(old(entries)[key].data, true, old(entries)[key].ts))
              && background == Some(Revalidation(key, MarketsRequestFor(vsCurrency, page, perPage)))
              && entries == old(entries))
        && (!(useCache && key in old(entries)) ==>
              && background.None?
              && (r.Success? <==> BackoffOutcome(RunFor(net, MarketsRequestFor(vsCurrency, page, perPage)), DEFAULT_TRIES).Success?)
              && (r.Success? ==>
                    && r.value == Served(BackoffOutcome(RunFor(net, MarketsRequestFor(vsCurrency, page, perPage)), DEFAULT_TRIES).value, false, now)
                    && entries == old(entries)[key := Entry(now, r.value.data)])
              && (r.Failure? ==>
                    && r.error == BackoffOutcome(RunFor(net, MarketsRequestFor(vsCurrency, page, perPage)), DEFAULT_TRIES).error
                    && entries == old(entries)))
    {
      r, background := ReadThrough(MarketsKey(vsCurrency, page, perPage),
        MarketsRequestFor(vsCurrency, page, perPage), useCache, net, jitter, now);
    }

    /** fetchCoinDetail(id, {useCache}). */
    method FetchCoinDetail(id: string, useCache: bool,
                           net: (Request, nat) -> HttpReply, jitter: nat -> int, now: int)
      returns (r: Result<Served, Option<FetchError>>, background: Option<Revalidation>)
      modifies this
      ensures var key := DetailKey(id);
        && (useCache && key in old(entries) ==>
              && r == Success(Served(old(entries)[key].data, true, old(entries)[key].ts))
              && background == Some(Revalidation(key, DetailRequest(id)))
              && entries == old(entries))
        && (!(useCache && key in old(entries)) ==>
              && background.None?
              && (r.Success? <==> BackoffOutcome(RunFor(net, DetailRequest(id)), DEFAULT_TRIES).Success?)
              && (r.Success? ==>
                    && r.value == Served(BackoffOutcome(RunFor(net, DetailRequest(id)), DEFAULT_TRIES).value, false, now)
                    && entries == old(entries)[key := Entry(now, r.value.data)])
              && (r.Failure? ==>
                    && r.error == BackoffOutcome(RunFor(net, DetailRequest(id)), DEFAULT_TRIES).error
                    && entries == old(entries)))
    {
      r, background := ReadThrough(DetailKey(id), DetailRequest(id), useCache, net, jitter, now);
    }
  }
}
