# Crypto dashboard: freshness and resilience layer in Dafny

This project models how the crypto-market dashboard keeps its data fresh and
survives a failing network. It covers these parts:

- **The API client** (`js/api.js`): `withBackoff` retries with exponential
  backoff and honours `Retry-After`. `fetchJson` turns a non-OK status into an
  error. `cacheKey` builds the session-cache keys. `fetchMarkets` and
  `fetchCoinDetail` do a stale-while-revalidate read over `sessionStorage`.
- **The service worker** (`service-worker.js`, its first copy, lines 1-107):
  - it routes each request;
  - static assets are served cache-first;
  - the market API is served stale-while-revalidate, with a two-minute TTL
    carried in an `x-sw-ts` header;
  - on activation it sweeps caches of older versions.
- **The polling loop** (`js/main.js`): polling on an interval, backoff after a
  failed tick (10 s doubling up to 120 s), the refresh-interval change, the
  theme cycle and the watchlist toggle.
- **The preference store** (`js/state.js`): currency, theme, a watchlist Set
  and settings, persisted to `localStorage` and announced to subscribers.
- **The table view** (`js/ui-table.js`): filter state, `applyFilters`,
  `sortItems`, `renderTable` and `filterToWatchlist`.
- **The helpers** from `js/utils.js` that the above rely on: `fmtPct`,
  `timeAgo`, `clamp` and `onKey`.
- **`getSeries`** (`js/ui-detail.js`): the chart series of the detail view.

Several supporting modules model the JavaScript built-ins the code leans on:

| Module | File | Models |
|---|---|---|
| `Wrappers` | `wrappers.dfy` | Option and Result |
| `Decimal` | `decimal.dfy` | `String(n)` and `Number(s)` on naturals |
| `Text` | `text.dfy` | `toLowerCase`, `trim`, `includes` |
| `JsonText` | `jsontext.dfy` | `JSON.stringify` of a string or an array of strings, and the parser that reads them back |
| `JsSet` | `jsset.dfy` | a JavaScript `Set`, as an insertion-ordered sequence without repeats |
| `StableSort` | `stablesort.dfy` | a stable insertion sort, on sequences and in place on an array |

Where the program holds state, the model holds it in a class:

| Class | Models |
|---|---|
| `Api.SessionCache` | `sessionStorage` |
| `ServiceWorker.CacheStorage` | Cache Storage, as named caches of URL to response |
| `State.Store` | the `initial` object, its subscribers and `localStorage` |
| `Table.TableState` | the module variables of `ui-table.js`, plus the rows last rendered |
| `Dashboard.Dashboard` | the polling state of `main.js` and its timers |

Timers are modelled as bookkeeping:

- an interval has a handle and a period;
- a pending `setTimeout` is a queued delay;
- firing a timeout is an explicit step.

Outside inputs become parameters:

- the network is an oracle function;
- `Math.random() * 100` is a jitter function;
- `Date.now()` is a time argument.

Where the code and its design description disagree, the model follows the code:

- **Cache keys are not normalised.** A markets key is
  `markets:{"vsCurrency":…,"page":…,"perPage":…}`, with the fields in that
  fixed order and the currency as given. Only the URL lower-cases the
  currency. `Api.CurrencyCaseSplitsCache` shows that "USD" and "usd" send the
  same request but use two cache entries.
- **The backoff survives an interval change.** Changing the refresh interval
  does not reset it (`Dashboard.Dashboard.ChangeRefreshInterval`).
- **A successful tick does not shorten the period.** It sets the backoff to 0
  but does not re-arm the interval, so the period stays refresh + backoff until
  the next restart.
- **The service worker stores any status it can stamp.** It caches error
  responses too. Stamping fails only for a status outside 200..599 and for
  the null-body statuses 204, 205 and 304, because the `Response` constructor
  rejects those. An API miss then gets the synthetic empty response.
- **Toggling a coin twice can reorder the watchlist.** When the coin was
  already on it, it moves to the end of the Set's order (`State.ToggleTwice`).

## Model

| member | source | states |
|---|---|---|
| Api.RetryAfterMs | js/api.js:31-32 | retryAfterMs is set exactly when Retry-After is non-empty. It is a positive multiple of 1000. It is 1000 exactly when the header reads as NaN, 0 or 1. |
| Api.FetchJson | js/api.js:27-36 | Data is delivered iff the status is 200..299 and the body is valid JSON, and the data is the body. A non-OK status is an HttpError with that status and the header's retryAfterMs. A 2xx body that is not JSON is a MalformedBody error, which is retried like any other. A transport failure is passed on. |
| Api.WaitBounds | js/api.js:14-15 | A non-zero Retry-After delay is used as is. Otherwise the wait is base·2^attempt plus jitter, in [base·2^k, base·2^k + 100). |
| Api.HeaderWaitAtLeastOneSecond | js/api.js:14-15 | A reply carrying Retry-After is always followed by a wait of at least one second. |
| Api.RetryOutcomeIsFirstSuccess | js/api.js:7-21 | The retry loop succeeds iff one of the first `tries` attempts delivers. It returns the first delivery, with every earlier attempt failed. Otherwise it throws the last attempt's error, or undefined when tries ≤ 0. |
| Api.WithBackoff | js/api.js:7-21 | The loop computes that outcome with at most `tries` calls. It sleeps after every failed call, the last one included. Sleep k is the server delay or base·2^k + jitter(k). |
| Api.ReadNatOfNatToString | js/api.js:23 | The number read back from the decimal text of n, followed by a non-digit, is n. |
| Api.ParsePagingRoundTrip | js/api.js:48 | The page and perPage fields of a markets key parse back to the values written. |
| Api.ParseMarketsKeyRoundTrip | js/api.js:48 | A markets cache key parses back to its currency, page and perPage. |
| Api.MarketsKeyInjective | js/api.js:48 | Two markets keys are equal iff currency, page and perPage are all equal. |
| Api.ParseDetailKeyRoundTrip | js/api.js:69 | A detail cache key parses back to its id. |
| Api.DetailKeyInjective | js/api.js:69 | Detail keys are equal iff their ids are. No detail key equals a markets key. |
| Api.CurrencyCaseSplitsCache | js/api.js:40-48 | Two currencies differing only in case send the same request but use distinct cache keys. |
| Api.SessionCache.constructor | js/api.js:24-25 | The session cache starts with the stored entries. |
| Api.SessionCache.Get | js/api.js:24 | ssGet finds an entry iff the key is stored, and the entry found is the stored one. |
| Api.SessionCache.Set | js/api.js:25 | ssSet replaces the entry under the key, leaving the other entries unchanged. |
| Api.SessionCache.ReadThrough | js/api.js:49-64 | With useCache and a stored entry: that entry is returned with fromCache true and its stored ts, a background refresh is scheduled, and storage is unchanged. Otherwise: success iff the retry run succeeds, its data is stored with ts = now and returned with fromCache false, and a failure stores nothing. |
| Api.SessionCache.Revalidate | js/api.js:57 | A background refresh that succeeds overwrites the entry with {ts: now, data}. One that fails leaves storage unchanged. |
| Api.SessionCache.FetchMarkets | js/api.js:38-65 | On a hit with useCache, the stored entry under the markets key is returned with fromCache true, and a refresh of the lower-cased request is scheduled. Otherwise it succeeds iff the retry run succeeds: the run's data is returned with fromCache false and ts = now, and stored under the key. A failure carries the run's error and stores nothing. |
| Api.SessionCache.FetchCoinDetail | js/api.js:67-84 | The same read under the detail key, with the detail request. On a miss it succeeds iff the retry run does, returning and storing the run's data; on failure it carries the run's error and stores nothing. |
| ServiceWorker.RouteOf | service-worker.js:47-69 | Non-GET requests are not intercepted. A GET to the API origin takes the SWR branch. Any other GET takes the cache-first branch. Each holds both ways. |
| ServiceWorker.WithTimestamp | service-worker.js:102-107 | The copy keeps status, statusText, body and every other header, and sets x-sw-ts to String(now). It fails iff the status is outside 200..599 or is one of the null-body statuses 204, 205 and 304. |
| ServiceWorker.StampedEntryStaleness | service-worker.js:77-83 | An entry stamped at t is revalidated on a hit at `now` iff now − t > 120000. |
| ServiceWorker.UnstampedCountsAsEpoch | service-worker.js:77-81 | A response without x-sw-ts counts as stored at time 0. |
| ServiceWorker.UnreadableStampNeverStale | service-worker.js:77-81 | A non-numeric stamp reads as NaN, so that entry is never revalidated. |
| ServiceWorker.CacheStorage.constructor | service-worker.js:31-36 | The state before the install listener runs: Cache Storage has no caches. |
| ServiceWorker.CacheStorage.Install | service-worker.js:31-36 | install opens static-v1 (created last if missing, kept otherwise) and reports success iff every asset fetch gave an ok (2xx) response; on success static-v1 is its old entries with every asset put in list order, on failure it is left as opened and no other cache changes. |
| ServiceWorker.AddedEntries | service-worker.js:33 | addAll's result holds exactly the old entries and the listed URLs; an unlisted entry is kept and a URL maps to the response fetched for its last occurrence. |
| ServiceWorker.AssetUrlsDistinct | service-worker.js:11-29 | no two static assets resolve to the same URL. |
| ServiceWorker.InstallCachesEveryAsset | service-worker.js:11-36 | after a successful install, every static asset's URL is in static-v1 mapped to the response fetched for it, and every other entry is kept. |
| ServiceWorker.CacheStorage.Open | service-worker.js:72 | caches.open adds the name once, and creates an empty cache only if none exists. |
| ServiceWorker.CacheStorage.Put | service-worker.js:89 | cache.put stores the response under its URL in that cache and changes nothing else. |
| ServiceWorker.CacheStorage.Match | service-worker.js:61 | caches.match finds nothing iff no cache holds the URL. Otherwise it returns the entry from the first cache, in creation order, that holds the URL. |
| ServiceWorker.CacheStorage.MatchInFirst | service-worker.js:61 | a match over an ordered list of caches comes from the first cache in that order holding the URL. |
| ServiceWorker.CacheStorage.Activate | service-worker.js:38-45 | Activation keeps exactly static-v1 and runtime-v1, with their contents untouched, and the names keep their order. |
| ServiceWorker.CacheStorage.DeleteStale | service-worker.js:40-42 | Deleting every key that is not current leaves Kept(keys) as names and Swept(stores, keys) as stores. |
| ServiceWorker.CacheStorage.Delete | service-worker.js:41 | caches.delete removes the name from the order and its cache from storage. |
| ServiceWorker.CacheStorage.ApiSWR | service-worker.js:71-96 | A hit is served as stored, with a revalidation iff it is stale, and the cache is unchanged. A miss with a stampable response stores and returns the stamped copy. Otherwise the synthetic `[]` response is returned and nothing is stored. Other caches are never touched. |
| ServiceWorker.CacheStorage.Revalidate | service-worker.js:98-100 | A stampable response replaces the runtime entry. Any failure leaves every cache as it was. |
| ServiceWorker.CacheStorage.CacheFirst | service-worker.js:60-68 | A stored response is returned without a fetch. A fetched one is returned and copied into static-v1. A failed fetch with nothing stored is a network error. |
| ServiceWorker.CacheStorage.HandleFetch | service-worker.js:47-69 | Non-GET requests are left alone and change nothing. An API request gets exactly what apiSWR answers: on a hit the stored response, revalidating iff it is stale; on a miss the stamped copy, stored; otherwise the synthetic `[]` response. Caches other than runtime-v1 are untouched. A static request gets exactly what cache-first answers, with the same cache updates, and never revalidates. |
| ServiceWorker.KeptMembers | service-worker.js:41 | The kept names are exactly the current names present. |
| ServiceWorker.SweptMembers | service-worker.js:41 | After the sweep, a cache remains iff it is current or was not listed, and its contents are unchanged. |
| ServiceWorker.SweptAll | service-worker.js:40-42 | Sweeping all names leaves exactly the current caches. The kept order has no repeats and matches the caches left. |
| ServiceWorker.KeptDistinct | service-worker.js:40-42 | Filtering keys without repeats yields no repeats. |
| State.OrDefault | js/state.js:11-12 | `value \|\| fallback`: the empty string falls back. |
| State.StoredOr | js/state.js:11-12 | A stored non-empty value is used; a missing or empty one gives the default. |
| State.DecodeEncodeSettings | js/state.js:14-17 | Persisted settings parse back to the same refreshInterval, or to undefined when none was set. |
| State.Load | js/state.js:10-18 | Loading fails iff the persisted watchlist is not an array of strings in the whitespace-free form JSON.stringify writes. A loaded store has a non-empty currency and theme and a watchlist without repeats. |
| State.LoadEmpty | js/state.js:10-18 | With nothing persisted, the store is USD, auto, an empty watchlist and no interval. |
| State.EffectiveRefresh | js/state.js:32 | An unset or zero interval is 30000 ms; any other value is used as is. |
| State.Toggled | js/state.js:49-51 | Toggling flips the id's membership, keeps every other id's membership, and keeps the Set free of repeats. |
| State.ToggleTwice | js/state.js:49-51 | Toggling twice restores membership. It restores the exact order only when the id was absent; otherwise the id moves to the end. |
| State.DataTheme | js/state.js:64-71 | data-theme is removed iff the theme is auto, and otherwise is the theme. |
| State.NotifyAll | js/state.js:22-24 | emit calls every subscriber once, in order. Each call gets a fresh getState() snapshot. The snapshots are all equal only as long as no subscriber changes the store, which is what the model assumes. |
| State.Store.constructor | js/state.js:10-20 | The store starts as loaded from storage, with no subscribers, and a reload reproduces it. |
| State.Store.GetState | js/state.js:27-34 | getState copies currency, theme and watchlist, and defaults the interval. |
| State.Store.SetCurrency | js/state.js:36-40 | Sets and persists the currency and changes nothing else. A reload still reproduces the store. Every subscriber is notified. |
| State.Store.SetTheme | js/state.js:42-47 | Sets and persists the theme, with the same guarantees. |
| State.Store.ToggleWatch | js/state.js:49-54 | Toggles the id and persists the JSON array, which parses back to the new watchlist. Nothing else changes, and every subscriber is notified. |
| State.Store.SetRefreshInterval | js/state.js:56-60 | Sets and persists the interval. getState then reports it, or 30000 for 0. |
| State.Store.Subscribe | js/state.js:26 | Adds the subscriber once and changes nothing else. |
| State.Store.Unsubscribe | js/state.js:26 | The returned function removes exactly that subscriber. |
| State.ReloadWatchlist | js/state.js:13 | Writing a watchlist as JSON and reloading gives that watchlist and the other fields unchanged. |
| State.ReloadCurrency | js/state.js:11 | Writing a currency and reloading gives that currency, or USD for the empty string. |
| State.ReloadTheme | js/state.js:12 | Writing a theme and reloading gives that theme, or auto for the empty string. |
| State.ReloadSettings | js/state.js:14-17 | Writing settings and reloading gives the interval written. |
| Utils.FmtPct | js/utils.js:8-13 | The direction is up iff the value is > 0, down iff < 0, and flat for 0, null or NaN. The text starts with the matching arrow, or a space for flat, and ends in %. |
| Utils.FloorDiv | js/utils.js:17 | Math.floor division: b·q ≤ a < b·q + b. |
| Utils.TimeAgoBuckets | js/utils.js:15-23 | Under 60 s the age is in seconds, under 60 min in minutes, otherwise in hours, each floored. |
| Utils.Clamp | js/utils.js:46 | The result lies in [min, max] and equals n when n is inside, or the nearer bound when outside. When max < min it is min. |
| Utils.OnKeyIgnoresCase | js/utils.js:51 | The handler cannot tell keys that differ only in letter case. |
| Utils.OnKeyUpperNeverFires | js/utils.js:51 | A binding with an upper-case letter never fires. |
| Text.ToLowerIdempotent | js/ui-table.js:24 | Lower-casing twice is lower-casing once, and leaves no upper-case letter. |
| Text.TrimSpec | js/ui-table.js:24 | trim returns the piece of the input that follows the leading white space; the input is exactly leading part + result + trailing part, and every character cut off on either side is white space. |
| Text.TrimEdges | js/ui-table.js:24 | the trimmed string is empty or neither starts nor ends with a white-space character. |
| Text.TrimStartDrops | js/ui-table.js:24 | every character the leading-white-space strip removes is white space. |
| Text.TrimEndDrops | js/ui-table.js:24 | every character the trailing-white-space strip removes is white space. |
| Text.IncludesAt | js/ui-table.js:47-49 | includes holds iff the needle occurs at some position. |
| Decimal.ParseNatToString | service-worker.js:77 | Number(String(n)) == n for every natural n. |
| Decimal.NatToStringInjective | service-worker.js:105 | Distinct timestamps get distinct stamps. |
| JsonText.UnquoteQuote | js/api.js:23 | A JSON-quoted string parses back to itself, leaving the rest of the text. |
| JsonText.UnquoteAllQuoteAll | js/state.js:52 | JSON.parse(JSON.stringify(ids)) == ids for every array of strings. |
| JsSet.Add | js/state.js:51 | Set.add appends a missing element, keeps a present one in place, and keeps the Set free of repeats. |
| JsSet.Delete | js/state.js:50 | Set.delete removes exactly that element and keeps the rest in order and without repeats. |
| JsSet.DeleteAfterAdd | js/state.js:49-51 | Adding a missing id and then deleting it restores the Set exactly. |
| JsSet.AddAfterDelete | js/state.js:49-51 | Deleting a present id and adding it back moves it to the end. |
| JsSet.FromArray | js/state.js:13 | new Set(array) holds exactly the array's elements, without repeats. |
| JsSet.FromArrayDistinct | js/state.js:13 | new Set of an array without repeats keeps every element in place. |
| RowOrder.LexCompareFlip | js/ui-table.js:74 | Comparing strings the other way round negates the result. |
| RowOrder.LexCompareTrans | js/ui-table.js:74 | String order is transitive. |
| RowOrder.CompareFlip | js/ui-table.js:71-78 | The sort comparator is antisymmetric. |
| RowOrder.CompareTrans | js/ui-table.js:71-78 | The sort comparator is transitive. |
| RowOrder.CompareDirection | js/ui-table.js:56-76 | On a numeric key, asc orders by the key's value ascending and desc descending. |
| RowOrder.UnknownKeyTies | js/ui-table.js:68 | An unknown key makes every pair compare equal. |
| RowOrder.ComparatorConsistent | js/ui-table.js:71-78 | The comparator is a consistent comparison function for Array.prototype.sort. |
| RowOrder.SortRows | js/ui-table.js:54-79 | Sorted rows are a permutation of the input and ordered by the comparator. |
| RowOrder.SortRowsMembers | js/ui-table.js:54-79 | Sorting keeps exactly the same rows. |
| RowOrder.SortRowsStable | js/ui-table.js:71-78 | Rows that tie under the current sort keep their relative order. |
| RowOrder.UnknownKeyKeepsOrder | js/ui-table.js:68-78 | Under an unknown key the stable sort leaves the rows in their order. |
| RowOrder.SortItems | js/ui-table.js:71-78 | The in-place array sort leaves the array equal to SortRows of its old contents. |
| StableSort.InsertPermutes | js/ui-table.js:71-78 | Insertion adds exactly the one element. |
| StableSort.InsertSorted | js/ui-table.js:71-78 | Inserting into a sorted sequence keeps it sorted. |
| StableSort.SortedBySort | js/ui-table.js:71-78 | The sort's result is sorted for any consistent comparator. |
| StableSort.SortPermutes | js/ui-table.js:71-78 | The sort's result is a permutation of its input. |
| StableSort.SortOfSorted | js/ui-table.js:71-78 | Input already in order is left unchanged. |
| StableSort.InsertTies | js/ui-table.js:71-78 | Inserting z keeps the elements tied with any x in their order, and z comes after them when it ties with x too. |
| StableSort.SortStable | js/ui-table.js:71-78 | Stability: for every x, the elements comparing equal to x leave the sort in the order they entered it. |
| StableSort.InsertionSort | js/ui-table.js:71-78 | The in-place sort leaves the array equal to Sort of its old contents. |
| StableSort.InsertAt | js/ui-table.js:71-78 | One pass inserts a[i] into the sorted prefix and leaves the suffix alone. |
| Table.Filter | js/ui-table.js:47-49 | Array.filter keeps exactly the matching elements, every copy of each, in order. |
| Table.SubseqTrans | js/ui-table.js:45-49 | Taking a subsequence of a subsequence gives a subsequence. |
| Table.Slice | js/ui-table.js:45 | slice(0, end) is a prefix of length min(end, len). A negative end counts from the back. |
| Table.ApplyFilters | js/ui-table.js:44-52 | The result is an in-order selection of the first filterTop rows, at most filterTop long. It is that prefix itself when there is no query, and otherwise exactly the prefix's rows whose name or symbol contains the query, every copy kept. |
| Table.ApplyFiltersSubseq | js/ui-table.js:44-52 | Filtering only ever drops rows and keeps their order. |
| Table.OnWatchlist | js/ui-table.js:261-262 | Exactly the rows whose id is on the watchlist, every copy kept, in order. |
| Table.NextSort | js/ui-table.js:28-34 | Clicking the current key flips the direction. Clicking a new key selects it, descending. |
| Table.NextSortTwice | js/ui-table.js:28-34 | Clicking the same key twice restores the sort, or gives ascending for a new key. |
| Table.SortFresh | js/ui-table.js:231 | Sorting a fresh copy gives SortRows of the rows. |
| Table.TableState.constructor | js/ui-table.js:5-10 | The table state starts with the market_cap/desc sort, no query, top 100, page 1 and no rows. |
| Table.TableState.Render | js/ui-table.js:225-239 | The rows shown are the filtered rows, sorted: the same multiset as applyFilters. The filter state is unchanged. |
| Table.TableState.SetFilterTop | js/ui-table.js:18-21 | Sets filterTop and re-renders. |
| Table.TableState.SetSearch | js/ui-table.js:23-26 | Stores the trimmed, lower-cased query and re-renders. |
| Table.TableState.SetSort | js/ui-table.js:28-36 | Applies NextSort and re-renders. |
| Table.TableState.UpdateData | js/ui-table.js:38-42 | Replaces the rows, resets page to 1 and re-renders. |
| Table.TableState.FilterToWatchlist | js/ui-table.js:259-268 | Shows exactly the watched rows, sorted, ignoring filterTop and the query. The state is unchanged. |
| Dashboard.NextBackoff | js/main.js:113 | The first failure gives 10000 ms; later failures double, capped at 120000. |
| Dashboard.NextBackoffInRange | js/main.js:113 | The backoff stays within its allowed values and is never 0 after a failure. |
| Dashboard.BackoffSchedule | js/main.js:113 | After n consecutive failures the backoff is 10, 20, 40 or 80 s, then 120 s from the fifth on. |
| Dashboard.NextTheme | js/main.js:48 | dark → light → auto, and anything else → dark. |
| Dashboard.ThemeCycle | js/main.js:46-52 | Three clicks return to the starting theme. An unknown theme ends at auto. |
| Dashboard.Dashboard.constructor | js/main.js:13-15 | The dashboard starts with no timer, no backoff and watchlist mode off. |
| Dashboard.Dashboard.StartPolling | js/main.js:100-117 | Exactly one live interval, a new handle, with period refreshInterval + backoffMs. |
| Dashboard.Dashboard.ClearInterval | js/main.js:102 | clearInterval stops every live interval and changes nothing else. |
| Dashboard.Dashboard.RestartPolling | js/main.js:119-122 | The interval stops and a timeout with the given delay is queued. The timer variable, backoff and mode are kept. |
| Dashboard.Dashboard.TimeoutFires | js/main.js:121 | A queued timeout fires startPolling: exactly one interval is live, under a new handle, with period refreshInterval + backoffMs. With nothing queued nothing changes. The backoff and mode are kept. |
| Dashboard.Dashboard.TickSucceeded | js/main.js:104-109 | A successful tick updates the rows, resets page to 1 and the backoff to 0. It keeps the timers, the mode and the table's sort, query and filterTop. |
| Dashboard.Dashboard.TickFailed | js/main.js:110-114 | A failed tick advances the backoff by NextBackoff, stops the interval and queues a restart after that backoff. The timer variable and mode are kept. |
| Dashboard.Dashboard.ChangeRefreshInterval | js/main.js:72-76 | The interval is persisted and polling restarts with delay 0. The other preferences, the subscribers, the backoff and the mode are kept. |
| Dashboard.Dashboard.ToggleTheme | js/main.js:46-52 | Sets and persists the next theme in the cycle and returns its label. The other preferences and the subscribers are kept. |
| Dashboard.Dashboard.ToggleWatchlistMode | js/main.js:59-69 | Flips the mode. On: the watched rows, sorted. Off: the normal render. The table's rows, sort, query, filterTop and page and the timers are kept. |
| Detail.Synthetic | js/ui-detail.js:128 | One point per price, price i placed (len − i) hours before now. |
| Detail.SyntheticHourly | js/ui-detail.js:125-129 | The points keep the prices in order. Timestamps rise by exactly one hour, and the last is one hour before now. |
| Detail.PlanSeries | js/ui-detail.js:123-132 | The sparkline is used iff days is 7 and the sparkline is non-empty. Otherwise the chart is requested for the id in the lower-cased currency. |
| Detail.FinishFetch | js/ui-detail.js:133-135 | json.prices when present, [] otherwise, and a failure when the fetch rejects. |
| Detail.GetSeries | js/ui-detail.js:123-136 | The sparkline series on the 7-day branch, and the fetch result otherwise. |

## Left out

- **DOM work:** the DOM rendering (`buildTable`, `buildCards`, toasts, loader, banner texts and `lastUpdated`) is left out. The model records which rows would be shown, not the markup.
- **Number formatting:** `Intl.NumberFormat` is left out. In `fmtPct`, the `toFixed(2)` text of the magnitude is a parameter, and only the label's arrow, direction and trailing `%` are stated.
- **Timers:** real time passing between timer events is not modelled. Timers are handles, periods and queued delays, and firing is a step the caller takes.
- **Randomness and clock:** `Math.random()` and `Date.now()` become parameters.
- **Interleaving:** `async` interleaving is not modelled. A background revalidation is a separate later call: `Api.SessionCache.Revalidate` or `ServiceWorker.CacheStorage.Revalidate`.
- **AbortController:** request cancellation is never used by the code, and is left out.
- **Install step:** the asset fetches `cache.addAll` makes are a parameter, one result per asset. Asset paths resolve by appending them, without the leading `./`, to the worker's directory URL, not by full URL resolution. `skipWaiting` and `clients.claim` change no cache and are left out.
- **Response bodies:** bodies are opaque text or bytes. The market payload is not decoded into rows; rows are given as data.
- **Market figures:** price, volume, cap and percentage figures are integers. A missing figure is `None`, and the sort key applies the source's default to it.
- **`localeCompare`:** modelled as code-point order.
- **`toLowerCase`:** modelled for ASCII letters only.
- **`Number(s)`:** modelled for digit strings only. Anything else counts as NaN.
- **JSON parsing:** for the watchlist, only arrays of strings written without white space are parsed, which is the form `JSON.stringify` writes. The settings object is modelled only for its `refreshInterval` field.
- **Cache API restrictions:** `Cache.put` refuses partial (206) responses, responses with `Vary: *`, and responses whose body was already used. The model stores every response `ServiceWorker.CacheStorage.Put` is given. In particular, `CacheFirst` and `ApiSWR` store a 206 response that the browser would refuse.
- **Duplicated service-worker code:** the second half of `service-worker.js`, after the merge-conflict markers, repeats the first and is not modelled.
- **Storage failures:** `sessionStorage` quota errors, which `ssSet` swallows, are not modelled.
- **Unmodelled code:** `firstLoad`, the keyboard-shortcut wiring, `charts.js`, `ui-toasts.js`, `pwa.js` and the detail modal's rendering are not part of this model.
- **`getState`'s watchlist copy:** it is a value, so aliasing of the returned Set cannot arise.
- **The `step` variable in `getSeries`:** it is unused by the code and left out.
- **Polling interval ticks:** the interval's repeated firing beyond one tick is left to the caller, who calls `TickSucceeded` or `TickFailed` once per tick. Which one is a parameter, not the result of a `fetchMarkets` call. `Api.SessionCache.FetchMarkets` states that a session-cache hit always succeeds, so in the program `TickFailed` follows only a miss whose retry run failed.
- TimeoutFires: pending `startPolling` timeouts fire oldest first, not in order of their delays as the browser would. `startPolling` reads only the current state, so the timer states this can reach are the same, but the order of `pending` is not the browser's.
- ServiceWorker.CacheStorage.Delete: its contract does not restate that the storage invariant is kept. `Activate` and `DeleteStale` state the invariant for the whole sweep.
