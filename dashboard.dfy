/**
 * js/main.js: the poll scheduler with its coarse backoff, the refresh
 * interval, the theme toggle and the watchlist-mode toggle.
 *
 * Timers are bookkeeping: setInterval hands out a fresh handle that stays in
 * `live` until clearInterval removes it, and setTimeout(startPolling, delay)
 * appends its delay to `pending`; StartPolling is what runs when the oldest
 * pending timeout fires. A poll tick's fetchMarkets either succeeds with rows
 * (TickSucceeded) or throws (TickFailed).
 */
module Dashboard {
  import opened Wrappers
  import State
  import Table
  import RowOrder

  const BACKOFF_START_MS := 10000
  const BACKOFF_CAP_MS := 120000

  /** The failure branch: 10 s after a success, else double, capped at two minutes. */
  function NextBackoff(b: int): (r: int)
    ensures b == 0 ==> r == BACKOFF_START_MS
    ensures b != 0 ==> r == if 2 * b < BACKOFF_CAP_MS then 2 * b else BACKOFF_CAP_MS
  {
    if b != 0 then (if b * 2 < BACKOFF_CAP_MS then b * 2 else BACKOFF_CAP_MS) else BACKOFF_START_MS
  }

  /** backoffMs is 0 (no failure since the last success) or between 10 s and 2 min. */
  predicate BackoffInRange(b: int)
  {
    b == 0 || BACKOFF_START_MS <= b <= BACKOFF_CAP_MS
  }

  lemma NextBackoffInRange(b: int)
    requires BackoffInRange(b)
    ensures BackoffInRange(NextBackoff(b)) && NextBackoff(b) != 0
  {
  }

  /** backoffMs after n failed ticks in a row, starting from a success. */
  function BackoffAfter(n: nat): int
  {
    if n == 0 then 0 else NextBackoff(BackoffAfter(n - 1))
  }

  /** The failed-tick backoffs run 10 s, 20 s, 40 s, 80 s, then stay at 2 min. */
  lemma {:induction false} BackoffSchedule(n: nat)
    ensures n == 1 ==> BackoffAfter(n) == 10000
    ensures n == 2 ==> BackoffAfter(n) == 20000
    ensures n == 3 ==> BackoffAfter(n) == 40000
    ensures n == 4 ==> BackoffAfter(n) == 80000
    ensures n >= 5 ==> BackoffAfter(n) == 120000
  {
    if n > 5 {
      BackoffSchedule(n - 1);
    } else if n > 0 {
      assert BackoffAfter(1) == 10000;
      assert BackoffAfter(2) == 20000;
      assert BackoffAfter(3) == 40000;
      assert BackoffAfter(4) == 80000;
    }
  }

  /** The theme toggle: dark to light, light to auto, anything else to dark. */
  function NextTheme(cur: string): (next: string)
    ensures cur == "dark" ==> next == "light"
    ensures cur == "light" ==> next == "auto"
    ensures cur != "dark" && cur != "light" ==> next == "dark"
  {
    if cur == "dark" then "light" else if cur == "light" then "auto" else "dark"
  }

  /** Three presses bring each of the three themes back; any other value joins the cycle at dark. */
  lemma ThemeCycle(t: string)
    ensures t in {"dark", "light", "auto"} ==> NextTheme(NextTheme(NextTheme(t))) == t
    ensures t !in {"dark", "light", "auto"} ==> NextTheme(NextTheme(NextTheme(t))) == "auto"
  {
  }

  /** The toast's label for the new theme. */
  function ThemeLabel(next: string): string
  {
    if next == "dark" then "Dark" else if next == "light" then "Light" else "Auto"
  }

  class Dashboard {
    const store: State.Store
    const table: Table.TableState
    var pollingTimer: Option<nat>
    /** Interval handles armed and not yet cleared. */
    var live: set<nat>
    /** The period each interval was armed with. */
    var periods: map<nat, int>
    var nextHandle: nat
    /** Delays of the startPolling timeouts not yet fired, oldest first. */
    var pending: seq<int>
    var backoffMs: int
    var isWatchlistMode: bool

    /** At most one polling interval is live, and it is the one pollingTimer names. */
    ghost predicate Valid()
      reads this, store
    {
      && store.Valid()
      && BackoffInRange(backoffMs)
      && (forall h :: h in live ==> pollingTimer == Some(h) && h in periods)
      && (forall h :: h in periods ==> h < nextHandle)
    }

    /** The module's start state, before init() runs. */
    constructor (s: State.Store, t: Table.TableState)
      requires s.Valid()
      ensures Valid()
      ensures store == s && table == t
      ensures pollingTimer == None && live == {} && pending == [] && backoffMs == 0 && !isWatchlistMode
    {
      store := s;
      table := t;
      pollingTimer := None;
      live := {};
      periods := map[];
      nextHandle := 0;
      pending := [];
      backoffMs := 0;
      isWatchlistMode := false;
    }

    /**
     * startPolling: clears the current interval, then arms a fresh one with
     * period refreshInterval + backoffMs, which becomes the only live one.
     */
    method StartPolling()
      requires Valid()
      modifies this
      ensures Valid()
      ensures pollingTimer.Some? && live == {pollingTimer.value}
      ensures pollingTimer.value !in old(periods)
      ensures periods == old(periods)[pollingTimer.value := store.GetState().refreshInterval + backoffMs]
      ensures backoffMs == old(backoffMs) && pending == old(pending) && isWatchlistMode == old(isWatchlistMode)
    {
      ClearInterval();
      var h := nextHandle;
      nextHandle := nextHandle + 1;
      live := {h};
      periods := periods[h := store.GetState().refreshInterval + backoffMs];
      pollingTimer := Some(h);
    }

    /** clearInterval(pollingTimer); the variable keeps the stale handle. */
    method ClearInterval()
      requires Valid()
      modifies this
      ensures Valid()
      ensures live == {} && pollingTimer == old(pollingTimer) && periods == old(periods)
      ensures nextHandle == old(nextHandle) && backoffMs == old(backoffMs)
      ensures pending == old(pending) && isWatchlistMode == old(isWatchlistMode)
    {
      if pollingTimer.Some? {
        live := live - {pollingTimer.value};
      }
      assert live == {};
    }

    /** restartPolling(delay): no interval stays live until the timeout fires. */
    method RestartPolling(delay: int)
      requires Valid()
      modifies this
      ensures Valid()
      ensures live == {} && pending == old(pending) + [delay]
      ensures pollingTimer == old(pollingTimer) && periods == old(periods)
      ensures backoffMs == old(backoffMs) && isWatchlistMode == old(isWatchlistMode)
    {
      ClearInterval();
      pending := pending + [delay];
    }

    /** The oldest pending startPolling timeout fires; with none pending nothing happens. */
    method TimeoutFires()
      requires Valid()
      modifies this
      ensures Valid()
      ensures old(pending) == [] ==>
        live == old(live) && pending == [] && pollingTimer == old(pollingTimer) && periods == old(periods)
      ensures old(pending) != [] ==>
        && pending == old(pending)[1..] && pollingTimer.Some? && live == {pollingTimer.value}
        && pollingTimer.value !in old(periods)
        && periods == old(periods)[pollingTimer.value := store.GetState().refreshInterval + backoffMs]
      ensures backoffMs == old(backoffMs) && isWatchlistMode == old(isWatchlistMode)
    {
      if pending != [] {
        pending := pending[1..];
        StartPolling();
      }
    }

    /**
     * A tick whose fetch succeeded: the full table gets the rows, whatever
     * the watchlist mode, and backoffMs returns to 0; the interval is not
     * re-armed, so it keeps the period it was armed with.
     */
    method TickSucceeded(rows: seq<RowOrder.Row>)
      requires Valid()
      modifies this, table
      ensures Valid()
      ensures backoffMs == 0
      ensures live == old(live) && pollingTimer == old(pollingTimer) && periods == old(periods)
      ensures pending == old(pending) && isWatchlistMode == old(isWatchlistMode)
      ensures table.allRows == rows && table.page == 1 && table.shown == table.Visible()
      ensures table.currentSort == old(table.currentSort) && table.searchQuery == old(table.searchQuery)
      ensures table.filterTop == old(table.filterTop)
    {
      table.UpdateData(rows);
      backoffMs := 0;
    }

    /** A tick whose fetch threw: the backoff grows and polling restarts after it. */
    method TickFailed()
      requires Valid()
      modifies this
      ensures Valid()
      ensures backoffMs == NextBackoff(old(backoffMs)) && backoffMs != 0
      ensures live == {} && pending == old(pending) + [backoffMs]
      ensures pollingTimer == old(pollingTimer) && periods == old(periods) && isWatchlistMode == old(isWatchlistMode)
    {
      NextBackoffInRange(backoffMs);
      backoffMs := NextBackoff(backoffMs);
      RestartPolling(backoffMs);
    }

    /**
     * The refresh select's change handler: the interval is persisted and
     * polling restarts at once; backoffMs is left as it is.
     */
    method ChangeRefreshInterval(ms: nat)
      requires Valid()
      modifies this, store
      ensures Valid()
      ensures store.refreshInterval == Some(ms) && store.storage == old(store.storage)[State.SETTINGS_KEY := State.EncodeSettings(Some(ms))]
      ensures store.currency == old(store.currency) && store.theme == old(store.theme)
      ensures store.watchlist == old(store.watchlist) && store.subscribers == old(store.subscribers)
      ensures backoffMs == old(backoffMs) && isWatchlistMode == old(isWatchlistMode)
      ensures live == {} && pending == old(pending) + [0]
      ensures pollingTimer == old(pollingTimer) && periods == old(periods)
    {
      var notified := store.SetRefreshInterval(ms);
      RestartPolling(0);
    }

    /** The theme button: the next theme in the cycle is stored; returns the toast's label. */
    method ToggleTheme() returns (caption: string)
      requires Valid()
      modifies store
      ensures Valid()
      ensures store.theme == NextTheme(old(store.theme))
      ensures store.storage == old(store.storage)[State.THEME_KEY := store.theme]
      ensures store.currency == old(store.currency) && store.watchlist == old(store.watchlist)
      ensures store.refreshInterval == old(store.refreshInterval) && store.subscribers == old(store.subscribers)
      ensures caption == ThemeLabel(store.theme)
    {
      var next := NextTheme(store.GetState().theme);
      var notified := store.SetTheme(next);
      caption := ThemeLabel(next);
    }

    /** The watchlist link: flips the mode and shows the watchlist view or the full table. */
    method ToggleWatchlistMode()
      requires Valid()
      modifies this, table
      ensures Valid()
      ensures isWatchlistMode == !old(isWatchlistMode)
      ensures isWatchlistMode ==> table.shown == RowOrder.SortRows(table.currentSort, Table.OnWatchlist(table.allRows, store.watchlist))
      ensures !isWatchlistMode ==> table.shown == table.Visible()
      ensures table.allRows == old(table.allRows) && table.currentSort == old(table.currentSort)
      ensures table.searchQuery == old(table.searchQuery) && table.filterTop == old(table.filterTop)
      ensures table.page == old(table.page)
      ensures backoffMs == old(backoffMs) && live == old(live) && pending == old(pending)
      ensures pollingTimer == old(pollingTimer) && periods == old(periods)
    {
      isWatchlistMode := !isWatchlistMode;
      if isWatchlistMode {
        table.FilterToWatchlist(store.GetState().watchlist);
      } else {
        table.Render();
      }
    }
  }
}
