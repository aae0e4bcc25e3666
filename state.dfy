/**
 * js/state.js: the preference store. Currency, theme, the watchlist (a Set of
 * coin ids) and the refresh interval live in one record, are persisted to
 * localStorage under four keys, and every change is announced to the
 * subscribers with a fresh snapshot.
 *
 * localStorage is the field `storage`, a map from key to text; the invariant
 * of the store is that reloading the page from it gives back the store.
 */
module State {
  import opened Wrappers
  import Decimal
  import Text
  import JsonText
  import JsSet

  const CURRENCY_KEY := "cpt.currency"
  const THEME_KEY := "cpt.theme"
  const WATCHLIST_KEY := "cpt.watchlist"
  const SETTINGS_KEY := "cpt.settings"

  const DEFAULT_CURRENCY := "USD"
  const DEFAULT_THEME := "auto"
  const DEFAULT_REFRESH_MS := 30000

  /** A subscriber function, known by identity only. */
  type Listener = nat

  /** The store's fields as loaded at start-up (the `initial` object). */
  datatype Prefs = Prefs(currency: string, theme: string, watchlist: seq<string>, refreshInterval: Option<nat>)

  /** What getState returns: a copy, with the refresh interval defaulted. */
  datatype Snapshot = Snapshot(currency: string, theme: string, watchlist: seq<string>, refreshInterval: nat)

  /** One call fn(getState()) made by emit. */
  datatype Notification = Notification(listener: Listener, state: Snapshot)

  datatype LoadError = CorruptWatchlist

  /** `value || fallback` for a string: the empty string is falsy too. */
  function OrDefault(value: string, fallback: string): (r: string)
    ensures r == (if value == "" then fallback else value)
  {
    if value == "" then fallback else value
  }

  /** localStorage.getItem(key) || fallback; a missing key reads as null. */
  function StoredOr(storage: map<string, string>, key: string, fallback: string): (r: string)
    ensures key in storage && storage[key] != "" ==> r == storage[key]
    ensures key !in storage || storage[key] == "" ==> r == fallback
  {
    if key in storage then OrDefault(storage[key], fallback) else fallback
  }

  const SETTINGS_PREFIX := "{\"refreshInterval\":"

  /** JSON.stringify(settings): `{}` until an interval is set. */
  function EncodeSettings(refreshInterval: Option<nat>): string
  {
    match refreshInterval
    case None => "{}"
    case Some(ms) => SETTINGS_PREFIX + Decimal.NatToString(ms) + "}"
  }

  /**
   * settings.refreshInterval after JSON.parse(text), with a parse failure
   * caught as {}: None stands for undefined.
   */
  function DecodeSettings(text: string): Option<nat>
  {
    match Text.DropPrefix(SETTINGS_PREFIX, text)
    case None => None
    case Some(rest) =>
      var (digits, tail) := Decimal.SpanDigits(rest);
      if tail == "}" then Decimal.ParseDecimal(digits) else None
  }

  lemma DecodeEncodeSettings(refreshInterval: Option<nat>)
    ensures DecodeSettings(EncodeSettings(refreshInterval)) == refreshInterval
  {
    match refreshInterval
    case None =>
      assert !Text.StartsWith("{}", SETTINGS_PREFIX);
    case Some(ms) =>
      var d := Decimal.NatToString(ms);
      assert SETTINGS_PREFIX + d + "}" == SETTINGS_PREFIX + (d + "}");
      Text.DropPrefixOfConcat(SETTINGS_PREFIX, d + "}");
      Decimal.SpanDigitsExact(d, "}");
      Decimal.ParseNatToString(ms);
  }

  /**
   * The module's start-up: each preference read back from localStorage with
   * its default. JSON.parse of the watchlist is not guarded, so a corrupt
   * watchlist makes loading fail; a corrupt settings entry reads as {}.
   */
  function Load(storage: map<string, string>): (r: Result<Prefs, LoadError>)
    ensures r.Success? <==> JsonText.UnquoteAll(StoredOr(storage, WATCHLIST_KEY, "[]")).Some?
    ensures r.Success? ==> r.value.currency != "" && r.value.theme != "" && JsSet.Distinct(r.value.watchlist)
  {
    match JsonText.UnquoteAll(StoredOr(storage, WATCHLIST_KEY, "[]"))
    case None => Failure(CorruptWatchlist)
    case Some(ids) =>
      Success(Prefs(
        StoredOr(storage, CURRENCY_KEY, DEFAULT_CURRENCY),
        StoredOr(storage, THEME_KEY, DEFAULT_THEME),
        JsSet.FromArray(ids),
        DecodeSettings(StoredOr(storage, SETTINGS_KEY, "{}"))))
  }

  /** With nothing persisted the store starts as USD, auto theme, empty watchlist, no interval. */
  lemma LoadEmpty()
    ensures Load(map[]) == Success(Prefs("USD", "auto", [], None))
  {
    JsonText.UnquoteAllQuoteAll([]);
    assert JsonText.QuoteAll([]) == "[]";
    assert !Text.StartsWith("{}", SETTINGS_PREFIX);
  }

  /** settings.refreshInterval || 30000: unset and 0 both read as the default. */
  function EffectiveRefresh(refreshInterval: Option<nat>): (ms: nat)
    ensures refreshInterval == None || refreshInterval == Some(0) ==> ms == DEFAULT_REFRESH_MS
    ensures refreshInterval.Some? && refreshInterval.value != 0 ==> ms == refreshInterval.value
  {
    match refreshInterval
    case None => DEFAULT_REFRESH_MS
    case Some(ms) => if ms == 0 then DEFAULT_REFRESH_MS else ms
  }

  /** toggleWatch's change to the Set: delete if present, else add at the end. */
  function Toggled(watchlist: seq<string>, id: string): (r: seq<string>)
    ensures id in r <==> id !in watchlist
    ensures forall other :: other != id ==> (other in r <==> other in watchlist)
    ensures JsSet.Distinct(watchlist) ==> JsSet.Distinct(r)
  {
    if id in watchlist then JsSet.Delete(watchlist, id) else JsSet.Add(watchlist, id)
  }

  /**
   * Toggling twice gives the same Set. When the id was absent it is the very
   * same sequence; when it was present it comes back at the end of the
   * insertion order.
   */
  lemma ToggleTwice(watchlist: seq<string>, id: string)
    requires JsSet.Distinct(watchlist)
    ensures forall x :: x in Toggled(Toggled(watchlist, id), id) <==> x in watchlist
    ensures id !in watchlist ==> Toggled(Toggled(watchlist, id), id) == watchlist
    ensures id in watchlist ==> Toggled(Toggled(watchlist, id), id) == JsSet.Delete(watchlist, id) + [id]
  {
    if id !in watchlist {
      JsSet.DeleteAfterAdd(watchlist, id);
    } else {
      JsSet.AddAfterDelete(watchlist, id);
    }
  }

  /** applyTheme: the data-theme attribute, removed for auto so the system preference applies. */
  function DataTheme(theme: string): (attr: Option<string>)
    ensures attr.None? <==> theme == "auto"
    ensures attr.Some? ==> attr.value == theme
  {
    if theme == "auto" then None else Some(theme)
  }

  /** subscribers.forEach(fn => fn(state)), in subscription order. */
  function NotifyAll(listeners: seq<Listener>, state: Snapshot): (r: seq<Notification>)
    ensures |r| == |listeners|
    ensures forall i :: 0 <= i < |r| ==> r[i] == Notification(listeners[i], state)
  {
    if listeners == [] then [] else [Notification(listeners[0], state)] + NotifyAll(listeners[1..], state)
  }

  class Store {
    var currency: string
    var theme: string
    var watchlist: seq<string>
    var refreshInterval: Option<nat>
    var subscribers: seq<Listener>
    /** localStorage, as far as these four keys go. */
    var storage: map<string, string>

    /** The fields a reload from `storage` would produce. */
    function Reloaded(): Prefs
      reads this
    {
      Prefs(OrDefault(currency, DEFAULT_CURRENCY), OrDefault(theme, DEFAULT_THEME), watchlist, refreshInterval)
    }

    /** Both Sets are free of repeats, and a reload from storage restores the store. */
    ghost predicate Valid()
      reads this
    {
      && JsSet.Distinct(watchlist)
      && JsSet.Distinct(subscribers)
      && Load(storage) == Success(Reloaded())
    }

    /** Module evaluation, when the persisted watchlist parses; no subscribers yet. */
    constructor (persisted: map<string, string>)
      requires Load(persisted).Success?
      ensures Valid()
      ensures Prefs(currency, theme, watchlist, refreshInterval) == Load(persisted).value
      ensures subscribers == [] && storage == persisted
    {
      var p := Load(persisted).value;
      currency := p.currency;
      theme := p.theme;
      watchlist := p.watchlist;
      refreshInterval := p.refreshInterval;
      subscribers := [];
      storage := persisted;
    }

    /** getState: a copy of the fields, with the interval defaulted to 30 s. */
    function GetState(): (s: Snapshot)
      reads this
      ensures s.currency == currency && s.theme == theme && s.watchlist == watchlist
      ensures s.refreshInterval == EffectiveRefresh(refreshInterval)
    {
      Snapshot(currency, theme, watchlist, EffectiveRefresh(refreshInterval))
    }

    /** What emit() would deliver now. */
    function Emitted(): seq<Notification>
      reads this
    {
      NotifyAll(subscribers, GetState())
    }

    predicate InWatchlist(id: string)
      reads this
    {
      id in watchlist
    }

    method SetCurrency(cur: string) returns (notified: seq<Notification>)
      requires Valid()
      modifies this
      ensures Valid()
      ensures currency == cur && storage == old(storage)[CURRENCY_KEY := cur]
      ensures theme == old(theme) && watchlist == old(watchlist) && refreshInterval == old(refreshInterval)
      ensures subscribers == old(subscribers)
      ensures notified == Emitted()
    {
      ReloadCurrency(storage, Reloaded(), cur);
      currency := cur;
      storage := storage[CURRENCY_KEY := cur];
      notified := Emitted();
    }

    /** setTheme: stores the theme; applyTheme's effect on the page is DataTheme(theme). */
    method SetTheme(t: string) returns (notified: seq<Notification>)
      requires Valid()
      modifies this
      ensures Valid()
      ensures theme == t && storage == old(storage)[THEME_KEY := t]
      ensures currency == old(currency) && watchlist == old(watchlist) && refreshInterval == old(refreshInterval)
      ensures subscribers == old(subscribers)
      ensures notified == Emitted()
    {
      ReloadTheme(storage, Reloaded(), t);
      theme := t;
      storage := storage[THEME_KEY := t];
      notified := Emitted();
    }

    /** toggleWatch: flips one id's membership and persists the Set as a JSON array. */
    method ToggleWatch(id: string) returns (notified: seq<Notification>)
      requires Valid()
      modifies this
      ensures Valid()
      ensures watchlist == Toggled(old(watchlist), id)
      ensures storage == old(storage)[WATCHLIST_KEY := JsonText.QuoteAll(watchlist)]
      ensures JsonText.UnquoteAll(storage[WATCHLIST_KEY]) == Some(watchlist)
      ensures currency == old(currency) && theme == old(theme) && refreshInterval == old(refreshInterval)
      ensures subscribers == old(subscribers)
      ensures notified == Emitted()
    {
      watchlist := Toggled(watchlist, id);
      storage := storage[WATCHLIST_KEY := JsonText.QuoteAll(watchlist)];
      ReloadWatchlist(old(storage), old(Reloaded()), watchlist);
      JsonText.UnquoteAllQuoteAll(watchlist);
      notified := Emitted();
    }

    method SetRefreshInterval(ms: nat) returns (notified: seq<Notification>)
      requires Valid()
      modifies this
      ensures Valid()
      ensures refreshInterval == Some(ms)
      ensures storage == old(storage)[SETTINGS_KEY := EncodeSettings(Some(ms))]
      ensures currency == old(currency) && theme == old(theme) && watchlist == old(watchlist)
      ensures subscribers == old(subscribers)
      ensures GetState().refreshInterval == (if ms == 0 then DEFAULT_REFRESH_MS else ms)
      ensures notified == Emitted()
    {
      ReloadSettings(storage, Reloaded(), ms);
      refreshInterval := Some(ms);
      storage := storage[SETTINGS_KEY := EncodeSettings(refreshInterval)];
      notified := Emitted();
    }

    /** subscribe(fn); the function it returns is Unsubscribe(fn). */
    method Subscribe(fn: Listener)
      requires Valid()
      modifies this
      ensures Valid()
      ensures subscribers == JsSet.Add(old(subscribers), fn)
      ensures currency == old(currency) && theme == old(theme) && watchlist == old(watchlist)
      ensures refreshInterval == old(refreshInterval) && storage == old(storage)
    {
      subscribers := JsSet.Add(subscribers, fn);
    }

    method Unsubscribe(fn: Listener)
      requires Valid()
      modifies this
      ensures Valid()
      ensures subscribers == JsSet.Delete(old(subscribers), fn)
      ensures currency == old(currency) && theme == old(theme) && watchlist == old(watchlist)
      ensures refreshInterval == old(refreshInterval) && storage == old(storage)
    {
      subscribers := JsSet.Delete(subscribers, fn);
    }
  }

  /** Persisting a Set as a JSON array and reloading gives the same Set, the other preferences untouched. */
  lemma ReloadWatchlist(storage: map<string, string>, p: Prefs, w: seq<string>)
    requires Load(storage) == Success(p) && JsSet.Distinct(w)
    ensures Load(storage[WATCHLIST_KEY := JsonText.QuoteAll(w)]) == Success(p.(watchlist := w))
  {
    var after := storage[WATCHLIST_KEY := JsonText.QuoteAll(w)];
    JsonText.UnquoteAllQuoteAll(w);
    JsSet.FromArrayDistinct(w);
    assert |JsonText.QuoteAll(w)| >= 2;
    assert StoredOr(after, WATCHLIST_KEY, "[]") == JsonText.QuoteAll(w);
    assert StoredOr(after, CURRENCY_KEY, DEFAULT_CURRENCY) == StoredOr(storage, CURRENCY_KEY, DEFAULT_CURRENCY);
    assert StoredOr(after, THEME_KEY, DEFAULT_THEME) == StoredOr(storage, THEME_KEY, DEFAULT_THEME);
    assert StoredOr(after, SETTINGS_KEY, "{}") == StoredOr(storage, SETTINGS_KEY, "{}");
  }

  /** Persisting a currency and reloading gives that currency (or USD for ""), the rest untouched. */
  lemma ReloadCurrency(storage: map<string, string>, p: Prefs, cur: string)
    requires Load(storage) == Success(p)
    ensures Load(storage[CURRENCY_KEY := cur]) == Success(p.(currency := OrDefault(cur, DEFAULT_CURRENCY)))
  {
    var after := storage[CURRENCY_KEY := cur];
    assert StoredOr(after, WATCHLIST_KEY, "[]") == StoredOr(storage, WATCHLIST_KEY, "[]");
    assert StoredOr(after, CURRENCY_KEY, DEFAULT_CURRENCY) == OrDefault(cur, DEFAULT_CURRENCY);
    assert StoredOr(after, THEME_KEY, DEFAULT_THEME) == StoredOr(storage, THEME_KEY, DEFAULT_THEME);
    assert StoredOr(after, SETTINGS_KEY, "{}") == StoredOr(storage, SETTINGS_KEY, "{}");
  }

  /** Persisting a theme and reloading gives that theme (or auto for ""), the rest untouched. */
  lemma ReloadTheme(storage: map<string, string>, p: Prefs, t: string)
    requires Load(storage) == Success(p)
    ensures Load(storage[THEME_KEY := t]) == Success(p.(theme := OrDefault(t, DEFAULT_THEME)))
  {
    var after := storage[THEME_KEY := t];
    assert StoredOr(after, WATCHLIST_KEY, "[]") == StoredOr(storage, WATCHLIST_KEY, "[]");
    assert StoredOr(after, CURRENCY_KEY, DEFAULT_CURRENCY) == StoredOr(storage, CURRENCY_KEY, DEFAULT_CURRENCY);
    assert StoredOr(after, THEME_KEY, DEFAULT_THEME) == OrDefault(t, DEFAULT_THEME);
    assert StoredOr(after, SETTINGS_KEY, "{}") == StoredOr(storage, SETTINGS_KEY, "{}");
  }

  /** Persisting a refresh interval and reloading gives that interval, the rest untouched. */
  lemma ReloadSettings(storage: map<string, string>, p: Prefs, ms: nat)
    requires Load(storage) == Success(p)
    ensures Load(storage[SETTINGS_KEY := EncodeSettings(Some(ms))]) == Success(p.(refreshInterval := Some(ms)))
  {
    var text := EncodeSettings(Some(ms));
    var after := storage[SETTINGS_KEY := text];
    DecodeEncodeSettings(Some(ms));
    assert text != "" by {
      assert text == SETTINGS_PREFIX + Decimal.NatToString(ms) + "}";
    }
    assert StoredOr(after, WATCHLIST_KEY, "[]") == StoredOr(storage, WATCHLIST_KEY, "[]");
    assert StoredOr(after, CURRENCY_KEY, DEFAULT_CURRENCY) == StoredOr(storage, CURRENCY_KEY, DEFAULT_CURRENCY);
    assert StoredOr(after, THEME_KEY, DEFAULT_THEME) == StoredOr(storage, THEME_KEY, DEFAULT_THEME);
    assert StoredOr(after, SETTINGS_KEY, "{}") == text;
  }
}
