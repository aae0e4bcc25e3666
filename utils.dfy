/** The pure helpers of js/utils.js: percentage direction, relative time, clamp and key filtering. */
module Utils {
  import Decimal
  import Text

  /** What fmtPct may be handed: null or undefined, NaN, or a number. */
  datatype NumberLike = Nullish | NotANumber | Num(value: real)

  datatype Direction = Up | Down | Flat

  /** fmtPct's result: the label text and the direction used for the cell's colour class. */
  datatype Pct = Pct(text: string, dir: Direction)

  const ARROW_UP: char := '\U{2191}'
  const ARROW_DOWN: char := '\U{2193}'

  function Arrow(dir: Direction): string
  {
    match dir
    case Up => [ARROW_UP]
    case Down => [ARROW_DOWN]
    case Flat => ""
  }

  /**
   * fmtPct(v). `fixed` is Math.abs(v).toFixed(2), the two-decimal rendering of
   * the magnitude, which is taken as given.
   */
  function FmtPct(v: NumberLike, fixed: string): (p: Pct)
    ensures p.dir == Up <==> v.Num? && v.value > 0.0
    ensures p.dir == Down <==> v.Num? && v.value < 0.0
    ensures p.dir == Flat <==> v.Nullish? || v.NotANumber? || v.value == 0.0
    ensures 2 <= |p.text|
    ensures p.dir == Up ==> p.text[0] == ARROW_UP
    ensures p.dir == Down ==> p.text[0] == ARROW_DOWN
    ensures p.dir == Flat ==> p.text[0] == ' '
    ensures p.text[|p.text| - 1] == '%'
  {
    // Number(v ?? 0): null and undefined become 0; NaN compares false both ways.
    var dir := match v
      case Nullish => Flat
      case NotANumber => Flat
      case Num(x) => if x > 0.0 then Up else if x < 0.0 then Down else Flat;
    Pct(Arrow(dir) + " " + fixed + "%", dir)
  }

  /** How timeAgo reports an age: a count of seconds, minutes or hours. */
  datatype Age = Seconds(n: int) | Minutes(n: int) | Hours(n: int)

  function AgeText(a: Age): string
  {
    match a
    case Seconds(n) => Decimal.IntToString(n) + "s ago"
    case Minutes(n) => Decimal.IntToString(n) + "m ago"
    case Hours(n) => Decimal.IntToString(n) + "h ago"
  }

  /** Math.floor(a / b) for a positive divisor: Dafny's division rounds down when b > 0. */
  function FloorDiv(a: int, b: int): (q: int)
    requires b > 0
    ensures b * q <= a < b * q + b
  {
    a / b
  }

  /** timeAgo(ts) at clock reading now. */
  function TimeAgo(ts: int, now: int): Age
  {
    var s := FloorDiv(now - ts, 1000);
    if s < 60 then Seconds(s)
    else
      var m := FloorDiv(s, 60);
      if m < 60 then Minutes(m)
      else Hours(FloorDiv(m, 60))
  }

  /**
   * With s the whole seconds elapsed, timeAgo reports seconds below a minute,
   * minutes below an hour and hours from then on, and the number shown is s,
   * s / 60 or s / 3600 rounded down.
   */
  lemma TimeAgoBuckets(ts: int, now: int)
    ensures var s := (now - ts) / 1000;
      && (TimeAgo(ts, now).Seconds? <==> s < 60)
      && (TimeAgo(ts, now).Minutes? <==> 60 <= s < 3600)
      && (TimeAgo(ts, now).Hours? <==> 3600 <= s)
      && (TimeAgo(ts, now).Seconds? ==> TimeAgo(ts, now).n == s)
      && (TimeAgo(ts, now).Minutes? ==> TimeAgo(ts, now).n == s / 60)
      && (TimeAgo(ts, now).Hours? ==> TimeAgo(ts, now).n == s / 3600)
  {
    var s := (now - ts) / 1000;
    var m := s / 60;
    assert 60 * m <= s < 60 * m + 60;
    if s >= 60 {
      var h := m / 60;
      assert 60 * h <= m < 60 * h + 60;
      assert 3600 * h <= s < 3600 * h + 3600;
      assert s / 3600 == h;
    }
  }

  /** clamp(n, min, max) = Math.max(min, Math.min(max, n)). */
  function Clamp(n: int, min: int, max: int): (r: int)
    ensures min <= max ==> min <= r <= max
    ensures min <= n <= max ==> r == n
    ensures min <= max && n < min ==> r == min
    ensures min <= max && max < n ==> r == max
    ensures max < min ==> r == min
  {
    var low := if max < n then max else n;
    if min < low then low else min
  }

  /** Whether the handler wrapped by onKey(key, handler) runs for an event whose key is eventKey. */
  predicate OnKey(key: string, eventKey: string)
  {
    Text.ToLower(eventKey) == key
  }

  /** The match ignores the case of the pressed key: 'T' and 't' both trigger onKey('t', ...). */
  lemma OnKeyIgnoresCase(key: string, e1: string, e2: string)
    requires Text.ToLower(e1) == Text.ToLower(e2)
    ensures OnKey(key, e1) <==> OnKey(key, e2)
  {
  }

  /** A key with an upper-case letter never matches, since the event key is lower-cased first. */
  lemma OnKeyUpperNeverFires(key: string, eventKey: string)
    requires Text.HasUpper(key)
    ensures !OnKey(key, eventKey)
  {
    Text.ToLowerIdempotent(eventKey);
  }
}
