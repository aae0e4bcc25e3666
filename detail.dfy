/**
 * js/ui-detail.js getSeries: the chart series of the coin detail view. For 7
 * days it is built from the sparkline the detail payload already carries, one
 * point per hour ending an hour before now; otherwise it is fetched from the
 * market-chart endpoint. Prices are abstracted as integers, Date.now() is a
 * parameter, and the fetch's outcome is a value of type ChartReply.
 */
module Detail {
  import opened Wrappers
  import Text

  const HOUR_MS := 3600 * 1000

  /** A chart point: a timestamp in ms and a price. */
  datatype Point = Point(t: int, v: int)

  /** What getSeries reads of the detail payload: its id and market_data.sparkline_7d.price, if present. */
  datatype CoinDetail = CoinDetail(id: string, sparkline7d: Option<seq<int>>)

  /** The market-chart request: coin id, lower-cased currency, number of days. */
  datatype ChartRequest = ChartRequest(id: string, vsCurrency: string, days: int)

  /** The series comes from the sparkline, or from a market-chart fetch. */
  datatype Plan = FromSparkline(points: seq<Point>) | Fetch(request: ChartRequest)

  /** What the market-chart fetch gives: json.prices, a body without prices, or a rejection. */
  datatype ChartReply = Prices(points: seq<Point>) | NoPrices | Rejected

  /** days === 7 and the sparkline's price array is present and non-empty. */
  predicate UsesSparkline(detail: CoinDetail, days: int)
  {
    days == 7 && detail.sparkline7d.Some? && |detail.sparkline7d.value| > 0
  }

  /** The 7-day synthetic series: price i is placed (len - i) hours before now. */
  function Synthetic(prices: seq<int>, now: int): (r: seq<Point>)
    ensures |r| == |prices|
    ensures forall i :: 0 <= i < |r| ==> r[i] == Point(now - (|prices| - i) * HOUR_MS, prices[i])
  {
    seq(|prices|, i requires 0 <= i < |prices| => Point(now - (|prices| - i) * HOUR_MS, prices[i]))
  }

  /**
   * The synthetic series keeps the prices in order, its timestamps rise by
   * exactly one hour, and the last point is one hour before now.
   */
  lemma SyntheticHourly(prices: seq<int>, now: int)
    ensures var r := Synthetic(prices, now);
      && (forall i :: 0 <= i < |r| ==> r[i].v == prices[i])
      && (forall i :: 0 <= i < |r| - 1 ==> r[i + 1].t == r[i].t + HOUR_MS)
      && (forall i, j :: 0 <= i < j < |r| ==> r[i].t < r[j].t)
      && (|r| > 0 ==> r[|r| - 1].t == now - HOUR_MS && r[0].t == now - |r| * HOUR_MS)
  {
    var r := Synthetic(prices, now);
    forall i, j | 0 <= i < j < |r| ensures r[i].t < r[j].t {
      assert r[j].t - r[i].t == (j - i) * HOUR_MS;
    }
  }

  /**
   * getSeries up to its fetch: the sparkline branch when UsesSparkline holds,
   * otherwise the request for the coin's chart in the current currency.
   */
  function PlanSeries(detail: CoinDetail, days: int, now: int, currency: string): (p: Plan)
    ensures p.FromSparkline? <==> UsesSparkline(detail, days)
    ensures p.FromSparkline? ==> p.points == Synthetic(detail.sparkline7d.value, now)
    ensures p.Fetch? ==> p.request == ChartRequest(detail.id, Text.ToLower(currency), days)
  {
    if UsesSparkline(detail, days) then FromSparkline(Synthetic(detail.sparkline7d.value, now))
    else Fetch(ChartRequest(detail.id, Text.ToLower(currency), days))
  }

  /** The fetch branch's result: json.prices || []; None when the fetch rejects. */
  function FinishFetch(reply: ChartReply): (r: Option<seq<Point>>)
    ensures r.None? <==> reply.Rejected?
    ensures reply.Prices? ==> r == Some(reply.points)
    ensures reply.NoPrices? ==> r == Some([])
  {
    match reply
    case Prices(points) => Some(points)
    case NoPrices => Some([])
    case Rejected => None
  }

  /** The whole of getSeries: the reply is only consulted on the fetch branch. */
  function GetSeries(detail: CoinDetail, days: int, now: int, currency: string, reply: ChartReply): (r: Option<seq<Point>>)
    ensures UsesSparkline(detail, days) ==> r == Some(Synthetic(detail.sparkline7d.value, now))
    ensures !UsesSparkline(detail, days) ==> r == FinishFetch(reply)
  {
    match PlanSeries(detail, days, now, currency)
    case FromSparkline(points) => Some(points)
    case Fetch(_) => FinishFetch(reply)
  }
}
