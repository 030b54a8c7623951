/** The pure helpers of `StockDetail.jsx`: the quote fallback, the two
    number formatters (their choice of unit, not their digits), the slicing
    of the daily and intraday series into chart points, the range mapping
    and the two-point fallback chart. */
module StockDetail {
  import opened Wrappers
  import opened Seqs
  import Js

  type Object = Js.Object

  // ---------------------------------------------------------------------------
  // The quote

  /** `fetchStockData`: the primary quote when its request was fulfilled
      (None when it was rejected); otherwise the cached quote when that
      request returned an object whose `error` is falsy (`cached` is None
      when it threw or returned nothing). */
  function ChooseQuote(primary: Option<Object>, cached: Option<Object>): (r: Option<Object>)
    ensures primary.Some? ==> r == primary
    ensures primary.None? ==> (r.Some? <==> cached.Some? && !Js.Truthy(Js.Get(cached.value, "error")))
    ensures r.Some? ==> r == primary || r == cached
  {
    if primary.Some? then primary
    else if cached.Some? && !Js.Truthy(Js.Get(cached.value, "error")) then cached
    else None
  }

  // ---------------------------------------------------------------------------
  // Formatting

  /** What a formatter shows: 'N/A', or a number scaled into a unit whose
      digits (`Intl.NumberFormat`, `toFixed(2)`) are not modelled. */
  datatype Shown = NotAvailable | Scaled(mantissa: Js.Number, unit: string)

  /** `formatCurrency`: 'N/A' for any falsy amount, including 0. */
  function FormatCurrency(amount: Js.Value): (r: Shown)
    ensures r.NotAvailable? <==> !Js.Truthy(amount)
    ensures r.Scaled? ==> r.unit == "" && r.mantissa == Js.ToNumber(amount)
  {
    if !Js.Truthy(amount) then NotAvailable else Scaled(Js.ToNumber(amount), "")
  }

  /** `number >= threshold` for a JavaScript number. */
  predicate AtLeast(x: Js.Number, threshold: real) {
    match x
    case Num(v) => v >= threshold
    case Inf(p) => p
    case NaN => false
  }

  const Units: seq<(real, string)> := [(1.0e12, "T"), (1.0e9, "B"), (1.0e6, "M"), (1.0e3, "K")]

  /** `formatLargeNumber`: 'N/A' for falsy input; otherwise the parsed
      number divided by the first of 1e12, 1e9, 1e6 and 1e3 it reaches, with
      that unit's letter, or the number itself without a letter. */
  function FormatLargeNumber(num: Js.Value): (r: Shown)
    ensures r.NotAvailable? <==> !Js.Truthy(num)
    ensures r.Scaled? ==> var n := Js.ParseFloat(num);
      && (r.unit == "T" <==> AtLeast(n, 1.0e12))
      && (r.unit == "B" <==> !AtLeast(n, 1.0e12) && AtLeast(n, 1.0e9))
      && (r.unit == "M" <==> !AtLeast(n, 1.0e9) && AtLeast(n, 1.0e6))
      && (r.unit == "K" <==> !AtLeast(n, 1.0e6) && AtLeast(n, 1.0e3))
      && (r.unit == "" <==> !AtLeast(n, 1.0e3))
  {
    if !Js.Truthy(num) then NotAvailable
    else
      var n := Js.ParseFloat(num);
      if AtLeast(n, 1.0e12) then Scaled(Js.Div(n, Js.Num(1.0e12)), "T")
      else if AtLeast(n, 1.0e9) then Scaled(Js.Div(n, Js.Num(1.0e9)), "B")
      else if AtLeast(n, 1.0e6) then Scaled(Js.Div(n, Js.Num(1.0e6)), "M")
      else if AtLeast(n, 1.0e3) then Scaled(Js.Div(n, Js.Num(1.0e3)), "K")
      else Scaled(n, "")
  }

  /** The scale of each unit letter. */
  function ScaleOf(unit: string): real {
    if unit == "T" then 1.0e12 else if unit == "B" then 1.0e9
    else if unit == "M" then 1.0e6 else if unit == "K" then 1.0e3 else 1.0
  }

  /** For a finite number, the mantissa times the unit's scale gives the
      number back, and below a trillion a lettered mantissa lies in
      [1, 1000), so the largest fitting unit is chosen. */
  lemma LargeNumberMantissa(num: Js.Value)
    requires Js.Truthy(num) && Js.ParseFloat(num).Num?
    ensures var r := FormatLargeNumber(num);
      && r.Scaled? && r.mantissa.Num?
      && r.mantissa.value * ScaleOf(r.unit) == Js.ParseFloat(num).value
      && (r.unit != "" ==> 1.0 <= r.mantissa.value)
      && (r.unit != "" && r.unit != "T" ==> r.mantissa.value < 1000.0)
  {
    var v := Js.ParseFloat(num).value;
    var r := FormatLargeNumber(num);
    if r.unit != "" {
      ScaledBounds(v, ScaleOf(r.unit));
    }
  }

  lemma ScaledBounds(v: real, s: real)
    requires s > 0.0
    ensures (v / s) * s == v
    ensures v >= s ==> v / s >= 1.0
    ensures v < 1000.0 * s ==> v / s < 1000.0
  {
    var m := v / s;
    assert m * s == v;
    if m >= 1000.0 {
      assert m * s >= 1000.0 * s;
    }
  }

  // ---------------------------------------------------------------------------
  // Chart data

  /** One entry of a time series: its date or timestamp and its bar. */
  datatype Entry = Entry(key: string, bar: Object)

  datatype Point = Point(caption: string, price: Js.Number, volume: Js.Number,
                         high: Js.Number, low: Js.Number, open: Js.Number)

  function PointOf(e: Entry): (p: Point)
    ensures p.caption == e.key
  {
    Point(e.key, Js.ParseFloat(Js.Get(e.bar, "4. close")), Js.ParseInt(Js.Get(e.bar, "5. volume")),
          Js.ParseFloat(Js.Get(e.bar, "2. high")), Js.ParseFloat(Js.Get(e.bar, "3. low")),
          Js.ParseFloat(Js.Get(e.bar, "1. open")))
  }

  /** The first `n` entries (the series lists the newest first) in reverse,
      so oldest first, as chart points. `series` is None when the reply or
      its series is missing. */
  function Chart(series: Option<seq<Entry>>, n: nat): (r: seq<Point>)
    ensures series.None? ==> r == []
    ensures series.Some? ==> |r| == Min(n, |series.value|)
    ensures series.Some? ==> forall i :: 0 <= i < |r| ==> r[i] == PointOf(series.value[|r| - 1 - i])
  {
    if series.None? then []
    else
      var recent := Reverse(Take(series.value, n));
      seq(|recent|, i requires 0 <= i < |recent| => PointOf(recent[i]))
  }

  function Labels(points: seq<Point>): (r: seq<string>)
    ensures |r| == |points| && forall i :: 0 <= i < |points| ==> r[i] == points[i].caption
  {
    seq(|points|, i requires 0 <= i < |points| => points[i].caption)
  }

  function Keys(entries: seq<Entry>): (r: seq<string>)
    ensures |r| == |entries| && forall i :: 0 <= i < |entries| ==> r[i] == entries[i].key
  {
    seq(|entries|, i requires 0 <= i < |entries| => entries[i].key)
  }

  /** The chart shows exactly the newest `n` dates of the series, oldest
      first. */
  lemma ChartIsRecentReversed(series: seq<Entry>, n: nat)
    ensures Labels(Chart(Some(series), n)) == Reverse(Keys(Take(series, n)))
  {
  }

  /** `prepareIntradayChartData`: a trading day of 5-minute bars. */
  const IntradayPoints: nat := 78

  /** `getChartData`: the intraday chart ignores the range; otherwise '7d'
      shows 7 days, '90d' shows 90 and anything else 30. */
  function RangeDays(range: string): (d: nat)
    ensures d == 7 <==> range == "7d"
    ensures d == 90 <==> range == "90d"
    ensures d == 7 || d == 30 || d == 90
  {
    if range == "7d" then 7 else if range == "90d" then 90 else 30
  }

  function ChartData(chartType: string, range: string, daily: Option<seq<Entry>>, intraday: Option<seq<Entry>>)
    : (r: seq<Point>)
    ensures chartType == "intraday" ==> r == Chart(intraday, IntradayPoints) && |r| <= IntradayPoints
    ensures chartType != "intraday" ==> r == Chart(daily, RangeDays(range)) && |r| <= 90
  {
    if chartType == "intraday" then Chart(intraday, IntradayPoints) else Chart(daily, RangeDays(range))
  }

  // ---------------------------------------------------------------------------
  // Fallback chart

  datatype FallbackPoint = FallbackPoint(caption: string, price: Js.Number, volume: Js.Number)

  /** A quote field under either key style, or 0. */
  function FieldOr0(q: Object, primary: string, legacy: string): Js.Value {
    Js.Or(Js.Or(Js.Get(q, primary), Js.Get(q, legacy)), Js.N(Js.Num(0.0)))
  }

  /** `getFallbackChartData`: nothing without a quote; otherwise the
      previous price (current less the change) at 0.8 of today's volume,
      then the current price and volume. */
  function FallbackChart(quote: Option<Object>): (r: seq<FallbackPoint>)
    ensures quote.None? <==> r == []
    ensures quote.Some? ==> |r| == 2 && r[0].caption == "Previous" && r[1].caption == "Current"
    ensures quote.Some? ==> var change := Js.ParseFloat(FieldOr0(quote.value, "09. change", "change_amount"));
      r[1].price.Num? && change.Num? ==> r[0].price.Num? && r[0].price.value + change.value == r[1].price.value
    ensures quote.Some? && r[1].volume.Num? ==> r[0].volume == Js.Num(0.8 * r[1].volume.value)
  {
    if quote.None? then []
    else
      var q := quote.value;
      var current := Js.ParseFloat(FieldOr0(q, "05. price", "current_price"));
      var change := Js.ParseFloat(FieldOr0(q, "09. change", "change_amount"));
      var volume := Js.ParseInt(FieldOr0(q, "06. volume", "volume"));
      [FallbackPoint("Previous", Js.Sub(current, change), Js.Mul(volume, Js.Num(0.8))),
       FallbackPoint("Current", current, volume)]
  }
}
