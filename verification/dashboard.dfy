/** The figures of the Dashboard page (`Dashboard.jsx`): the watchlist
    quotes it fetches one by one, the holdings valued at the quoted price
    or a fixed default, the totals, the P&L percentage and the watchlist
    rows. */
module Dashboard {
  import opened Wrappers
  import opened Seqs
  import Js
  import Text

  type Quotes = map<string, Js.Object>

  // ---------------------------------------------------------------------------
  // Fetching

  /** The loop over the watchlist: every symbol is asked for in turn and a
      failed request (None) is skipped without stopping the loop. */
  function FetchQuotes(watchlist: seq<string>, reply: string -> Option<Js.Object>): (q: Quotes)
    ensures forall s :: s in q <==> s in watchlist && reply(s).Some?
    ensures forall s :: s in q ==> q[s] == reply(s).value
    decreases |watchlist|
  {
    if |watchlist| == 0 then map[]
    else
      var last := watchlist[|watchlist| - 1];
      var earlier := FetchQuotes(watchlist[..|watchlist| - 1], reply);
      assert forall s :: s in watchlist <==> s in watchlist[..|watchlist| - 1] || s == last;
      match reply(last)
      case None => earlier
      case Some(quote) => earlier[last := quote]
  }

  // ---------------------------------------------------------------------------
  // Holdings and totals

  datatype Holding = Holding(symbol: string, quantity: real, averageCost: real, defaultPrice: real)

  /** `quotes.S?.['05. price'] || default`, then `parseFloat`. */
  function PriceOf(h: Holding, quotes: Quotes): (p: Js.Number)
    ensures h.symbol !in quotes ==> p == Js.Num(h.defaultPrice)
    ensures h.symbol in quotes && !Js.Truthy(Js.Get(quotes[h.symbol], "05. price")) ==> p == Js.Num(h.defaultPrice)
    ensures h.symbol in quotes && Js.Truthy(Js.Get(quotes[h.symbol], "05. price")) ==>
      p == Js.ParseFloat(Js.Get(quotes[h.symbol], "05. price"))
  {
    var quoted := if h.symbol in quotes then Js.Get(quotes[h.symbol], "05. price") else Js.Undefined;
    Js.ParseFloat(Js.Or(quoted, Js.N(Js.Num(h.defaultPrice))))
  }

  function ValueOf(h: Holding, quotes: Quotes): Js.Number {
    Js.Mul(Js.Num(h.quantity), PriceOf(h, quotes))
  }

  function CostOf(h: Holding): real { h.quantity * h.averageCost }

  /** Every holding's price is a number. */
  predicate Priced(holdings: seq<Holding>, quotes: Quotes) {
    forall i :: 0 <= i < |holdings| ==> PriceOf(holdings[i], quotes).Num?
  }

  /** The numeric value of a holding, when its price is a number. */
  function NumericValue(quotes: Quotes): Holding -> real {
    h => var p := PriceOf(h, quotes); if p.Num? then h.quantity * p.value else 0.0
  }

  /** `reduce((sum, h) => sum + h.quantity * parseFloat(h.currentPrice), 0)`,
      left to right in JavaScript numbers. */
  function TotalValue(holdings: seq<Holding>, quotes: Quotes): (t: Js.Number)
    ensures Priced(holdings, quotes) ==> t == Js.Num(Sum(holdings, NumericValue(quotes)))
    decreases |holdings|
  {
    if |holdings| == 0 then Js.Num(0.0)
    else
      var init := holdings[..|holdings| - 1];
      var last := holdings[|holdings| - 1];
      var t := Js.Add(TotalValue(init, quotes), ValueOf(last, quotes));
      assert Priced(holdings, quotes) ==> t == Js.Num(Sum(holdings, NumericValue(quotes))) by {
        if Priced(holdings, quotes) {
          PricedSplit(holdings, quotes);
          ValueOfPriced(last, quotes);
          SumSnoc(holdings, NumericValue(quotes));
        }
      }
      t
  }

  lemma PricedSplit(holdings: seq<Holding>, quotes: Quotes)
    requires |holdings| > 0 && Priced(holdings, quotes)
    ensures Priced(holdings[..|holdings| - 1], quotes)
    ensures PriceOf(holdings[|holdings| - 1], quotes).Num?
  {
  }

  lemma ValueOfPriced(h: Holding, quotes: Quotes)
    requires PriceOf(h, quotes).Num?
    ensures ValueOf(h, quotes) == Js.Num(NumericValue(quotes)(h))
  {
  }

  lemma SumSnoc<T>(s: seq<T>, f: T -> real)
    requires |s| > 0
    ensures Sum(s, f) == Sum(s[..|s| - 1], f) + f(s[|s| - 1])
  {
    assert s == s[..|s| - 1] + [s[|s| - 1]];
    SumConcat(s[..|s| - 1], [s[|s| - 1]], f);
    assert Sum([s[|s| - 1]], f) == f(s[|s| - 1]);
  }

  datatype Totals = Totals(totalValue: Js.Number, totalCash: real, totalPL: Js.Number)

  const DefaultCash: real := 10000.0

  /** `fetchDashboardData`: total value and P&L (value less cost). */
  function TotalsOf(holdings: seq<Holding>, quotes: Quotes): (t: Totals)
    ensures t.totalCash == DefaultCash && t.totalValue == TotalValue(holdings, quotes)
    ensures Priced(holdings, quotes) ==>
      t.totalPL == Js.Num(Sum(holdings, NumericValue(quotes)) - Sum(holdings, CostOf))
  {
    var value := TotalValue(holdings, quotes);
    Totals(value, DefaultCash, Js.Sub(value, Js.Num(Sum(holdings, CostOf))))
  }

  /** `formatPercent`: the value as a percentage of total value less total
      P&L (digits not modelled). */
  function FormatPercent(t: Totals, value: Js.Number): Js.Number {
    Js.Mul(Js.Div(value, Js.Sub(t.totalValue, t.totalPL)), Js.Num(100.0))
  }

  /** With numeric prices, the denominator of `formatPercent` is the total
      cost, so the P&L card shows the P&L as a percentage of cost. */
  lemma {:induction false} PercentIsOfCost(holdings: seq<Holding>, quotes: Quotes)
    requires Priced(holdings, quotes)
    ensures var t := TotalsOf(holdings, quotes);
      && Js.Sub(t.totalValue, t.totalPL) == Js.Num(Sum(holdings, CostOf))
      && FormatPercent(t, t.totalPL) == Js.Mul(Js.Div(t.totalPL, Js.Num(Sum(holdings, CostOf))), Js.Num(100.0))
  {
    PercentOfValue(holdings, quotes, Sum(holdings, NumericValue(quotes)));
  }

  /** The same, for whatever numeric total value the holdings add up to. */
  lemma PercentOfValue(holdings: seq<Holding>, quotes: Quotes, v: real)
    requires TotalValue(holdings, quotes) == Js.Num(v)
    ensures var t := TotalsOf(holdings, quotes);
      && Js.Sub(t.totalValue, t.totalPL) == Js.Num(Sum(holdings, CostOf))
      && FormatPercent(t, t.totalPL) == Js.Mul(Js.Div(t.totalPL, Js.Num(Sum(holdings, CostOf))), Js.Num(100.0))
  {
    TotalsOfValue(holdings, quotes, v);
    PercentOfTotals(TotalsOf(holdings, quotes), v, Sum(holdings, CostOf));
  }

  lemma TotalsOfValue(holdings: seq<Holding>, quotes: Quotes, v: real)
    requires TotalValue(holdings, quotes) == Js.Num(v)
    ensures TotalsOf(holdings, quotes).totalValue == Js.Num(v)
    ensures TotalsOf(holdings, quotes).totalPL == Js.Num(v - Sum(holdings, CostOf))
  {
  }

  lemma PercentOfTotals(t: Totals, v: real, c: real)
    requires t.totalValue == Js.Num(v) && t.totalPL == Js.Num(v - c)
    ensures Js.Sub(t.totalValue, t.totalPL) == Js.Num(c)
    ensures FormatPercent(t, t.totalPL) == Js.Mul(Js.Div(t.totalPL, Js.Num(c)), Js.Num(100.0))
  {
    assert Js.Neg(Js.Num(v - c)) == Js.Num(-(v - c));
  }

  /** Without quotes every holding is valued at its default price. */
  lemma NoQuotesUseDefaults(holdings: seq<Holding>)
    ensures Priced(holdings, map[])
    ensures TotalValue(holdings, map[]) == Js.Num(Sum(holdings, NumericValue(map[])))
  {
    forall i | 0 <= i < |holdings| ensures PriceOf(holdings[i], map[]).Num? {
      assert PriceOf(holdings[i], map[]) == Js.Num(holdings[i].defaultPrice);
    }
  }

  // ---------------------------------------------------------------------------
  // Watchlist

  datatype WatchRow = WatchRow(symbol: string, price: Js.Number, change: Js.Number, changePercent: Js.Number)

  /** `s.replace('%', '')`: the first '%' removed. */
  function RemoveFirstPercent(s: string): (r: string)
    ensures '%' !in s ==> r == s
    ensures '%' in s ==> |r| == |s| - 1
    decreases |s|
  {
    if |s| == 0 then s
    else if s[0] == '%' then s[1..]
    else [s[0]] + RemoveFirstPercent(s[1..])
  }

  /** `parseFloat(q['10. change percent']?.replace('%', '') || 0)`. A
      numeric field (which has no `replace`) is read as missing. */
  function ChangePercent(field: Js.Value): Js.Number {
    var stripped := if field.Str? then Js.Str(RemoveFirstPercent(field.s)) else Js.Undefined;
    Js.ParseFloat(Js.Or(stripped, Js.N(Js.Num(0.0))))
  }

  function RowOf(symbol: string, q: Js.Object): WatchRow {
    WatchRow(symbol,
             Js.ParseFloat(Js.Or(Js.Get(q, "05. price"), Js.N(Js.Num(0.0)))),
             Js.ParseFloat(Js.Or(Js.Get(q, "09. change"), Js.N(Js.Num(0.0)))),
             ChangePercent(Js.Get(q, "10. change percent")))
  }

  /** The watchlist card: one row per symbol that has a quote, in watchlist
      order; symbols without one render nothing. */
  function Watchlist(watchlist: seq<string>, quotes: Quotes): (rows: seq<WatchRow>)
    ensures |rows| <= |watchlist|
    ensures forall r :: r in rows ==> r.symbol in quotes && r.symbol in watchlist && r == RowOf(r.symbol, quotes[r.symbol])
    ensures forall s :: s in watchlist && s in quotes ==> RowOf(s, quotes[s]) in rows
    decreases |watchlist|
  {
    if |watchlist| == 0 then []
    else
      var rest := Watchlist(watchlist[1..], quotes);
      var s := watchlist[0];
      assert forall t :: t in watchlist ==> t == s || t in watchlist[1..];
      if s in quotes then [RowOf(s, quotes[s])] + rest else rest
  }

  lemma {:induction false} RemovePercentSuffix(d: string)
    requires '%' !in d
    ensures RemoveFirstPercent(d + "%") == d
    decreases |d|
  {
    if |d| > 0 {
      var e := d + "%";
      assert e[0] == d[0] != '%';
      assert e[1..] == d[1..] + "%";
      assert '%' !in d[1..];
      RemovePercentSuffix(d[1..]);
      assert RemoveFirstPercent(e) == [d[0]] + RemoveFirstPercent(e[1..]);
      assert [d[0]] + d[1..] == d;
    } else {
      assert d + "%" == "%";
    }
  }

  /** A whole-number percent as the backend stores and sends it ("12%") is
      shown as that number. */
  lemma WholePercentParsed(n: nat)
    ensures ChangePercent(Js.Str(Text.FormatNat(n) + "%")) == Js.Num(n as real)
  {
    var d := Text.FormatNat(n);
    assert forall i :: 0 <= i < |d| ==> d[i] != '%';
    RemovePercentSuffix(d);
    Js.ParseFloatFormatNat(n);
  }
}
