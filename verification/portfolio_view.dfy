/** The figures of the Portfolio page (`Portfolio.jsx`): the totals, the
    headline value, the pie and bar chart data and each row's P&L. The page
    computes them over the holdings it is given (hard-coded sample rows in
    the source), which the model takes as a parameter. */
module PortfolioView {
  import opened Seqs
  import Js

  datatype Holding = Holding(symbol: string, name: string, quantity: real, averageCost: real, currentPrice: real)

  function MarketValue(h: Holding): real { h.quantity * h.currentPrice }

  function CostOf(h: Holding): real { h.quantity * h.averageCost }

  // ---------------------------------------------------------------------------
  // Totals

  /** The cash shown next to the holdings. */
  const DefaultCash: real := 10000.0

  datatype Totals = Totals(totalValue: real, totalCash: real, totalPL: real)

  /** `fetchPortfolioData`: the market value and the P&L (market value less
      cost) over all holdings. */
  function TotalsOf(holdings: seq<Holding>): (t: Totals)
    ensures t.totalCash == DefaultCash
    ensures t.totalValue == Sum(holdings, MarketValue)
    ensures t.totalPL + Sum(holdings, CostOf) == t.totalValue
  {
    var value := Sum(holdings, MarketValue);
    Totals(value, DefaultCash, value - Sum(holdings, CostOf))
  }

  /** The "Total Portfolio Value" card: holdings plus cash. */
  function Headline(t: Totals): (v: real)
    ensures v - t.totalCash == t.totalValue
  {
    t.totalValue + t.totalCash
  }

  // ---------------------------------------------------------------------------
  // Rows

  datatype Row = Row(marketValue: real, totalCost: real, pl: real, plPercent: Js.Number)

  /** A row of the holdings table: `(pl / totalCost) * 100` is a number only
      when the cost is not zero; at zero cost it is NaN or an infinity. */
  function RowOf(h: Holding): (r: Row)
    ensures r.marketValue - r.totalCost == r.pl
    ensures r.totalCost != 0.0 ==> r.plPercent == Js.Num(r.pl / r.totalCost * 100.0)
    ensures r.totalCost == 0.0 ==> !r.plPercent.Num?
  {
    var mv := MarketValue(h);
    var cost := CostOf(h);
    var pl := mv - cost;
    Row(mv, cost, pl, Js.Mul(Js.Div(Js.Num(pl), Js.Num(cost)), Js.Num(100.0)))
  }

  /** A holding bought for a positive amount shows the percentage gain on
      its cost: cost times (1 + percent / 100) is its market value. */
  lemma RowPercentIsReturnOnCost(h: Holding)
    requires CostOf(h) > 0.0
    ensures var r := RowOf(h);
      r.plPercent.Num? && r.totalCost * (1.0 + r.plPercent.value / 100.0) == r.marketValue
  {
    var r := RowOf(h);
    var p := r.pl / r.totalCost;
    assert r.plPercent.value == p * 100.0;
    assert p * r.totalCost == r.pl;
  }

  // ---------------------------------------------------------------------------
  // Charts

  datatype Slice = Slice(name: string, value: real, percentage: Js.Number)

  /** `pieChartData`: each holding's value and its share of the total. */
  function PieChart(holdings: seq<Holding>, totalValue: real): (r: seq<Slice>)
    ensures |r| == |holdings|
    ensures forall i :: 0 <= i < |r| ==> r[i].name == holdings[i].symbol && r[i].value == MarketValue(holdings[i])
    ensures totalValue != 0.0 ==> forall i :: 0 <= i < |r| ==> r[i].percentage == Js.Num(r[i].value / totalValue * 100.0)
    decreases |holdings|
  {
    if |holdings| == 0 then []
    else
      var h := holdings[0];
      var share := Js.Mul(Js.Div(Js.Num(MarketValue(h)), Js.Num(totalValue)), Js.Num(100.0));
      [Slice(h.symbol, MarketValue(h), share)] + PieChart(holdings[1..], totalValue)
  }

  function Share(s: Slice): real {
    if s.percentage.Num? then s.percentage.value else 0.0
  }

  lemma {:induction false} PieSharesScale(holdings: seq<Holding>, totalValue: real)
    requires totalValue != 0.0
    ensures Sum(PieChart(holdings, totalValue), Share) == Sum(holdings, MarketValue) / totalValue * 100.0
    decreases |holdings|
  {
    if |holdings| > 0 {
      var pie := PieChart(holdings, totalValue);
      var a := MarketValue(holdings[0]);
      var rest := Sum(holdings[1..], MarketValue);
      PieSharesScale(holdings[1..], totalValue);
      assert pie[1..] == PieChart(holdings[1..], totalValue);
      assert Share(pie[0]) == a / totalValue * 100.0;
      ShareSplits(a, rest, totalValue);
    }
  }

  lemma ShareSplits(a: real, rest: real, total: real)
    requires total != 0.0
    ensures (a + rest) / total * 100.0 == a / total * 100.0 + rest / total * 100.0
  {
  }

  /** With a positive total, the pie shares add up to 100 (before the
      one-decimal rounding). */
  lemma PieSharesSumTo100(holdings: seq<Holding>)
    requires TotalsOf(holdings).totalValue > 0.0
    ensures Sum(PieChart(holdings, TotalsOf(holdings).totalValue), Share) == 100.0
  {
    var t := TotalsOf(holdings).totalValue;
    PieSharesScale(holdings, t);
    assert t / t == 1.0;
  }

  datatype Bar = Bar(symbol: string, marketValue: real, totalCost: real, pl: real)

  function BarPl(b: Bar): real { b.pl }

  /** `barChartData`: value, cost and P&L per holding. */
  function BarChart(holdings: seq<Holding>): (r: seq<Bar>)
    ensures |r| == |holdings|
    ensures forall i :: 0 <= i < |r| ==> (
      && r[i].symbol == holdings[i].symbol
      && r[i].marketValue - r[i].totalCost == r[i].pl
      && r[i].marketValue == RowOf(holdings[i]).marketValue && r[i].totalCost == RowOf(holdings[i]).totalCost)
    decreases |holdings|
  {
    if |holdings| == 0 then []
    else
      var h := holdings[0];
      [Bar(h.symbol, MarketValue(h), CostOf(h), MarketValue(h) - CostOf(h))] + BarChart(holdings[1..])
  }

  /** The bars' P&L adds up to the page's total P&L. */
  lemma {:induction false} BarsSumToTotalPL(holdings: seq<Holding>)
    ensures Sum(BarChart(holdings), BarPl) == TotalsOf(holdings).totalPL
    decreases |holdings|
  {
    if |holdings| > 0 {
      BarsSumToTotalPL(holdings[1..]);
    }
  }
}
