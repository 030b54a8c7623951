/** `get_portfolio_summary` and `get_portfolio_performance` of
    `portfolio.py`. Positions are valued exactly as in `pnl.py`, so the
    per-row computation is shared with the Pnl module. */
module Portfolio {
  import opened Wrappers
  import opened Seqs
  import opened Tables
  import opened Pnl
  import opened Fifo
  import Sell
  import SellRequests

  /** The holdings the summary query selects: the holding of the symbol
      exactly as given (not upper-cased) when one is given, else every
      holding whatever its quantity. */
  predicate SummaryWanted(db: Db, symbol: Option<string>, s: string) {
    s in db.holdings && (symbol.Some? && symbol.value != "" ==> s == symbol.value)
  }

  /** Whether a trade is summed by the realized query. */
  predicate IsSummedSell(t: Trade, symbol: Option<string>) {
    t.kind == Sell && (symbol.Some? && symbol.value != "" ==> t.symbol == symbol.value)
  }

  function SummedFilter(symbol: Option<string>): Trade -> bool {
    t => IsSummedSell(t, symbol)
  }

  /** `COALESCE(SUM(realized_pnl), 0)`: SUM skips NULL P&Ls and is NULL
      when nothing is summed, which COALESCE turns into 0. */
  function RealizedTotal(trades: seq<Trade>, symbol: Option<string>): (r: real)
    ensures (forall t :: t in trades ==> !IsSummedSell(t, symbol) || t.realizedPnl.None?) ==> r == 0.0
  {
    var summed := Filter(trades, SummedFilter(symbol));
    assert (forall t :: t in trades ==> !IsSummedSell(t, symbol) || t.realizedPnl.None?) ==> Sum(summed, PnlOf) == 0.0 by {
      if forall t :: t in trades ==> !IsSummedSell(t, symbol) || t.realizedPnl.None? {
        SumZero(summed, PnlOf);
      }
    }
    Sum(summed, PnlOf)
  }

  /** The realized total is additive over the trade log: a new summed SELL
      adds its P&L (nothing when NULL), any other trade adds nothing. */
  lemma RealizedTotalAppend(trades: seq<Trade>, t: Trade, symbol: Option<string>)
    ensures RealizedTotal(trades + [t], symbol) ==
      RealizedTotal(trades, symbol) + (if IsSummedSell(t, symbol) then PnlOf(t) else 0.0)
  {
    var p := SummedFilter(symbol);
    FilterConcat(trades, [t], p);
    SumConcat(Filter(trades, p), Filter([t], p), PnlOf);
    assert Filter([t], p) == if p(t) then [t] else [];
  }

  /** After a sale through `sell_stock`, the realized total of the summary,
      for the sold symbol and unfiltered alike, grows by exactly the P&L
      the sale realized; the total of any other symbol is unchanged. */
  lemma SaleAddsRealized(db: Db, request: SellRequests.SellRequest, price: real)
    requires Sell.SellStock(db, request, Success(price)).1.Sold?
    ensures var (after, outcome) := Sell.SellStock(db, request, Success(price));
      && RealizedTotal(after.trades, Some(request.symbol)) == RealizedTotal(db.trades, Some(request.symbol)) + outcome.realizedPnl
      && RealizedTotal(after.trades, None) == RealizedTotal(db.trades, None) + outcome.realizedPnl
      && forall s :: s != "" && s != request.symbol ==> RealizedTotal(after.trades, Some(s)) == RealizedTotal(db.trades, Some(s))
  {
    var (after, outcome) := Sell.SellStock(db, request, Success(price));
    var sale := Trade(request.symbol, Sell, price, request.quantity as real, Some(outcome.realizedPnl));
    assert Sell.SaleRows(db, after, request, price, Consume(Sell.FifoHoldings(db.trades, request.symbol), request.quantity as real), outcome);
    assert after.trades == db.trades + [sale];
    RealizedTotalAppend(db.trades, sale, Some(request.symbol));
    RealizedTotalAppend(db.trades, sale, None);
    forall s | s != "" && s != request.symbol
      ensures RealizedTotal(after.trades, Some(s)) == RealizedTotal(db.trades, Some(s))
    {
      RealizedTotalAppend(db.trades, sale, Some(s));
    }
  }

  datatype Summary = Summary(
    totalPortfolioValue: real,
    totalCostBasis: real,
    totalUnrealizedPnl: real,
    totalRealizedPnl: real,
    totalPnl: real,
    unrealizedPnlPercent: real,
    holdingsCount: nat)

  datatype PortfolioSummary = PortfolioSummary(holdings: seq<Position>, summary: Summary)

  /** The aggregation loop of `get_portfolio_summary` over the joined rows
      and the realized total. */
  function PortfolioSummaryOf(rows: seq<HoldingRow>, realized: real): (r: PortfolioSummary)
    ensures r.holdings == Positions(rows)
    ensures r.summary.holdingsCount == |rows|
    ensures r.summary.totalPortfolioValue == Sum(r.holdings, PositionValue)
    ensures r.summary.totalCostBasis == Sum(r.holdings, PositionBasis)
    ensures r.summary.totalUnrealizedPnl == Sum(r.holdings, PositionPnl)
    ensures r.summary.totalRealizedPnl == realized
    ensures r.summary.totalPnl == r.summary.totalUnrealizedPnl + realized
    ensures r.summary.unrealizedPnlPercent == Percent(r.summary.totalUnrealizedPnl, r.summary.totalCostBasis)
  {
    var ps := Positions(rows);
    var value := Sum(ps, PositionValue);
    var basis := Sum(ps, PositionBasis);
    var pnl := Sum(ps, PositionPnl);
    PortfolioSummary(ps, Summary(value, basis, pnl, realized, pnl + realized, Percent(pnl, basis), |ps|))
  }

  /** `get_portfolio_summary` over the tables, given the rows of the join. */
  function PortfolioSummaryFor(db: Db, symbol: Option<string>, rows: seq<HoldingRow>): PortfolioSummary {
    PortfolioSummaryOf(rows, RealizedTotal(db.trades, symbol))
  }

  /** The unrealized total is the portfolio value less the cost basis, and
      it agrees with the unrealized report over the same rows. */
  lemma SummaryUnrealizedIsValueLessBasis(rows: seq<HoldingRow>, realized: real)
    ensures var s := PortfolioSummaryOf(rows, realized).summary;
      && s.totalUnrealizedPnl == s.totalPortfolioValue - s.totalCostBasis
      && s.totalUnrealizedPnl == UnrealizedPnl(rows).unrealizedPnl
      && s.totalPortfolioValue == UnrealizedPnl(rows).totalMarketValue
      && s.totalCostBasis == UnrealizedPnl(rows).totalCostBasis
  {
    UnrealizedIsValueLessBasis(rows);
  }

  /** With no SELL trades the total P&L is the unrealized P&L. */
  lemma NoSalesMeansUnrealizedOnly(db: Db, symbol: Option<string>, rows: seq<HoldingRow>)
    requires forall i :: 0 <= i < |db.trades| ==> db.trades[i].kind == Buy
    ensures var s := PortfolioSummaryFor(db, symbol, rows).summary;
      s.totalRealizedPnl == 0.0 && s.totalPnl == s.totalUnrealizedPnl
  {
  }

  /** The summary lists every holding when no symbol is given, including
      holdings whose quantity has reached zero. */
  lemma UnfilteredSummaryListsEveryHolding(db: Db, rows: seq<HoldingRow>, s: string)
    requires JoinedRows(db, x => SummaryWanted(db, None, x), rows)
    requires s in db.holdings
    ensures exists i :: 0 <= i < |rows| && PortfolioSummaryFor(db, None, rows).holdings[i].symbol == s
  {
    assert SummaryWanted(db, None, s);
    var i :| 0 <= i < |rows| && rows[i].symbol == s;
    assert PortfolioSummaryFor(db, None, rows).holdings[i].symbol == s;
  }

  // ---------------------------------------------------------------------------
  // Performance

  /** One row of the `GROUP BY trade_type` query. */
  datatype TypeRow = TypeRow(tradeType: string, totalValue: real, tradeCount: nat, totalPnl: real)

  datatype Performance = Performance(
    periodDays: int,
    buyVolume: real,
    sellVolume: real,
    buyTrades: nat,
    sellTrades: nat,
    realizedPnl: real)

  function Defaults(days: int): Performance {
    Performance(days, 0.0, 0.0, 0, 0, 0.0)
  }

  /** One iteration of the folding loop: a BUY row sets only the buy
      fields, a SELL row only the sell fields and the realized P&L, and any
      other row nothing. */
  function Apply(p: Performance, row: TypeRow): (r: Performance)
    ensures r.periodDays == p.periodDays
    ensures row.tradeType == "BUY" ==>
      r == p.(buyVolume := row.totalValue, buyTrades := row.tradeCount)
    ensures row.tradeType == "SELL" ==>
      r == p.(sellVolume := row.totalValue, sellTrades := row.tradeCount, realizedPnl := row.totalPnl)
    ensures row.tradeType != "BUY" && row.tradeType != "SELL" ==> r == p
  {
    if row.tradeType == "BUY" then p.(buyVolume := row.totalValue, buyTrades := row.tradeCount)
    else if row.tradeType == "SELL" then
      p.(sellVolume := row.totalValue, sellTrades := row.tradeCount, realizedPnl := row.totalPnl)
    else p
  }

  function FoldRows(p: Performance, rows: seq<TypeRow>): Performance
    decreases |rows|
  {
    if |rows| == 0 then p else FoldRows(Apply(p, rows[0]), rows[1..])
  }

  /** `get_portfolio_performance` over the grouped rows. */
  function PortfolioPerformance(days: int, rows: seq<TypeRow>): (r: Performance)
    ensures r.periodDays == days
  {
    FoldPerformancePeriod(Defaults(days), rows);
    FoldRows(Defaults(days), rows)
  }

  lemma {:induction false} FoldPerformancePeriod(p: Performance, rows: seq<TypeRow>)
    ensures FoldRows(p, rows).periodDays == p.periodDays
    decreases |rows|
  {
    if |rows| > 0 {
      FoldPerformancePeriod(Apply(p, rows[0]), rows[1..]);
    }
  }

  predicate HasType(rows: seq<TypeRow>, name: string) {
    exists i :: 0 <= i < |rows| && rows[i].tradeType == name
  }

  /** The fields of a type with no row keep their starting values. */
  lemma {:induction false} MissingTypeKeepsFields(p: Performance, rows: seq<TypeRow>)
    ensures !HasType(rows, "BUY") ==> FoldRows(p, rows).buyVolume == p.buyVolume && FoldRows(p, rows).buyTrades == p.buyTrades
    ensures !HasType(rows, "SELL") ==>
      && FoldRows(p, rows).sellVolume == p.sellVolume
      && FoldRows(p, rows).sellTrades == p.sellTrades
      && FoldRows(p, rows).realizedPnl == p.realizedPnl
    decreases |rows|
  {
    if |rows| > 0 {
      MissingTypeKeepsFields(Apply(p, rows[0]), rows[1..]);
      assert !HasType(rows, "BUY") ==> !HasType(rows[1..], "BUY") by {
        if HasType(rows[1..], "BUY") {
          var i :| 0 <= i < |rows[1..]| && rows[1..][i].tradeType == "BUY";
          assert rows[i + 1].tradeType == "BUY";
        }
      }
      assert !HasType(rows, "SELL") ==> !HasType(rows[1..], "SELL") by {
        if HasType(rows[1..], "SELL") {
          var i :| 0 <= i < |rows[1..]| && rows[1..][i].tradeType == "SELL";
          assert rows[i + 1].tradeType == "SELL";
        }
      }
      assert rows[0].tradeType == "BUY" ==> HasType(rows, "BUY");
      assert rows[0].tradeType == "SELL" ==> HasType(rows, "SELL");
    }
  }

  /** With no rows in the period every field is 0. */
  lemma EmptyPeriodIsZero(days: int)
    ensures PortfolioPerformance(days, []) == Performance(days, 0.0, 0.0, 0, 0, 0.0)
  {
  }

  function TradeValue(t: Trade): real { t.quantity * t.price }

  /** The trades of one type, in table order. */
  function OfKind(trades: seq<Trade>, kind: TradeType): seq<Trade> {
    Filter(trades, (t: Trade) => t.kind == kind)
  }

  /** The aggregate row of one trade type, if it has any trades. */
  function GroupRow(trades: seq<Trade>, kind: TradeType): seq<TypeRow> {
    var ofKind := OfKind(trades, kind);
    if |ofKind| == 0 then []
    else [TypeRow(kind.Name(), Sum(ofKind, TradeValue), |ofKind|, Sum(ofKind, PnlOf))]
  }

  /** The grouped rows of the trades table: one per trade type present. */
  function GroupRows(trades: seq<Trade>): seq<TypeRow> {
    GroupRow(trades, Buy) + GroupRow(trades, Sell)
  }

  /** Over the trades table: buy volume and count are the value and number
      of BUY trades, sell volume and count those of SELL trades, and the
      realized P&L is the sum of SELL P&Ls with NULL counted as 0. The
      same holds whichever order the two grouped rows come in. */
  lemma PerformanceOfTrades(days: int, trades: seq<Trade>)
    ensures var buys := OfKind(trades, Buy);
      var sells := OfKind(trades, Sell);
      var r := PortfolioPerformance(days, GroupRows(trades));
      && r == PortfolioPerformance(days, GroupRow(trades, Sell) + GroupRow(trades, Buy))
      && r.buyVolume == Sum(buys, TradeValue) && r.buyTrades == |buys|
      && r.sellVolume == Sum(sells, TradeValue) && r.sellTrades == |sells|
      && r.realizedPnl == Sum(sells, PnlOf)
  {
    var p := Defaults(days);
    var buys := OfKind(trades, Buy);
    var sells := OfKind(trades, Sell);
    var b := GroupRow(trades, Buy);
    var s := GroupRow(trades, Sell);
    var bp := if |b| > 0 then Apply(p, b[0]) else p;
    var full := if |s| > 0 then Apply(bp, s[0]) else bp;
    assert FoldRows(p, b + s) == full by {
      FoldTwo(p, b, s);
    }
    assert FoldRows(p, s + b) == full by {
      FoldTwo(p, s, b);
    }
  }

  /** Folding at most one row of each of two distinct types. */
  lemma FoldTwo(p: Performance, x: seq<TypeRow>, y: seq<TypeRow>)
    requires |x| <= 1 && |y| <= 1
    ensures FoldRows(p, x + y) == (
      var xp := if |x| > 0 then Apply(p, x[0]) else p;
      if |y| > 0 then Apply(xp, y[0]) else xp)
  {
    var xp := if |x| > 0 then Apply(p, x[0]) else p;
    if |x| > 0 {
      assert (x + y)[0] == x[0] && (x + y)[1..] == y;
      assert FoldRows(p, x + y) == FoldRows(xp, y);
    } else {
      assert x + y == y;
    }
    if |y| > 0 {
      assert y[1..] == [];
      assert FoldRows(xp, y) == FoldRows(Apply(xp, y[0]), []);
    }
  }
}
