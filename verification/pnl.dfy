/** The aggregation loops of `pnl.py`: unrealized P&L over holdings rows,
    the realized P&L summary over SELL trades, and the comprehensive report
    that adds the two. The queries' date windows and `round(x, 2)` are not
    modelled. */
module Pnl {
  import opened Wrappers
  import opened Text
  import opened Seqs
  import opened Tables

  /** A row of `holdings LEFT JOIN api_stock_information`: the price is
      None when the symbol has no price row. */
  datatype HoldingRow = HoldingRow(symbol: string, quantity: real, averageCost: real, currentPrice: Option<real>)

  /** `rows` is the result of joining the holdings that `wanted` selects
      with their price rows: each such holding appears exactly once. */
  ghost predicate JoinedRows(db: Db, wanted: string -> bool, rows: seq<HoldingRow>) {
    && (forall i, j :: 0 <= i < j < |rows| ==> rows[i].symbol != rows[j].symbol)
    && (forall i :: 0 <= i < |rows| ==> RowOf(db, rows[i].symbol) == Some(rows[i]) && wanted(rows[i].symbol))
    && (forall s :: s in db.holdings && wanted(s) ==> exists i :: 0 <= i < |rows| && rows[i].symbol == s)
  }

  /** The holdings the unrealized query selects: for a (non-empty) symbol,
      the upper-cased symbol's holding whatever its quantity; otherwise every
      holding of positive quantity. */
  predicate Wanted(db: Db, symbol: Option<string>, s: string) {
    && s in db.holdings
    && if symbol.Some? && symbol.value != "" then s == Upper(symbol.value) else db.holdings[s].quantity > 0.0
  }

  ghost predicate SelectedRows(db: Db, symbol: Option<string>, rows: seq<HoldingRow>) {
    JoinedRows(db, s => Wanted(db, symbol, s), rows)
  }

  /** Without a symbol, every reported position is a holding of positive
      quantity, valued from its own table rows. */
  lemma UnfilteredPositionsAreHeld(db: Db, rows: seq<HoldingRow>, i: int)
    requires SelectedRows(db, None, rows) && 0 <= i < |rows|
    ensures var p := UnrealizedPnl(rows).holdings[i];
      && p.symbol in db.holdings
      && p.quantity == db.holdings[p.symbol].quantity > 0.0
      && p.averageCost == db.holdings[p.symbol].averageCost
  {
    assert Wanted(db, None, rows[i].symbol);
  }

  /** The joined row of a held symbol. */
  function RowOf(db: Db, s: string): (r: Option<HoldingRow>)
    ensures r.Some? <==> s in db.holdings
  {
    if s !in db.holdings then None
    else
      var h := db.holdings[s];
      Some(HoldingRow(s, h.quantity, h.averageCost, if s in db.prices then Some(db.prices[s]) else None))
  }

  /** The price a holding is valued at: its current price when that is
      present and non-zero, else its average cost. */
  function ValuationPrice(row: HoldingRow): (p: real)
    ensures row.currentPrice.None? || row.currentPrice == Some(0.0) ==> p == row.averageCost
    ensures row.currentPrice.Some? && row.currentPrice.value != 0.0 ==> p == row.currentPrice.value
  {
    if row.currentPrice.Some? && row.currentPrice.value != 0.0 then row.currentPrice.value else row.averageCost
  }

  datatype Position = Position(
    symbol: string,
    quantity: real,
    averageCost: real,
    currentPrice: real,
    costBasis: real,
    marketValue: real,
    unrealizedPnl: real,
    unrealizedPnlPercent: real)

  /** `pnl / basis * 100`, or 0 when the basis is not positive. */
  function Percent(pnl: real, basis: real): (r: real)
    ensures basis <= 0.0 ==> r == 0.0
    ensures basis > 0.0 ==> r * basis == pnl * 100.0
  {
    if basis > 0.0 then pnl / basis * 100.0 else 0.0
  }

  /** One entry of the positions list. */
  function PositionOf(row: HoldingRow): (p: Position)
    ensures p.symbol == row.symbol && p.quantity == row.quantity && p.averageCost == row.averageCost
    ensures p.currentPrice == ValuationPrice(row)
    ensures p.unrealizedPnl == p.marketValue - p.costBasis
    ensures p.costBasis == row.quantity * row.averageCost && p.marketValue == row.quantity * ValuationPrice(row)
    ensures p.unrealizedPnlPercent == Percent(p.unrealizedPnl, p.costBasis)
  {
    var price := ValuationPrice(row);
    var basis := row.quantity * row.averageCost;
    var value := row.quantity * price;
    Position(row.symbol, row.quantity, row.averageCost, price, basis, value, value - basis, Percent(value - basis, basis))
  }

  /** A holding without a usable price is valued at cost: no unrealized
      P&L. */
  lemma UnpricedHoldingHasNoPnl(row: HoldingRow)
    requires row.currentPrice.None? || row.currentPrice == Some(0.0)
    ensures PositionOf(row).unrealizedPnl == 0.0 && PositionOf(row).unrealizedPnlPercent == 0.0
  {
  }

  function PositionPnl(p: Position): real { p.unrealizedPnl }
  function PositionValue(p: Position): real { p.marketValue }
  function PositionBasis(p: Position): real { p.costBasis }

  /** The result of `calculate_unrealized_pnl`. The reply for no rows has
      no `unrealized_pnl_percent` key, hence the Option. */
  datatype UnrealizedReport = UnrealizedReport(
    unrealizedPnl: real,
    totalMarketValue: real,
    totalCostBasis: real,
    unrealizedPnlPercent: Option<real>,
    holdings: seq<Position>)

  function Positions(rows: seq<HoldingRow>): (ps: seq<Position>)
    ensures |ps| == |rows|
    ensures forall i :: 0 <= i < |rows| ==> ps[i] == PositionOf(rows[i])
  {
    seq(|rows|, i requires 0 <= i < |rows| => PositionOf(rows[i]))
  }

  /** `calculate_unrealized_pnl` over the selected rows: one position per
      row in row order, the three running totals, and the percentage of
      the total basis. */
  function UnrealizedPnl(rows: seq<HoldingRow>): (r: UnrealizedReport)
    ensures |rows| == 0 ==> r == UnrealizedReport(0.0, 0.0, 0.0, None, [])
    ensures r.holdings == Positions(rows)
    ensures r.totalMarketValue == Sum(r.holdings, PositionValue)
    ensures r.totalCostBasis == Sum(r.holdings, PositionBasis)
    ensures r.unrealizedPnl == Sum(r.holdings, PositionPnl)
    ensures |rows| > 0 ==> r.unrealizedPnlPercent == Some(Percent(r.unrealizedPnl, r.totalCostBasis))
  {
    if |rows| == 0 then UnrealizedReport(0.0, 0.0, 0.0, None, [])
    else
      var ps := Positions(rows);
      var pnl := Sum(ps, PositionPnl);
      var basis := Sum(ps, PositionBasis);
      UnrealizedReport(pnl, Sum(ps, PositionValue), basis, Some(Percent(pnl, basis)), ps)
  }

  /** The summed P&L is the total market value less the total cost basis. */
  lemma UnrealizedIsValueLessBasis(rows: seq<HoldingRow>)
    ensures var r := UnrealizedPnl(rows);
      r.unrealizedPnl == r.totalMarketValue - r.totalCostBasis
  {
    var ps := Positions(rows);
    SumSub(ps, PositionValue, PositionBasis, PositionPnl);
  }

  // ---------------------------------------------------------------------------
  // Realized P&L summary

  /** Whether a trade is a row of the realized query: a SELL with a
      recorded P&L, of the symbol when one (non-empty) is given. */
  predicate IsRealizedRow(t: Trade, symbol: Option<string>) {
    && t.kind == Sell && t.realizedPnl.Some?
    && (symbol.Some? && symbol.value != "" ==> t.symbol == Upper(symbol.value))
  }

  function RealizedFilter(symbol: Option<string>): Trade -> bool {
    t => IsRealizedRow(t, symbol)
  }

  /** The realized rows, newest first (`ORDER BY trade_date DESC`). */
  function RealizedRows(trades: seq<Trade>, symbol: Option<string>): (rows: seq<Trade>)
    ensures forall t :: t in rows ==> t in trades && IsRealizedRow(t, symbol)
  {
    var kept := Filter(trades, RealizedFilter(symbol));
    var rows := Reverse(kept);
    assert forall t :: t in rows ==> t in kept by {
      forall t | t in rows ensures t in kept {
        var i :| 0 <= i < |rows| && rows[i] == t;
        assert kept[|kept| - 1 - i] == t;
      }
    }
    rows
  }

  /** The query returns every realized SELL of the symbol, once each, the
      newest first: read backwards, the rows follow the trades in date
      order. */
  lemma RealizedRowsExact(trades: seq<Trade>, symbol: Option<string>)
    ensures var rows := RealizedRows(trades, symbol);
      && |rows| == Count(trades, RealizedFilter(symbol))
      && (forall t :: t in trades && IsRealizedRow(t, symbol) ==> t in rows)
      && IsSubsequence(Reverse(rows), trades)
  {
    var p := RealizedFilter(symbol);
    var kept := Filter(trades, p);
    var rows := RealizedRows(trades, symbol);
    FilterCount(trades, p);
    FilterComplete(trades, p);
    FilterSubsequence(trades, p);
    ReverseReverse(kept);
    assert forall t :: t in kept ==> t in rows by {
      forall t | t in kept ensures t in rows {
        var i :| 0 <= i < |kept| && kept[i] == t;
        assert rows[|kept| - 1 - i] == t;
      }
    }
  }

  function PnlOf(t: Trade): real { t.realizedPnl.GetOr(0.0) }
  function WinPart(t: Trade): real { if PnlOf(t) > 0.0 then PnlOf(t) else 0.0 }
  function LossPart(t: Trade): real { if PnlOf(t) < 0.0 then PnlOf(t) else 0.0 }
  predicate IsWin(t: Trade) { PnlOf(t) > 0.0 }
  predicate IsLoss(t: Trade) { PnlOf(t) < 0.0 }

  /** The result of `get_realized_pnl_summary`; the reply for no rows has
      no `period_days` key, hence the Option. */
  datatype RealizedSummary = RealizedSummary(
    totalRealizedPnl: real,
    tradesCount: nat,
    winningTrades: nat,
    losingTrades: nat,
    winRate: real,
    averageWin: real,
    averageLoss: real,
    trades: seq<Trade>,
    periodDays: Option<int>)

  /** The fold of `get_realized_pnl_summary` over the rows. */
  function RealizedSummaryOf(rows: seq<Trade>, days: int): (r: RealizedSummary)
    ensures |rows| == 0 ==> r == RealizedSummary(0.0, 0, 0, 0, 0.0, 0.0, 0.0, [], None)
    ensures r.trades == rows && r.tradesCount == |rows|
    ensures r.totalRealizedPnl == Sum(rows, PnlOf)
    ensures r.winningTrades == Count(rows, IsWin) && r.losingTrades == Count(rows, IsLoss)
    ensures |rows| > 0 ==> r.periodDays == Some(days)
  {
    if |rows| == 0 then RealizedSummary(0.0, 0, 0, 0, 0.0, 0.0, 0.0, [], None)
    else
      var wins := Count(rows, IsWin);
      var losses := Count(rows, IsLoss);
      var totalWins := Sum(rows, WinPart);
      var totalLosses := Sum(rows, LossPart);
      RealizedSummary(
        Sum(rows, PnlOf), |rows|, wins, losses,
        wins as real / |rows| as real * 100.0,
        if wins > 0 then totalWins / wins as real else 0.0,
        if losses > 0 then totalLosses / losses as real else 0.0,
        rows, Some(days))
  }

  /** The realized summary of the trades table. */
  function RealizedPnlSummary(trades: seq<Trade>, symbol: Option<string>, days: int): RealizedSummary {
    RealizedSummaryOf(RealizedRows(trades, symbol), days)
  }

  /** Every P&L is a win, a loss or zero, so the total is the sum of wins
      plus the sum of losses, and a trade counts as at most one of them. */
  lemma {:induction false} WinsAndLossesSplitTotal(rows: seq<Trade>)
    ensures Sum(rows, PnlOf) == Sum(rows, WinPart) + Sum(rows, LossPart)
    ensures Count(rows, IsWin) + Count(rows, IsLoss) <= |rows|
    decreases |rows|
  {
    if |rows| > 0 {
      WinsAndLossesSplitTotal(rows[1..]);
    }
  }

  lemma {:induction false} WinsArePositive(rows: seq<Trade>)
    ensures Sum(rows, WinPart) >= 0.0
    ensures Count(rows, IsWin) > 0 ==> Sum(rows, WinPart) > 0.0
    decreases |rows|
  {
    if |rows| > 0 {
      WinsArePositive(rows[1..]);
    }
  }

  lemma {:induction false} LossesAreNegative(rows: seq<Trade>)
    ensures Sum(rows, LossPart) <= 0.0
    ensures Count(rows, IsLoss) > 0 ==> Sum(rows, LossPart) < 0.0
    decreases |rows|
  {
    if |rows| > 0 {
      LossesAreNegative(rows[1..]);
    }
  }

  /** The statistics of the summary: total = wins + losses, the win rate is
      a percentage, the average win is positive and the average loss
      negative when there are any, and zero otherwise. */
  lemma RealizedSummaryStatistics(rows: seq<Trade>, days: int)
    ensures var r := RealizedSummaryOf(rows, days);
      && r.winningTrades + r.losingTrades <= r.tradesCount
      && r.totalRealizedPnl == Sum(rows, WinPart) + Sum(rows, LossPart)
      && 0.0 <= r.winRate <= 100.0
      && (r.winningTrades > 0 ==> r.averageWin > 0.0)
      && (r.winningTrades == 0 ==> r.averageWin == 0.0)
      && (r.losingTrades > 0 ==> r.averageLoss < 0.0)
      && (r.losingTrades == 0 ==> r.averageLoss == 0.0)
  {
    WinsAndLossesSplitTotal(rows);
    WinsArePositive(rows);
    LossesAreNegative(rows);
    if |rows| > 0 {
      var wins := Count(rows, IsWin);
      var losses := Count(rows, IsLoss);
      RateIsPercent(wins, |rows|);
      if wins > 0 {
        QuotientSign(Sum(rows, WinPart), wins);
      }
      if losses > 0 {
        QuotientSign(Sum(rows, LossPart), losses);
      }
    }
  }

  lemma RateIsPercent(count: nat, n: nat)
    requires 0 < n && count <= n
    ensures 0.0 <= count as real / n as real * 100.0 <= 100.0
  {
    assert count as real / n as real <= 1.0;
  }

  /** Dividing by a positive count keeps the sign. */
  lemma QuotientSign(total: real, count: nat)
    requires count > 0
    ensures total > 0.0 ==> total / count as real > 0.0
    ensures total < 0.0 ==> total / count as real < 0.0
  {
  }

  // ---------------------------------------------------------------------------
  // Comprehensive report

  datatype PnlSummary = PnlSummary(
    totalPnl: real,
    realizedPnl: real,
    unrealizedPnl: real,
    totalMarketValue: real,
    totalCostBasis: real)

  const ComprehensiveError: string := "Failed to calculate comprehensive P&L"

  /** `get_comprehensive_pnl_report` from the two sub-reports, each of which
      may have failed. */
  function ComprehensiveReport(realized: Result<RealizedSummary, string>, unrealized: Result<UnrealizedReport, string>)
    : (r: Result<PnlSummary, string>)
    ensures r.Failure? <==> realized.Failure? || unrealized.Failure?
    ensures r.Failure? ==> r.error == ComprehensiveError
    ensures r.Success? ==>
      && r.value.totalPnl == r.value.realizedPnl + r.value.unrealizedPnl
      && r.value.realizedPnl == realized.value.totalRealizedPnl
      && r.value.unrealizedPnl == unrealized.value.unrealizedPnl
      && r.value.totalMarketValue == unrealized.value.totalMarketValue
      && r.value.totalCostBasis == unrealized.value.totalCostBasis
  {
    if realized.Failure? || unrealized.Failure? then Failure(ComprehensiveError)
    else
      var re := realized.value;
      var un := unrealized.value;
      Success(PnlSummary(re.totalRealizedPnl + un.unrealizedPnl, re.totalRealizedPnl, un.unrealizedPnl,
        un.totalMarketValue, un.totalCostBasis))
  }

  /** Over the tables, the total P&L is the recorded realized P&L plus the
      market value less the cost basis of the holdings. */
  lemma ComprehensiveTotal(trades: seq<Trade>, symbol: Option<string>, days: int, rows: seq<HoldingRow>)
    ensures var r := ComprehensiveReport(Success(RealizedPnlSummary(trades, symbol, days)), Success(UnrealizedPnl(rows)));
      && r.Success?
      && r.value.totalPnl == Sum(RealizedRows(trades, symbol), PnlOf) + (r.value.totalMarketValue - r.value.totalCostBasis)
  {
    UnrealizedIsValueLessBasis(rows);
  }
}
