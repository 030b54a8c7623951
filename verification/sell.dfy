/** `sell_stock` of `sell.py` as a transformer of the tables: the price
    lookup, the sufficiency check against the FIFO holdings, the FIFO cost
    basis and realized P&L, the SELL trade and its `profit_and_loss` record,
    the holding update and the cash credit. */
module Sell {
  import opened Wrappers
  import opened Text
  import opened Seqs
  import opened Tables
  import opened Fifo
  import opened SellRequests

  /** `get_fifo_holdings`: every BUY lot of `symbol`, oldest first, less as
      many shares as all SELL trades of `symbol` sold. */
  function FifoHoldings(trades: seq<Trade>, symbol: string): (r: seq<Available>)
    ensures forall i :: 0 <= i < |r| ==> r[i].quantity > 0.0
    ensures IsSubsequence(LotsOf(r), BuyLots(trades, symbol))
  {
    AvailableLots(BuyLots(trades, symbol), TotalSold(trades, symbol))
  }

  /** What the FIFO holdings add up to: bought minus sold, or nothing once
      more has been sold than bought. */
  lemma FifoHoldingsSum(trades: seq<Trade>, symbol: string)
    requires forall i :: 0 <= i < |trades| ==> trades[i].quantity >= 0.0
    ensures var bought := Sum(BuyLots(trades, symbol), LotQuantity);
      var sold := TotalSold(trades, symbol);
      && (sold <= bought ==> Sum(FifoHoldings(trades, symbol), AvailableQuantity) == bought - sold)
      && (sold > bought ==> FifoHoldings(trades, symbol) == [])
  {
    BuyLotsNonNegative(trades, symbol);
    var sells := Filter(trades, t => IsSellOf(t, symbol));
    SumNonNegative(sells, TradeQuantity);
    AvailableLotsSum(BuyLots(trades, symbol), TotalSold(trades, symbol));
  }

  datatype SellOutcome =
    /** `get_current_price` returned an error. */
    | PriceError(error: string)
    /** Fewer shares are available than requested; nothing is written. */
    | InsufficientShares(available: PyNumber, requested: int)
    /** The sale was recorded under `tradeId` with this realized P&L. */
    | Sold(tradeId: nat, realizedPnl: real)

  /** `sum(h['available_quantity'] for h in available_holdings)`: the int 0
      for no holdings, else a float. */
  function TotalAvailable(avail: seq<Available>): (n: PyNumber)
    ensures PyValue(n) == Sum(avail, AvailableQuantity)
    ensures |avail| == 0 <==> n.PyInt?
  {
    if |avail| == 0 then PyInt(0) else PyFloat(Sum(avail, AvailableQuantity))
  }

  /** The holdings row after selling `quantity` shares of `symbol`: deleted
      when it reaches zero or below, else reduced and given the average cost
      `calculate_remaining_average_cost` computes from `taken`. Without a row
      nothing changes. */
  function HoldingsAfterSale(holdings: map<string, Holding>, buys: seq<Lot>, symbol: string, quantity: int, taken: seq<Taken>)
    : (r: map<string, Holding>)
    ensures forall s :: s != symbol ==> (s in r <==> s in holdings) && (s in r ==> r[s] == holdings[s])
    ensures symbol !in holdings ==> symbol !in r
    ensures symbol in holdings ==>
      (symbol in r <==> holdings[symbol].quantity - quantity as real > 0.0)
    ensures symbol in r ==>
      && r[symbol].quantity == holdings[symbol].quantity - quantity as real
      && r[symbol].averageCost == RemainingAverageCost(buys, taken)
  {
    if symbol !in holdings then holdings
    else
      var newQuantity := holdings[symbol].quantity - quantity as real;
      if newQuantity <= 0.0 then holdings - {symbol}
      else holdings[symbol := Holding(newQuantity, RemainingAverageCost(buys, taken))]
  }

  /** `sell_stock(request, price)`. `price` is the caller's price, or else
      the outcome of `get_current_price`: a price or its error text. The
      connection failures and the exception paths are not modelled. */
  function SellStock(db: Db, request: SellRequest, price: Result<real, string>): (r: (Db, SellOutcome))
    ensures price.Failure? ==> r == (db, PriceError(price.error))
    ensures r.1.InsufficientShares? <==>
      price.Success? && Sum(FifoHoldings(db.trades, request.symbol), AvailableQuantity) < request.quantity as real
    ensures r.1.InsufficientShares? ==>
      && r.0 == db
      && PyValue(r.1.available) == Sum(FifoHoldings(db.trades, request.symbol), AvailableQuantity)
      && r.1.requested == request.quantity
    ensures r.1.Sold? ==> price.Success? && SaleWritten(db, r.0, request, price.value, r.1)
  {
    if price.Failure? then (db, PriceError(price.error))
    else
      var p := price.value;
      var avail := FifoHoldings(db.trades, request.symbol);
      if Sum(avail, AvailableQuantity) < request.quantity as real then
        (db, InsufficientShares(TotalAvailable(avail), request.quantity))
      else RecordSale(db, request, p)
  }

  /** The writes of a sale the holdings cover: the FIFO cost basis of the
      shares taken, the SELL trade, the `profit_and_loss` row, the holding
      update and the cash credit. */
  function RecordSale(db: Db, request: SellRequest, price: real): (r: (Db, SellOutcome))
    ensures r.1.Sold? && SaleWritten(db, r.0, request, price, r.1)
  {
    var q := request.quantity as real;
    var taken := Consume(FifoHoldings(db.trades, request.symbol), q);
    var realized := ProceedsLessCost(q, price, taken);
    var trades := db.trades + [Trade(request.symbol, Sell, price, q, Some(realized))];
    var holdings := HoldingsAfterSale(db.holdings, BuyLots(trades, request.symbol), request.symbol, request.quantity, taken);
    var balance := if db.balance.Some? then Some(db.balance.value + q * price) else None;
    var log := db.realizedLog + [RealizedRecord(Upper(request.symbol), |db.trades|, realized)];
    SaleWrites(db, request, price, q, taken, realized, trades, holdings, balance, log);
    (Db(trades, holdings, balance, db.prices, log), Sold(|db.trades|, realized))
  }

  /** The tables `RecordSale` builds meet `SaleWritten`. */
  lemma SaleWrites(db: Db, request: SellRequest, price: real, q: real, taken: seq<Taken>, realized: real,
                   trades: seq<Trade>, holdings: map<string, Holding>, balance: Option<real>, log: seq<RealizedRecord>)
    requires q == request.quantity as real
    requires taken == Consume(FifoHoldings(db.trades, request.symbol), q)
    requires realized == ProceedsLessCost(q, price, taken)
    requires trades == db.trades + [Trade(request.symbol, Sell, price, q, Some(realized))]
    requires holdings == HoldingsAfterSale(db.holdings, BuyLots(trades, request.symbol), request.symbol, request.quantity, taken)
    requires db.balance.None? ==> balance.None?
    requires db.balance.Some? ==> balance == Some(db.balance.value + q * price)
    requires log == db.realizedLog + [RealizedRecord(Upper(request.symbol), |db.trades|, realized)]
    ensures SaleWritten(db, Db(trades, holdings, balance, db.prices, log), request, price, Sold(|db.trades|, realized))
  {
    var after := Db(trades, holdings, balance, db.prices, log);
    SaleRowsWritten(db, after, request, price, q, taken, realized);
    SaleHoldings(db.holdings, BuyLots(trades, request.symbol), request.symbol, request.quantity, taken);
    assert SaleBalances(db, after, request, price, taken);
  }

  /** The rows a sale appends, in the terms of `SaleRows`. */
  lemma SaleRowsWritten(db: Db, after: Db, request: SellRequest, price: real, q: real, taken: seq<Taken>, realized: real)
    requires q == request.quantity as real
    requires realized == ProceedsLessCost(q, price, taken)
    requires after.trades == db.trades + [Trade(request.symbol, Sell, price, q, Some(realized))]
    requires after.realizedLog == db.realizedLog + [RealizedRecord(Upper(request.symbol), |db.trades|, realized)]
    ensures SaleRows(db, after, request, price, taken, Sold(|db.trades|, realized))
  {
    assert after.trades[..|db.trades|] == db.trades;
    assert after.realizedLog[..|db.realizedLog|] == db.realizedLog;
  }

  /** The holdings update of a sale, in the terms of `SaleWritten`. */
  lemma SaleHoldings(holdings: map<string, Holding>, buys: seq<Lot>, symbol: string, quantity: int, taken: seq<Taken>)
    ensures var after := HoldingsAfterSale(holdings, buys, symbol, quantity, taken);
      && OthersUnchanged(holdings, after, symbol)
      && ReducedBy(holdings, after, symbol, quantity as real)
      && (symbol in after ==> after[symbol].averageCost == RemainingAverageCost(buys, taken))
  {
  }

  /** `total_proceeds - total_cost_basis`: the quantity times the price less
      what the shares taken cost. */
  function ProceedsLessCost(quantity: real, price: real, taken: seq<Taken>): real {
    quantity * price - Sum(taken, TakenCost)
  }

  /** What a recorded sale writes, stated against the tables before it:
      the SELL trade and its `profit_and_loss` row appended under the next
      id with one realized P&L, which together with the FIFO cost of the
      shares taken makes up the proceeds; the cash up by quantity times
      price; the symbol's holding smaller by the quantity or gone, averaged
      over the BUY lots less this sale's shares; every other holding and the
      prices untouched. */
  ghost predicate SaleWritten(before: Db, after: Db, request: SellRequest, price: real, outcome: SellOutcome)
    requires outcome.Sold?
  {
    var taken := Consume(FifoHoldings(before.trades, request.symbol), request.quantity as real);
    SaleRows(before, after, request, price, taken, outcome) && SaleBalances(before, after, request, price, taken)
  }

  /** The rows of a sale: the SELL trade and the P&L row under the next id,
      with a P&L that plus the cost of `taken` is the proceeds. */
  ghost predicate SaleRows(before: Db, after: Db, request: SellRequest, price: real, taken: seq<Taken>, outcome: SellOutcome)
    requires outcome.Sold?
  {
    var q := request.quantity as real;
    && outcome.tradeId == |before.trades|
    && Appended(before.trades, after.trades, Trade(request.symbol, Sell, price, q, Some(outcome.realizedPnl)))
    && Appended(before.realizedLog, after.realizedLog, RealizedRecord(Upper(request.symbol), outcome.tradeId, outcome.realizedPnl))
    && outcome.realizedPnl + Sum(taken, TakenCost) == q * price
  }

  /** The cash, prices and holdings after a sale that took `taken`. */
  ghost predicate SaleBalances(before: Db, after: Db, request: SellRequest, price: real, taken: seq<Taken>) {
    var q := request.quantity as real;
    var symbol := request.symbol;
    && CreditedBy(before.balance, after.balance, q * price)
    && after.prices == before.prices
    && OthersUnchanged(before.holdings, after.holdings, symbol)
    && ReducedBy(before.holdings, after.holdings, symbol, q)
    && (symbol in after.holdings ==>
          after.holdings[symbol].averageCost == RemainingAverageCost(BuyLots(after.trades, symbol), taken))
  }

  predicate NonNegativeTrades(trades: seq<Trade>) {
    forall i :: 0 <= i < |trades| ==> trades[i].quantity >= 0.0
  }

  /** A recorded sale appends one SELL trade of the requested quantity: the
      BUY lots stay as they were and the total sold grows by the quantity. */
  lemma SaleAppendsOneSell(db: Db, request: SellRequest, price: real)
    requires SellStock(db, request, Success(price)).1.Sold?
    ensures var after := SellStock(db, request, Success(price)).0;
      && BuyLots(after.trades, request.symbol) == BuyLots(db.trades, request.symbol)
      && TotalSold(after.trades, request.symbol) == TotalSold(db.trades, request.symbol) + request.quantity as real
      && (request.quantity >= 0 && NonNegativeTrades(db.trades) ==> NonNegativeTrades(after.trades))
  {
    var after := SellStock(db, request, Success(price)).0;
    var sale := after.trades[|db.trades|];
    assert after.trades == db.trades + [sale];
    assert IsSellOf(sale, request.symbol) && sale.quantity == request.quantity as real;
    BuyLotsAppend(db.trades, sale, request.symbol);
    TotalSoldAppend(db.trades, sale, request.symbol);
  }

  /** A sale of a non-negative quantity takes exactly that many shares from
      the FIFO holdings, oldest lot first; `SaleWritten` prices them. */
  lemma SaleTakesRequested(db: Db, request: SellRequest, price: real)
    requires NonNegativeTrades(db.trades) && request.quantity >= 0
    requires SellStock(db, request, Success(price)).1.Sold?
    ensures Sum(Consume(FifoHoldings(db.trades, request.symbol), request.quantity as real), TakenQuantity) ==
      request.quantity as real
  {
    ConsumeSum(FifoHoldings(db.trades, request.symbol), request.quantity as real);
  }

  /** After a sale of a non-negative quantity the FIFO holdings of the
      symbol add up to exactly that many shares fewer. */
  lemma SaleReducesFifoSupply(db: Db, request: SellRequest, price: real)
    requires NonNegativeTrades(db.trades) && request.quantity >= 0
    requires SellStock(db, request, Success(price)).1.Sold?
    ensures var after := SellStock(db, request, Success(price)).0;
      Sum(FifoHoldings(after.trades, request.symbol), AvailableQuantity) ==
      Sum(FifoHoldings(db.trades, request.symbol), AvailableQuantity) - request.quantity as real
  {
    var symbol := request.symbol;
    var after := SellStock(db, request, Success(price)).0;
    SaleAppendsOneSell(db, request, price);
    FifoHoldingsSum(db.trades, symbol);
    FifoHoldingsSum(after.trades, symbol);
  }

  /** The average cost stored after a sale that leaves shares is the
      weighted average of the BUY lots less as many shares as THIS sale
      took, whatever earlier sales took. */
  lemma SaleAverageSkipsOnlyThisSale(db: Db, request: SellRequest, price: real)
    requires NonNegativeTrades(db.trades) && request.quantity >= 0
    requires SellStock(db, request, Success(price)).1.Sold?
    requires request.symbol in SellStock(db, request, Success(price)).0.holdings
    ensures SellStock(db, request, Success(price)).0.holdings[request.symbol].averageCost ==
      WeightedAverage(AvailableLots(BuyLots(db.trades, request.symbol), request.quantity as real))
  {
    SaleTakesRequested(db, request, price);
    SaleAppendsOneSell(db, request, price);
  }

  /** For the first sale of a symbol this is the FIFO average: the stored
      average cost is the weighted average of the FIFO holdings after the
      sale. */
  lemma FirstSaleAverageIsFifo(db: Db, request: SellRequest, price: real)
    requires NonNegativeTrades(db.trades) && request.quantity >= 0
    requires TotalSold(db.trades, request.symbol) == 0.0
    requires SellStock(db, request, Success(price)).1.Sold?
    requires request.symbol in SellStock(db, request, Success(price)).0.holdings
    ensures var after := SellStock(db, request, Success(price)).0;
      after.holdings[request.symbol].averageCost == WeightedAverage(FifoHoldings(after.trades, request.symbol))
  {
    var symbol := request.symbol;
    var after := SellStock(db, request, Success(price)).0;
    SaleAppendsOneSell(db, request, price);
    var lots := BuyLots(db.trades, symbol);
    assert FifoHoldings(after.trades, symbol) == AvailableLots(lots, request.quantity as real);
    SaleAverageSkipsOnlyThisSale(db, request, price);
  }

  /** Lots of 10 at 1 and 10 at 2 of "X", of which 10 were sold. */
  function ExampleDb(): Db {
    Db([Trade("X", Buy, 1.0, 10.0, None), Trade("X", Buy, 2.0, 10.0, None), Trade("X", Sell, 3.0, 10.0, Some(15.0))],
       map["X" := Holding(10.0, 2.0)], Some(0.0), map[], [])
  }

  function ExampleLots(): seq<Lot> {
    [Lot(0, 10.0, 1.0), Lot(1, 10.0, 2.0)]
  }

  lemma ExampleDbLots()
    ensures BuyLots(ExampleDb().trades, "X") == ExampleLots()
    ensures TotalSold(ExampleDb().trades, "X") == 10.0
    ensures FifoHoldings(ExampleDb().trades, "X") == [Available(ExampleLots()[1], 10.0)]
  {
    ExampleBuyLots();
    ExampleTotalSold();
    var lots := ExampleLots();
    assert AvailableLots(lots[1..], 0.0) == [Available(lots[1], 10.0)];
  }

  lemma ExampleBuyLots()
    ensures BuyLots(ExampleDb().trades, "X") == ExampleLots()
  {
    var trades := ExampleDb().trades;
    assert BuyLotsFrom(trades, "X", 2) == [];
    assert BuyLotsFrom(trades, "X", 1) == [Lot(1, 10.0, 2.0)];
  }

  lemma ExampleTotalSold()
    ensures TotalSold(ExampleDb().trades, "X") == 10.0
  {
    var trades := ExampleDb().trades;
    var isSell := (t: Trade) => IsSellOf(t, "X");
    var s0 := trades[2];
    assert Filter(trades, isSell) == [s0] by {
      assert trades[1..][1..] == [s0];
      assert Filter([s0], isSell) == [s0];
    }
    assert Sum([s0], TradeQuantity) == 10.0;
  }

  lemma ExampleAverages()
    ensures WeightedAverage(AvailableLots(ExampleLots(), 5.0)) == 5.0 / 3.0
    ensures WeightedAverage(AvailableLots(ExampleLots(), 15.0)) == 2.0
  {
    var lots := ExampleLots();
    var kept := AvailableLots(lots, 5.0);
    assert AvailableLots(lots[1..], 0.0) == [Available(lots[1], 10.0)];
    assert kept == [Available(lots[0], 5.0), Available(lots[1], 10.0)];
    assert Sum(kept, AvailableQuantity) == 15.0;
    assert Sum(kept, AvailableCost) == 25.0;
    var left := AvailableLots(lots, 15.0);
    assert AvailableLots(lots[1..], 5.0) == [Available(lots[1], 5.0)];
    assert left == [Available(lots[1], 5.0)];
    assert Sum(left, AvailableQuantity) == 5.0;
    assert Sum(left, AvailableCost) == 10.0;
  }

  /** After an earlier sale the stored average is not the FIFO one. Of lots
      of 10 at 1 and 10 at 2, 10 were sold, which leaves 10 at 2; selling 5
      more leaves 5 at 2, average 2, but the recomputation skips only 5
      shares from the oldest lot and stores (5 * 1 + 10 * 2) / 15 = 5/3. */
  lemma LaterSaleAverageIsNotFifo()
    ensures var r := SellStock(ExampleDb(), SellRequest("X", 5), Success(3.0));
      && r.1.Sold?
      && "X" in r.0.holdings
      && r.0.holdings["X"].averageCost == 5.0 / 3.0
      && WeightedAverage(FifoHoldings(r.0.trades, "X")) == 2.0
  {
    var db := ExampleDb();
    var request := SellRequest("X", 5);
    var lots := ExampleLots();
    ExampleDbLots();
    assert NonNegativeTrades(db.trades);
    assert Sum(FifoHoldings(db.trades, "X"), AvailableQuantity) == 10.0;
    PartialSale(db, request, 3.0);
    var after := SellStock(db, request, Success(3.0)).0;
    assert after.holdings["X"].averageCost == WeightedAverage(AvailableLots(lots, 5.0));
    assert FifoHoldings(after.trades, "X") == AvailableLots(lots, 15.0);
    ExampleAverages();
  }

  /** A sale that finds enough shares and leaves some in the holding row is
      recorded; the stored average skips only its own quantity from the BUY
      lots, while the FIFO holdings afterwards skip everything sold so far. */
  lemma PartialSale(db: Db, request: SellRequest, price: real)
    requires NonNegativeTrades(db.trades) && request.quantity >= 0
    requires Sum(FifoHoldings(db.trades, request.symbol), AvailableQuantity) >= request.quantity as real
    requires request.symbol in db.holdings && db.holdings[request.symbol].quantity > request.quantity as real
    ensures var r := SellStock(db, request, Success(price));
      var lots := BuyLots(db.trades, request.symbol);
      && r.1.Sold?
      && request.symbol in r.0.holdings
      && r.0.holdings[request.symbol].averageCost == WeightedAverage(AvailableLots(lots, request.quantity as real))
      && FifoHoldings(r.0.trades, request.symbol) ==
           AvailableLots(lots, TotalSold(db.trades, request.symbol) + request.quantity as real)
  {
    var r := SellStock(db, request, Success(price));
    assert r.1.Sold?;
    SaleAverageSkipsOnlyThisSale(db, request, price);
    FifoAfterSale(db, request, price);
  }

  /** After a recorded sale the FIFO holdings skip everything sold before
      plus this sale's quantity. */
  lemma FifoAfterSale(db: Db, request: SellRequest, price: real)
    requires SellStock(db, request, Success(price)).1.Sold?
    ensures FifoHoldings(SellStock(db, request, Success(price)).0.trades, request.symbol) ==
      AvailableLots(BuyLots(db.trades, request.symbol), TotalSold(db.trades, request.symbol) + request.quantity as real)
  {
    var r := SellStock(db, request, Success(price));
    assert SaleWritten(db, r.0, request, price, r.1);
    FifoAfterSellTrade(db.trades, Trade(request.symbol, Sell, price, request.quantity as real, Some(r.1.realizedPnl)));
  }

  /** Appending a SELL trade adds its quantity to what the FIFO holdings
      skip. */
  lemma FifoAfterSellTrade(trades: seq<Trade>, sale: Trade)
    requires sale.kind == Sell
    ensures FifoHoldings(trades + [sale], sale.symbol) ==
      AvailableLots(BuyLots(trades, sale.symbol), TotalSold(trades, sale.symbol) + sale.quantity)
  {
    var after := trades + [sale];
    BuyLotsAppend(trades, sale, sale.symbol);
    TotalSoldAppend(trades, sale, sale.symbol);
    assert FifoHoldings(after, sale.symbol) == AvailableLots(BuyLots(after, sale.symbol), TotalSold(after, sale.symbol));
  }

  /** `sellRequest` accepts a negative quantity and `sell_stock` carries it
      out: the sufficiency check passes, no lot is consumed, the holding
      grows and the cash falls by |quantity| times a positive price. */
  lemma NegativeSaleIsRecorded(db: Db, request: SellRequest, price: real)
    requires NonNegativeTrades(db.trades)
    requires request.quantity < 0 && price > 0.0
    ensures var r := SellStock(db, request, Success(price));
      && r.1.Sold?
      && r.1.realizedPnl == request.quantity as real * price
      && (db.balance.Some? ==> r.0.balance.value < db.balance.value)
      && (request.symbol in db.holdings && db.holdings[request.symbol].quantity >= 0.0 ==>
            request.symbol in r.0.holdings
            && r.0.holdings[request.symbol].quantity > db.holdings[request.symbol].quantity)
  {
    var avail := FifoHoldings(db.trades, request.symbol);
    SumNonNegative(avail, AvailableQuantity);
    var q := request.quantity as real;
    assert q * price < 0.0;
  }
  const InsufficientPrefix: string := SharesHead + AvailableLabel
  const RequestedInfix: string := Separator + RequestedLabel
  const SoldPrefix: string := "Transaction successful" + ". Realized P&L: $"

  /** The text `sell_stock` returns for an insufficient sale. It is defined
      when the available total prints as digits: the int 0, or a whole float
      below 1e16. */
  function InsufficientMessage(available: PyNumber, requested: int): (m: Option<string>)
    ensures m.Some? <==> PyRepr(available).Some?
    ensures m.Some? ==> m.value == InsufficientPrefix + PyRepr(available).value + RequestedInfix + FormatInt(requested)
  {
    match PyRepr(available)
    case None => None
    case Some(a) => Some(InsufficientPrefix + a + RequestedInfix + FormatInt(requested))
  }

  /** The text `sell_stock` returns for each outcome; `pnlText` is the
      two-decimal rendering of the realized P&L, which is not modelled. */
  function Message(symbol: string, outcome: SellOutcome, pnlText: string): (m: Option<string>)
    ensures outcome.PriceError? ==> m == Some("Error getting price for " + symbol + ": " + outcome.error)
    ensures outcome.InsufficientShares? ==> m == InsufficientMessage(outcome.available, outcome.requested)
    ensures outcome.Sold? ==> m == Some(SoldPrefix + pnlText)
  {
    match outcome
    case PriceError(e) => Some("Error getting price for " + symbol + ": " + e)
    case InsufficientShares(a, q) => InsufficientMessage(a, q)
    case Sold(_, _) => Some(SoldPrefix + pnlText)
  }
}
