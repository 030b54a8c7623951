/** `OrderManager` of `order_manager.py`: market orders executed against the
    tables. Unlike `sell.py`, a sale here consumes the BUY lots in place,
    lowering the `quantity` of the BUY trades themselves, and the average
    cost of what remains is the plain mean of the remaining lot prices. */
module OrderManager {
  import opened Wrappers
  import opened Text
  import opened Seqs
  import opened Tables
  import Fifo
  import OrderRequests

  // ---------------------------------------------------------------------------
  // `_execute_fifo_sale`: the lot loop

  /** The trades after the loop, and what it sold, at what cost, for what
      realized P&L. */
  datatype FifoResult = FifoResult(trades: seq<Trade>, sold: real, basis: real, realized: real)

  /** The loop over the BUY trades of `symbol` from position `from` on,
      oldest first, with `toSell` shares still to sell at `price`: a lot of
      at most the remaining shares is sold whole and set to 0, a larger lot
      is reduced by the remaining shares, and the loop stops once nothing
      remains. Each lot adds its `sold * price - sold * lot price`. */
  function FifoSaleFrom(trades: seq<Trade>, symbol: string, from: nat, toSell: real, price: real): (r: FifoResult)
    requires from <= |trades|
    ensures |r.trades| == |trades|
    ensures forall i :: 0 <= i < |trades| && (i < from || !IsBuyOf(trades[i], symbol)) ==> r.trades[i] == trades[i]
    ensures Realized(r, price)
    decreases |trades| - from
  {
    if from == |trades| then FifoResult(trades, 0.0, 0.0, 0.0)
    else if !IsBuyOf(trades[from], symbol) then FifoSaleFrom(trades, symbol, from + 1, toSell, price)
    else if toSell <= 0.0 then FifoResult(trades, 0.0, 0.0, 0.0)
    else
      var lot := trades[from];
      var sold := LotSold(lot.quantity, toSell);
      var rest := FifoSaleFrom(Reduced(trades, from, toSell), symbol, from + 1, toSell - sold, price);
      RealizedStep(sold, lot.price, price, rest.sold, rest.basis, rest.realized);
      FifoResult(rest.trades, sold + rest.sold, sold * lot.price + rest.basis,
        (sold * price - sold * lot.price) + rest.realized)
  }

  /** The shares a lot of `quantity` gives when `toSell` remain to be sold:
      all of it when it is no larger, else the remaining shares. */
  function LotSold(quantity: real, toSell: real): real {
    if quantity <= toSell then quantity else toSell
  }

  /** What stays in the lot: 0 when it is sold whole. */
  function LotLeft(quantity: real, toSell: real): real {
    if quantity <= toSell then 0.0 else quantity - toSell
  }

  /** The trades with the lot at `from` reduced by the sale. */
  function Reduced(trades: seq<Trade>, from: nat, toSell: real): seq<Trade>
    requires from < |trades|
  {
    trades[from := trades[from].(quantity := LotLeft(trades[from].quantity, toSell))]
  }

  /** One step of the loop at a BUY lot with shares left to sell. */
  lemma FifoLotStep(trades: seq<Trade>, symbol: string, from: nat, toSell: real, price: real)
    requires from < |trades| && IsBuyOf(trades[from], symbol) && toSell > 0.0
    ensures var lot := trades[from];
      var sold := LotSold(lot.quantity, toSell);
      var rest := FifoSaleFrom(Reduced(trades, from, toSell), symbol, from + 1, toSell - sold, price);
      FifoSaleFrom(trades, symbol, from, toSell, price) ==
        FifoResult(rest.trades, sold + rest.sold, sold * lot.price + rest.basis,
          (sold * price - sold * lot.price) + rest.realized)
  {
  }

  function FifoSale(trades: seq<Trade>, symbol: string, toSell: real, price: real): FifoResult {
    FifoSaleFrom(trades, symbol, 0, toSell, price)
  }

  /** The realized P&L of a loop result is its proceeds less its basis. */
  predicate Realized(r: FifoResult, price: real) {
    r.realized == r.sold * price - r.basis
  }

  lemma RealizedStep(sold: real, lotPrice: real, price: real, restSold: real, restBasis: real, restRealized: real)
    requires restRealized == restSold * price - restBasis
    ensures (sold * price - sold * lotPrice) + restRealized == (sold + restSold) * price - (sold * lotPrice + restBasis)
  {
    assert (sold + restSold) * price == sold * price + restSold * price;
  }

  /** With nothing left to sell the loop changes nothing. */
  lemma {:induction false} FifoNothingToSell(trades: seq<Trade>, symbol: string, from: nat, toSell: real, price: real)
    requires from <= |trades| && toSell <= 0.0
    ensures FifoSaleFrom(trades, symbol, from, toSell, price) == FifoResult(trades, 0.0, 0.0, 0.0)
    decreases |trades| - from
  {
    if from < |trades| && !IsBuyOf(trades[from], symbol) {
      FifoNothingToSell(trades, symbol, from + 1, toSell, price);
    }
  }

  function LotsTotal(trades: seq<Trade>, symbol: string, from: nat): real
    requires from <= |trades|
  {
    Sum(BuyLotsFrom(trades, symbol, from), LotQuantity)
  }

  lemma LotsTotalNonNegative(trades: seq<Trade>, symbol: string, from: nat)
    requires from <= |trades| && NonNegativeQuantities(trades)
    ensures LotsTotal(trades, symbol, from) >= 0.0
  {
    SumNonNegative(BuyLotsFrom(trades, symbol, from), LotQuantity);
  }

  predicate NonNegativeQuantities(trades: seq<Trade>) {
    forall i :: 0 <= i < |trades| ==> trades[i].quantity >= 0.0
  }

  /** The lots from a BUY trade of the symbol on: that lot, then the rest. */
  lemma LotsTotalAtBuy(trades: seq<Trade>, symbol: string, from: nat)
    requires from < |trades| && IsBuyOf(trades[from], symbol)
    ensures LotsTotal(trades, symbol, from) == trades[from].quantity + LotsTotal(trades, symbol, from + 1)
  {
    assert BuyLotsFrom(trades, symbol, from) == [Lot(from, trades[from].quantity, trades[from].price)] + BuyLotsFrom(trades, symbol, from + 1);
  }

  lemma LotsTotalAtOther(trades: seq<Trade>, symbol: string, from: nat)
    requires from < |trades| && !IsBuyOf(trades[from], symbol)
    ensures LotsTotal(trades, symbol, from) == LotsTotal(trades, symbol, from + 1)
  {
  }

  /** Reducing the lot at `from` leaves the lots after it as they were. */
  lemma LotsTotalAfterReduced(trades: seq<Trade>, symbol: string, from: nat, toSell: real)
    requires from < |trades|
    ensures LotsTotal(Reduced(trades, from, toSell), symbol, from + 1) == LotsTotal(trades, symbol, from + 1)
  {
    BuyLotsFromUpdateBefore(trades, from, trades[from].(quantity := LotLeft(trades[from].quantity, toSell)), symbol, from + 1);
  }

  /** The arithmetic of one step: what the lot gives plus what the rest
      gives is the smaller of the quantity to sell and what all hold. */
  lemma SoldStep(quantity: real, toSell: real, later: real, restSold: real)
    requires quantity >= 0.0 && toSell > 0.0 && later >= 0.0
    requires restSold == Fifo.Min2(toSell - LotSold(quantity, toSell), later)
    ensures LotSold(quantity, toSell) + restSold == Fifo.Min2(toSell, quantity + later)
  {
  }

  /** With non-negative lots the loop sells the smaller of the quantity to
      sell and the quantity the lots hold. */
  lemma {:induction false} FifoSoldAmount(trades: seq<Trade>, symbol: string, from: nat, toSell: real, price: real)
    requires from <= |trades| && NonNegativeQuantities(trades) && toSell >= 0.0
    ensures FifoSaleFrom(trades, symbol, from, toSell, price).sold == Fifo.Min2(toSell, LotsTotal(trades, symbol, from))
    decreases |trades| - from
  {
    LotsTotalNonNegative(trades, symbol, from);
    if from < |trades| {
      if !IsBuyOf(trades[from], symbol) {
        FifoSoldAmount(trades, symbol, from + 1, toSell, price);
        LotsTotalAtOther(trades, symbol, from);
      } else if toSell > 0.0 {
        var updated := Reduced(trades, from, toSell);
        ReducedNonNegative(trades, from, toSell);
        FifoSoldAmount(updated, symbol, from + 1, toSell - LotSold(trades[from].quantity, toSell), price);
        SoldAmountStep(trades, symbol, from, toSell, price);
      }
    }
  }

  lemma ReducedNonNegative(trades: seq<Trade>, from: nat, toSell: real)
    requires from < |trades| && NonNegativeQuantities(trades)
    ensures NonNegativeQuantities(Reduced(trades, from, toSell))
  {
  }

  /** The BUY-lot step of `FifoSoldAmount`, given the claim for the rest. */
  lemma SoldAmountStep(trades: seq<Trade>, symbol: string, from: nat, toSell: real, price: real)
    requires from < |trades| && NonNegativeQuantities(trades) && IsBuyOf(trades[from], symbol) && toSell > 0.0
    requires var sold := LotSold(trades[from].quantity, toSell);
      FifoSaleFrom(Reduced(trades, from, toSell), symbol, from + 1, toSell - sold, price).sold ==
        Fifo.Min2(toSell - sold, LotsTotal(Reduced(trades, from, toSell), symbol, from + 1))
    ensures FifoSaleFrom(trades, symbol, from, toSell, price).sold == Fifo.Min2(toSell, LotsTotal(trades, symbol, from))
  {
    var q := trades[from].quantity;
    var sold := LotSold(q, toSell);
    LotsTotalAfterReduced(trades, symbol, from, toSell);
    LotsTotalNonNegative(trades, symbol, from + 1);
    LotsTotalAtBuy(trades, symbol, from);
    FifoLotStep(trades, symbol, from, toSell, price);
    SoldStep(q, toSell, LotsTotal(trades, symbol, from + 1),
      FifoSaleFrom(Reduced(trades, from, toSell), symbol, from + 1, toSell - sold, price).sold);
  }

  /** The lots hold afterwards exactly as many shares fewer as were sold. */
  lemma {:induction false} FifoRemaining(trades: seq<Trade>, symbol: string, from: nat, toSell: real, price: real)
    requires from <= |trades|
    ensures var r := FifoSaleFrom(trades, symbol, from, toSell, price);
      LotsTotal(r.trades, symbol, from) == LotsTotal(trades, symbol, from) - r.sold
    decreases |trades| - from
  {
    if from < |trades| {
      var r := FifoSaleFrom(trades, symbol, from, toSell, price);
      if !IsBuyOf(trades[from], symbol) {
        FifoRemaining(trades, symbol, from + 1, toSell, price);
        LotsTotalAtOther(trades, symbol, from);
        LotsTotalAtOther(r.trades, symbol, from);
      } else if toSell > 0.0 {
        var q := trades[from].quantity;
        var sold := LotSold(q, toSell);
        var updated := Reduced(trades, from, toSell);
        FifoRemaining(updated, symbol, from + 1, toSell - sold, price);
        FifoLotStep(trades, symbol, from, toSell, price);
        LotsTotalAfterReduced(trades, symbol, from, toSell);
        LotsTotalAtBuy(trades, symbol, from);
        assert r.trades[from] == updated[from];
        LotsTotalAtBuy(r.trades, symbol, from);
      }
    }
  }

  /** Lots are consumed in trade-date order: when a lot was touched, every
      earlier BUY lot of the symbol was emptied. */
  lemma {:induction false} FifoInOrder(trades: seq<Trade>, symbol: string, from: nat, toSell: real, price: real)
    requires from <= |trades|
    ensures var r := FifoSaleFrom(trades, symbol, from, toSell, price);
      forall i, j :: from <= i < j < |trades| && IsBuyOf(trades[i], symbol) && r.trades[j] != trades[j] ==>
        r.trades[i].quantity == 0.0
    decreases |trades| - from
  {
    if from < |trades| {
      if !IsBuyOf(trades[from], symbol) {
        FifoInOrder(trades, symbol, from + 1, toSell, price);
      } else if toSell > 0.0 {
        var q := trades[from].quantity;
        var sold := LotSold(q, toSell);
        var updated := Reduced(trades, from, toSell);
        FifoInOrder(updated, symbol, from + 1, toSell - sold, price);
        FifoLotStep(trades, symbol, from, toSell, price);
        if q > toSell {
          FifoNothingToSell(updated, symbol, from + 1, toSell - sold, price);
        }
      } else {
        FifoNothingToSell(trades, symbol, from, toSell, price);
      }
    }
  }

  /** `after` differs from `before` in quantities only, each of which stays
      between 0 and what it was. */
  predicate QuantitiesWithin(before: seq<Trade>, after: seq<Trade>) {
    |after| == |before| &&
    forall i :: 0 <= i < |before| ==>
      && after[i] == before[i].(quantity := after[i].quantity)
      && 0.0 <= after[i].quantity <= before[i].quantity
  }

  /** Only quantities change, and with non-negative lots each stays between
      0 and what the lot held. */
  lemma {:induction false} FifoLotBounds(trades: seq<Trade>, symbol: string, from: nat, toSell: real, price: real)
    requires from <= |trades| && NonNegativeQuantities(trades)
    ensures var r := FifoSaleFrom(trades, symbol, from, toSell, price);
      forall i :: 0 <= i < |trades| ==>
        && r.trades[i] == trades[i].(quantity := r.trades[i].quantity)
        && 0.0 <= r.trades[i].quantity <= trades[i].quantity
    decreases |trades| - from
  {
    if from < |trades| {
      if !IsBuyOf(trades[from], symbol) {
        FifoLotBounds(trades, symbol, from + 1, toSell, price);
      } else if toSell > 0.0 {
        var updated := Reduced(trades, from, toSell);
        ReducedNonNegative(trades, from, toSell);
        FifoLotBounds(updated, symbol, from + 1, toSell - LotSold(trades[from].quantity, toSell), price);
        LotBoundsStep(trades, symbol, from, toSell, price);
      }
    }
  }

  /** The BUY-lot step of `FifoLotBounds`, given the claim for the rest. */
  lemma LotBoundsStep(trades: seq<Trade>, symbol: string, from: nat, toSell: real, price: real)
    requires from < |trades| && NonNegativeQuantities(trades) && IsBuyOf(trades[from], symbol) && toSell > 0.0
    requires var updated := Reduced(trades, from, toSell);
      QuantitiesWithin(updated, FifoSaleFrom(updated, symbol, from + 1, toSell - LotSold(trades[from].quantity, toSell), price).trades)
    ensures QuantitiesWithin(trades, FifoSaleFrom(trades, symbol, from, toSell, price).trades)
  {
    FifoLotStep(trades, symbol, from, toSell, price);
  }

  /** At most one lot is left partly consumed. */
  lemma AtMostOnePartialLot(trades: seq<Trade>, symbol: string, toSell: real, price: real, i: nat, j: nat)
    requires i < |trades| && j < |trades|
    requires IsBuyOf(trades[i], symbol) && IsBuyOf(trades[j], symbol)
    requires var r := FifoSale(trades, symbol, toSell, price);
      0.0 < r.trades[i].quantity < trades[i].quantity && 0.0 < r.trades[j].quantity < trades[j].quantity
    ensures i == j
  {
    FifoInOrder(trades, symbol, 0, toSell, price);
  }

  // ---------------------------------------------------------------------------
  // `_calculate_remaining_average_cost`

  function LotPrice(l: Lot): real { l.price }

  /** `SELECT AVG(price_at_trade) ... AND quantity > 0`, or 0 when no lot
      remains: the plain mean of the prices, whatever the quantities. */
  function UnweightedAverage(lots: seq<Lot>): real {
    var remaining := Filter(lots, (l: Lot) => l.quantity > 0.0);
    if |remaining| == 0 then 0.0 else Sum(remaining, LotPrice) / |remaining| as real
  }

  lemma {:induction false} PriceSumBounds(lots: seq<Lot>, lo: real, hi: real)
    requires forall l :: l in lots ==> lo <= l.price <= hi
    ensures Fifo.ScaledBetween(lo, Sum(lots, LotPrice), hi, |lots| as real)
    decreases |lots|
  {
    if |lots| > 0 {
      PriceSumBounds(lots[1..], lo, hi);
      assert lo * |lots| as real == lo + lo * |lots[1..]| as real;
      assert hi * |lots| as real == hi + hi * |lots[1..]| as real;
    }
  }

  /** The mean lies between the extreme prices of the remaining lots. */
  lemma UnweightedAverageBounds(lots: seq<Lot>, lo: real, hi: real)
    requires exists l :: l in lots && l.quantity > 0.0
    requires forall l :: l in lots && l.quantity > 0.0 ==> lo <= l.price <= hi
    ensures lo <= UnweightedAverage(lots) <= hi
  {
    var positive := (x: Lot) => x.quantity > 0.0;
    var remaining := Filter(lots, positive);
    var l :| l in lots && l.quantity > 0.0;
    FilterKeeps(lots, positive, l);
    assert |remaining| > 0;
    assert forall x :: x in remaining ==> lo <= x.price <= hi;
    PriceSumBounds(remaining, lo, hi);
    var n := |remaining| as real;
    var total := Sum(remaining, LotPrice);
    assert n > 0.0;
    Fifo.DivBounds(total, n, lo, hi);
    assert UnweightedAverage(lots) == Sum(remaining, LotPrice) / n;
  }

  lemma {:induction false} FilterKeeps<T>(s: seq<T>, p: T -> bool, x: T)
    requires x in s && p(x)
    ensures x in Filter(s, p)
    decreases |s|
  {
    if s[0] != x {
      FilterKeeps(s[1..], p, x);
    }
  }

  /** The plain mean differs from the quantity-weighted mean of `sell.py`:
      1 share at 10 and 3 shares at 20 average 15 here but 17.5 there. */
  lemma UnweightedDiffersFromWeighted()
    ensures var lots := [Lot(0, 1.0, 10.0), Lot(1, 3.0, 20.0)];
      && UnweightedAverage(lots) == 15.0
      && Fifo.WeightedAverage(Fifo.AvailableLots(lots, 0.0)) == 17.5
  {
    var lots := [Lot(0, 1.0, 10.0), Lot(1, 3.0, 20.0)];
    var positive := (l: Lot) => l.quantity > 0.0;
    assert Filter(lots[1..], positive) == [lots[1]];
    assert Filter(lots, positive) == lots;
    var avail := Fifo.AvailableLots(lots, 0.0);
    assert Fifo.AvailableLots(lots[1..], 0.0) == [Fifo.Available(lots[1], 3.0)];
    assert avail == [Fifo.Available(lots[0], 1.0), Fifo.Available(lots[1], 3.0)];
    assert Sum(avail, Fifo.AvailableQuantity) == 4.0;
    assert Sum(avail, Fifo.AvailableCost) == 70.0;
  }
  // ---------------------------------------------------------------------------
  // Executing orders

  datatype OrderOutcome =
    /** `get_current_price` failed. */
    | PriceFailed(error: string)
    /** `get_cash_balance` found no balance row; any transaction is rolled
        back. */
    | CashBalanceFailed
    | InsufficientFunds(required: real, cash: real)
    /** `available` is the holding's quantity, or the int 0 without one. */
    | InsufficientShares(requested: int, available: PyNumber)
    /** An exception inside the transaction (the average-cost division by a
        zero quantity); the transaction is rolled back. */
    | ExecutionFailed
    | BuyFilled(price: real, quantity: int, totalCost: real)
    | SellFilled(price: real, quantity: int, proceeds: real, realizedPnl: real)

  /** `_update_holdings_after_buy`: a new holding at the fill price, or the
      existing one with the quantity added and the cost averaged over the new
      total. None when that total is zero, where the division raises. */
  function UpdateHoldingsAfterBuy(existing: Option<Holding>, quantity: int, price: real): (r: Option<Holding>)
    ensures existing.None? ==> r == Some(Holding(quantity as real, price))
    ensures existing.Some? ==> (r.None? <==> existing.value.quantity + quantity as real == 0.0)
    ensures existing.Some? && r.Some? ==>
      && r.value.quantity == existing.value.quantity + quantity as real
      && CostConserved(existing.value, r.value, quantity, price)
  {
    match existing
    case None => Some(Holding(quantity as real, price))
    case Some(h) =>
      var total := h.quantity * h.averageCost + quantity as real * price;
      var newQuantity := h.quantity + quantity as real;
      if newQuantity == 0.0 then None
      else
        var average := total / newQuantity;
        assert average * newQuantity == total;
        Some(Holding(newQuantity, average))
  }

  /** The new quantity times the new average is the old cost plus the
      purchase. */
  predicate CostConserved(before: Holding, after: Holding, quantity: int, price: real) {
    after.quantity * after.averageCost == before.quantity * before.averageCost + quantity as real * price
  }

  /** `_execute_buy_order`: rejected when price times quantity exceeds the
      balance (equality is accepted); otherwise the BUY trade is recorded,
      the balance debited and the holding updated, all in one transaction. */
  function ExecuteBuyOrder(db: Db, order: OrderRequests.OrderRequest, price: real): (r: (Db, OrderOutcome))
    ensures db.balance.None? ==> r == (db, CashBalanceFailed)
    ensures r.1.InsufficientFunds? <==> db.balance.Some? && price * order.quantity as real > db.balance.value
    ensures r.1.InsufficientFunds? ==> r.0 == db
    ensures r.1.ExecutionFailed? ==> r.0 == db
    ensures r.1.BuyFilled? ==>
      && r.1 == BuyFilled(price, order.quantity, price * order.quantity as real)
      && r.0.trades == db.trades + [Trade(order.symbol, Buy, price, order.quantity as real, None)]
      && r.0.balance == Some(db.balance.value - price * order.quantity as real)
      && r.0.balance.value >= 0.0
      && order.symbol in r.0.holdings
      && Some(r.0.holdings[order.symbol]) == UpdateHoldingsAfterBuy(Lookup(db.holdings, order.symbol), order.quantity, price)
      && (forall s :: s != order.symbol ==> (s in r.0.holdings <==> s in db.holdings) && (s in r.0.holdings ==> r.0.holdings[s] == db.holdings[s]))
      && r.0.prices == db.prices && r.0.realizedLog == db.realizedLog
  {
    var total := price * order.quantity as real;
    if db.balance.None? then (db, CashBalanceFailed)
    else if total > db.balance.value then (db, InsufficientFunds(total, db.balance.value))
    else
      match UpdateHoldingsAfterBuy(Lookup(db.holdings, order.symbol), order.quantity, price)
      case None => (db, ExecutionFailed)
      case Some(h) =>
        var trades := db.trades + [Trade(order.symbol, Buy, price, order.quantity as real, None)];
        (db.(trades := trades, balance := Some(db.balance.value - total), holdings := db.holdings[order.symbol := h]),
         BuyFilled(price, order.quantity, total))
  }

  /** `_execute_sell_order`: rejected when the holding is missing or holds
      fewer shares than requested; otherwise the lots are consumed in place,
      the holding reduced or deleted, the SELL trade recorded and the balance
      credited, all in one transaction. */
  function ExecuteSellOrder(db: Db, order: OrderRequests.OrderRequest, price: real): (r: (Db, OrderOutcome))
    ensures r.1.InsufficientShares? <==>
      order.symbol !in db.holdings || db.holdings[order.symbol].quantity < order.quantity as real
    ensures r.1.InsufficientShares? ==>
      && r.0 == db && r.1.requested == order.quantity
      && r.1.available == (if order.symbol in db.holdings then PyFloat(db.holdings[order.symbol].quantity) else PyInt(0))
    ensures r.1.CashBalanceFailed? ==> r.0 == db
    ensures r.1.SellFilled? ==> db.balance.Some? && SaleFilled(db, r.0, order, price, r.1)
  {
    var symbol := order.symbol;
    var q := order.quantity as real;
    if symbol !in db.holdings || db.holdings[symbol].quantity < q then
      (db, InsufficientShares(order.quantity, if symbol in db.holdings then PyFloat(db.holdings[symbol].quantity) else PyInt(0)))
    else
      var fifo := FifoSale(db.trades, symbol, q, price);
      var newQuantity := db.holdings[symbol].quantity - q;
      var holdings := if newQuantity <= 0.0 then db.holdings - {symbol}
        else db.holdings[symbol := Holding(newQuantity, UnweightedAverage(BuyLots(fifo.trades, symbol)))];
      if db.balance.None? then (db, CashBalanceFailed)
      else
        var sale := Trade(symbol, Sell, price, q, Some(fifo.realized));
        var trades := fifo.trades + [sale];
        BuyLotsAppend(fifo.trades, sale, symbol);
        assert forall s :: s != symbol ==> Lookup(holdings, s) == Lookup(db.holdings, s);
        (Db(trades, holdings, Some(db.balance.value + price * q), db.prices, db.realizedLog),
         SellFilled(price, order.quantity, price * q, fifo.realized))
  }

  /** What a filled sale writes, stated against the tables before it: the
      outcome repeats the order's price and quantity with proceeds of price
      times quantity; among the earlier trades only BUY lots of the symbol
      change; one SELL trade carrying the loop's realized P&L is appended;
      the cash rises by the proceeds; the holding shrinks by the quantity or
      goes, and keeps the plain mean of its BUY lots as they are afterwards;
      every other holding, the prices and the P&L log are untouched. */
  ghost predicate SaleFilled(before: Db, after: Db, order: OrderRequests.OrderRequest, price: real, outcome: OrderOutcome)
    requires outcome.SellFilled?
  {
    var symbol := order.symbol;
    var q := order.quantity as real;
    var n := |before.trades|;
    && symbol in before.holdings
    && outcome.price == price && outcome.quantity == order.quantity && outcome.proceeds == price * q
    && outcome.realizedPnl == FifoSale(before.trades, symbol, q, price).realized
    && |after.trades| == n + 1
    && (forall i :: 0 <= i < n && !IsBuyOf(before.trades[i], symbol) ==> after.trades[i] == before.trades[i])
    && after.trades[n] == Trade(symbol, Sell, price, q, Some(outcome.realizedPnl))
    && CreditedBy(before.balance, after.balance, price * q)
    && after.prices == before.prices && after.realizedLog == before.realizedLog
    && OthersUnchanged(before.holdings, after.holdings, symbol)
    && ReducedBy(before.holdings, after.holdings, symbol, q)
    && (symbol in after.holdings ==>
          after.holdings[symbol].averageCost == UnweightedAverage(BuyLots(after.trades, symbol)))
  }

  /** `_execute_market_order`: the price lookup, then the side's execution. */
  function ExecuteMarketOrder(db: Db, order: OrderRequests.OrderRequest, price: Result<real, string>): (r: (Db, OrderOutcome))
    ensures price.Failure? ==> r == (db, PriceFailed(price.error))
    ensures price.Success? && order.side == OrderRequests.Buy ==> r == ExecuteBuyOrder(db, order, price.value)
    ensures price.Success? && order.side == OrderRequests.Sell ==> r == ExecuteSellOrder(db, order, price.value)
  {
    if price.Failure? then (db, PriceFailed(price.error))
    else if order.side == OrderRequests.Buy then ExecuteBuyOrder(db, order, price.value)
    else ExecuteSellOrder(db, order, price.value)
  }

  // ---------------------------------------------------------------------------
  // The ledger invariant the order manager keeps

  /** The holding of `symbol` holds exactly the shares its BUY lots still
      hold, and there is no holding when the lots hold none. */
  ghost predicate Consistent(db: Db, symbol: string) {
    var total := Sum(BuyLots(db.trades, symbol), LotQuantity);
    && (symbol in db.holdings ==> db.holdings[symbol].quantity == total)
    && (symbol !in db.holdings ==> total == 0.0)
  }

  /** A filled buy of a positive quantity keeps the holding equal to its
      lots. */
  lemma BuyKeepsConsistent(db: Db, order: OrderRequests.OrderRequest, price: real)
    requires Consistent(db, order.symbol)
    requires ExecuteBuyOrder(db, order, price).1.BuyFilled?
    ensures Consistent(ExecuteBuyOrder(db, order, price).0, order.symbol)
  {
    var after := ExecuteBuyOrder(db, order, price).0;
    BuyLotsAppendBuy(db.trades, Trade(order.symbol, Buy, price, order.quantity as real, None), order.symbol);
    SumConcat(BuyLots(db.trades, order.symbol), [Lot(|db.trades|, order.quantity as real, price)], LotQuantity);
  }

  /** A filled sale keeps the holding equal to its lots: the holding
      covers the quantity, so the loop sells all of it. */
  lemma SellKeepsConsistent(db: Db, order: OrderRequests.OrderRequest, price: real)
    requires Consistent(db, order.symbol) && NonNegativeQuantities(db.trades)
    requires order.quantity > 0
    requires ExecuteSellOrder(db, order, price).1.SellFilled?
    ensures Consistent(ExecuteSellOrder(db, order, price).0, order.symbol)
  {
    var symbol := order.symbol;
    var q := order.quantity as real;
    var after := ExecuteSellOrder(db, order, price).0;
    var fifo := FifoSale(db.trades, symbol, q, price);
    FifoSoldAmount(db.trades, symbol, 0, q, price);
    FifoRemaining(db.trades, symbol, 0, q, price);
    var sale := Trade(symbol, Sell, price, q, Some(fifo.realized));
    BuyLotsAppend(fifo.trades, sale, symbol);
    assert after.trades == fifo.trades + [sale];
    assert LotsTotal(after.trades, symbol, 0) == db.holdings[symbol].quantity - q;
  }
  const SharesRequestedPrefix: string := SharesHead + RequestedLabel
  const SharesAvailableInfix: string := Separator + AvailableLabel

  /** The error text of an insufficient sale, defined when the available
      quantity prints as digits (the int 0, or a whole float below 1e16). */
  function InsufficientSharesMessage(requested: int, available: PyNumber): (m: Option<string>)
    ensures m.Some? <==> PyRepr(available).Some?
    ensures m.Some? ==> m.value == SharesRequestedPrefix + FormatInt(requested) + SharesAvailableInfix + PyRepr(available).value
  {
    match PyRepr(available)
    case None => None
    case Some(a) => Some(SharesRequestedPrefix + FormatInt(requested) + SharesAvailableInfix + a)
  }

  /** The `message` of a filled order; `priceText` is the two-decimal
      rendering of the price, which is not modelled. */
  function SideWord(side: OrderRequests.OrderSide): string {
    if side == OrderRequests.Buy then "buy" else "sell"
  }

  function FilledMessage(side: OrderRequests.OrderSide, quantity: int, symbol: string, priceText: string): string {
    var head := "Market " + SideWord(side) + " order " + "successful: ";
    head + FormatInt(quantity) + " shares of " + symbol + " at $" + priceText
  }
}
