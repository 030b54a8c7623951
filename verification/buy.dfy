/** `buy_stock` of `buy.py` as a transformer of the tables. The price comes
    from the cached `current_price` of the symbol, the funds check is made
    against the `cash` argument only, and the balance is never debited. */
module Buy {
  import opened Wrappers
  import opened Text
  import opened Tables

  datatype BuyOutcome =
    /** No `api_stock_information` row: 'Symbol not found...'. */
    | SymbolNotFound
    /** `cash` is below price times quantity: 'Insufficient Funds...'. */
    | InsufficientFunds
    /** The existing holding's truncated quantity plus the bought quantity
        is zero: the average divides by zero after the trade was committed,
        and the exception leaves `buy_stock`. */
    | DivisionByZero
    /** The trade and the holding were written. */
    | Bought(tradeId: nat)

  const BoughtMessage: string := "Transaction successful" + ". Your portfolio will be updated momentarily"

  function Message(outcome: BuyOutcome): (m: Option<string>)
    ensures outcome.DivisionByZero? <==> m.None?
  {
    match outcome
    case SymbolNotFound => Some("Symbol not found...")
    case InsufficientFunds => Some("Insufficient Funds...")
    case DivisionByZero => None
    case Bought(_) => Some(BoughtMessage)
  }

  /** The holding after buying `quantity` at `price`: a new holding at the
      fill price, or the existing one with its quantity first truncated to
      a whole number and the cost averaged over the new total. None when
      that total is zero. */
  function HoldingAfterBuy(existing: Option<Holding>, quantity: int, price: real): (r: Option<Holding>)
    ensures existing.None? ==> r == Some(Holding(quantity as real, price))
    ensures existing.Some? ==> (r.None? <==> Trunc(existing.value.quantity) + quantity == 0)
    ensures existing.Some? && r.Some? ==>
      && r.value.quantity == (Trunc(existing.value.quantity) + quantity) as real
      && r.value.quantity * r.value.averageCost ==
         Trunc(existing.value.quantity) as real * existing.value.averageCost + quantity as real * price
  {
    match existing
    case None => Some(Holding(quantity as real, price))
    case Some(h) =>
      var whole := Trunc(h.quantity);
      var newQuantity := whole + quantity;
      if newQuantity == 0 then None
      else
        var cost := whole as real * h.averageCost + quantity as real * price;
        var average := cost / newQuantity as real;
        assert average * newQuantity as real == cost;
        Some(Holding(newQuantity as real, average))
  }

  /** `buy_stock(request, database, cash)`. */
  function BuyStock(db: Db, symbol: string, quantity: int, cash: real): (r: (Db, BuyOutcome))
    ensures r.1.SymbolNotFound? <==> symbol !in db.prices
    ensures r.1.InsufficientFunds? <==> symbol in db.prices && cash < db.prices[symbol] * quantity as real
    ensures r.1.SymbolNotFound? || r.1.InsufficientFunds? ==> r.0 == db
    ensures !r.1.SymbolNotFound? && !r.1.InsufficientFunds? ==>
      && r.0.trades == db.trades + [Trade(symbol, Buy, db.prices[symbol], quantity as real, None)]
      && r.0.balance == db.balance && r.0.prices == db.prices && r.0.realizedLog == db.realizedLog
      && (forall s :: s != symbol ==> (s in r.0.holdings <==> s in db.holdings) && (s in r.0.holdings ==> r.0.holdings[s] == db.holdings[s]))
    ensures r.1.DivisionByZero? ==> r.0.holdings == db.holdings
    ensures r.1.Bought? ==>
      && r.1.tradeId == |db.trades|
      && symbol in r.0.holdings
      && Some(r.0.holdings[symbol]) == HoldingAfterBuy(Lookup(db.holdings, symbol), quantity, db.prices[symbol])
  {
    if symbol !in db.prices then (db, SymbolNotFound)
    else
      var price := db.prices[symbol];
      if cash < price * quantity as real then (db, InsufficientFunds)
      else
        var trades := db.trades + [Trade(symbol, Buy, price, quantity as real, None)];
        match HoldingAfterBuy(Lookup(db.holdings, symbol), quantity, price)
        case None => (db.(trades := trades), DivisionByZero)
        case Some(h) => (db.(trades := trades, holdings := db.holdings[symbol := h]), Bought(|db.trades|))
  }

  /** A buy adds exactly one lot, last, to the FIFO lots of the symbol:
      the trade's quantity at the cached price. */
  lemma BuyAddsOneLot(db: Db, symbol: string, quantity: int, cash: real)
    requires symbol in db.prices && cash >= db.prices[symbol] * quantity as real
    ensures BuyLots(BuyStock(db, symbol, quantity, cash).0.trades, symbol) ==
      BuyLots(db.trades, symbol) + [Lot(|db.trades|, quantity as real, db.prices[symbol])]
  {
    BuyLotsAppendBuy(db.trades, Trade(symbol, Buy, db.prices[symbol], quantity as real, None), symbol);
  }

  /** With a whole existing quantity the cost basis is conserved: the new
      quantity times the new average is the old cost plus the purchase. */
  lemma WholeHoldingConservesCost(existing: Holding, quantity: int, price: real)
    requires existing.quantity == existing.quantity.Floor as real
    requires HoldingAfterBuy(Some(existing), quantity, price).Some?
    ensures var h := HoldingAfterBuy(Some(existing), quantity, price).value;
      && h.quantity == existing.quantity + quantity as real
      && h.quantity * h.averageCost == existing.quantity * existing.averageCost + quantity as real * price
  {
    TruncOfWhole(existing.quantity);
    var h := HoldingAfterBuy(Some(existing), quantity, price).value;
    assert h.quantity == (Trunc(existing.quantity) + quantity) as real;
  }

  /** `int()` keeps a whole number as it is. */
  lemma TruncOfWhole(x: real)
    requires x == x.Floor as real
    ensures Trunc(x) as real == x
  {
    if x < 0.0 {
      assert (-x).Floor == -x.Floor;
    }
  }

  /** `int()` drops the fraction of a stored quantity: holding 2.5 shares at
      10 and buying 1 more at 10 leaves 3 shares, not 3.5. */
  lemma FractionalHoldingIsTruncated()
    ensures var db := Db([], map["X" := Holding(2.5, 10.0)], None, map["X" := 10.0], []);
      var r := BuyStock(db, "X", 1, 100.0);
      r.1.Bought? && r.0.holdings["X"] == Holding(3.0, 10.0)
  {
    assert Trunc(2.5) == 2;
  }

  /** Buying zero shares into a holding of less than one share divides by
      zero after the trade was recorded. */
  lemma ZeroBuyIntoFractionalHoldingFails()
    ensures var db := Db([], map["X" := Holding(0.5, 10.0)], None, map["X" := 10.0], []);
      var r := BuyStock(db, "X", 0, 0.0);
      && r.1.DivisionByZero?
      && |r.0.trades| == 1
      && r.0.holdings == db.holdings
  {
    assert Trunc(0.5) == 0;
  }
}
