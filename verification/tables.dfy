/** The database tables the backend reads and writes, as immutable values.
    Rows of `trades` are kept in `trade_date` order, so a trade's position is
    its place in every `ORDER BY trade_date ASC` query and stands for its
    `trade_id`. */
module Tables {
  import opened Wrappers
  import opened Seqs

  datatype TradeType = Buy | Sell {
    /** The value stored in the `trade_type` column. */
    function Name(): string {
      match this
      case Buy => "BUY"
      case Sell => "SELL"
    }
  }

  /** One row of `trades`. */
  datatype Trade = Trade(
    symbol: string,
    kind: TradeType,
    price: real,
    quantity: real,
    realizedPnl: Option<real>)

  /** One row of `holdings`, keyed by symbol. */
  datatype Holding = Holding(quantity: real, averageCost: real)

  /** One row of `profit_and_loss` written by `record_realized_pnl`. */
  datatype RealizedRecord = RealizedRecord(symbol: string, tradeId: nat, realizedPnl: real)

  /** The tables of the single-user ledger. `balance` is the `cash_balance`
      of the `default_user` row of `user_balance` (None when that row is
      missing); `prices` is `current_price` of `api_stock_information`. */
  datatype Db = Db(
    trades: seq<Trade>,
    holdings: map<string, Holding>,
    balance: Option<real>,
    prices: map<string, real>,
    realizedLog: seq<RealizedRecord>)

  /** The holdings row of `symbol`, if there is one. */
  function Lookup(holdings: map<string, Holding>, symbol: string): (r: Option<Holding>)
    ensures r.Some? <==> symbol in holdings
    ensures r.Some? ==> r.value == holdings[symbol]
  {
    if symbol in holdings then Some(holdings[symbol]) else None
  }

  predicate IsBuyOf(t: Trade, symbol: string) {
    t.kind == Buy && t.symbol == symbol
  }

  predicate IsSellOf(t: Trade, symbol: string) {
    t.kind == Sell && t.symbol == symbol
  }

  /** A lot: the quantity and price of one BUY trade, with its trade id. */
  datatype Lot = Lot(tradeId: nat, quantity: real, price: real)

  /** The BUY trades of `symbol` from position `from` on, oldest first. */
  function BuyLotsFrom(trades: seq<Trade>, symbol: string, from: nat): (lots: seq<Lot>)
    requires from <= |trades|
    ensures forall k :: 0 <= k < |lots| ==>
      from <= lots[k].tradeId < |trades| && IsBuyOf(trades[lots[k].tradeId], symbol)
      && lots[k].quantity == trades[lots[k].tradeId].quantity
      && lots[k].price == trades[lots[k].tradeId].price
    ensures forall k, m :: 0 <= k < m < |lots| ==> lots[k].tradeId < lots[m].tradeId
    decreases |trades| - from
  {
    if from == |trades| then []
    else
      var t := trades[from];
      var rest := BuyLotsFrom(trades, symbol, from + 1);
      if IsBuyOf(t, symbol) then [Lot(from, t.quantity, t.price)] + rest else rest
  }

  /** `SELECT ... FROM trades WHERE stock_symbol = s AND trade_type = 'BUY'
      ORDER BY trade_date ASC`. */
  function BuyLots(trades: seq<Trade>, symbol: string): seq<Lot> {
    BuyLotsFrom(trades, symbol, 0)
  }

  function LotQuantity(l: Lot): real { l.quantity }

  function LotCost(l: Lot): real { l.quantity * l.price }

  function TradeQuantity(t: Trade): real { t.quantity }

  /** The total quantity of the SELL trades of `symbol`. */
  function TotalSold(trades: seq<Trade>, symbol: string): real {
    Sum(Filter(trades, t => IsSellOf(t, symbol)), TradeQuantity)
  }

  /** `after` is `before` with one more row, `row`, at the end. */
  predicate Appended<T(==)>(before: seq<T>, after: seq<T>, row: T) {
    |after| == |before| + 1 && after[..|before|] == before && after[|before|] == row
  }

  /** A credit of `amount` to the cash balance: a missing row stays missing,
      an existing one ends `amount` higher. */
  predicate CreditedBy(before: Option<real>, after: Option<real>, amount: real) {
    (after.Some? <==> before.Some?) && (before.Some? ==> after.value - before.value == amount)
  }

  /** Every holding but the one of `symbol` is as it was. */
  ghost predicate OthersUnchanged(before: map<string, Holding>, after: map<string, Holding>, symbol: string) {
    forall s :: s != symbol ==> Lookup(after, s) == Lookup(before, s)
  }

  /** The holding of `symbol` after `quantity` of its shares were sold: gone
      exactly when that leaves nothing, otherwise smaller by `quantity`; no
      row appears where there was none. */
  predicate ReducedBy(before: map<string, Holding>, after: map<string, Holding>, symbol: string, quantity: real) {
    && (symbol in after ==> symbol in before && after[symbol].quantity == before[symbol].quantity - quantity)
    && (symbol in before ==> (symbol in after <==> before[symbol].quantity - quantity > 0.0))
  }

  /** Every stored trade and holding has a non-negative quantity and price. */
  predicate WellFormed(db: Db) {
    && (forall i :: 0 <= i < |db.trades| ==> db.trades[i].quantity >= 0.0 && db.trades[i].price >= 0.0)
    && (forall s :: s in db.holdings ==> db.holdings[s].quantity >= 0.0)
  }

  lemma BuyLotsNonNegative(trades: seq<Trade>, symbol: string)
    requires forall i :: 0 <= i < |trades| ==> trades[i].quantity >= 0.0
    ensures forall k :: 0 <= k < |BuyLots(trades, symbol)| ==> BuyLots(trades, symbol)[k].quantity >= 0.0
  {
  }
  /** Appending a trade that is not a BUY of `symbol` leaves its lots as they
      were. */
  lemma {:induction false} BuyLotsFromAppend(trades: seq<Trade>, t: Trade, symbol: string, from: nat)
    requires from <= |trades| && !IsBuyOf(t, symbol)
    ensures BuyLotsFrom(trades + [t], symbol, from) == BuyLotsFrom(trades, symbol, from)
    decreases |trades| - from
  {
    var extended := trades + [t];
    if from < |trades| {
      assert extended[from] == trades[from];
      BuyLotsFromAppend(trades, t, symbol, from + 1);
    } else {
      assert BuyLotsFrom(extended, symbol, from + 1) == [];
    }
  }

  lemma BuyLotsAppend(trades: seq<Trade>, t: Trade, symbol: string)
    requires !IsBuyOf(t, symbol)
    ensures BuyLots(trades + [t], symbol) == BuyLots(trades, symbol)
  {
    BuyLotsFromAppend(trades, t, symbol, 0);
  }

  /** Appending a SELL of `symbol` adds its quantity to the total sold. */
  lemma TotalSoldAppend(trades: seq<Trade>, t: Trade, symbol: string)
    ensures TotalSold(trades + [t], symbol) ==
      TotalSold(trades, symbol) + (if IsSellOf(t, symbol) then t.quantity else 0.0)
  {
    var p := (x: Trade) => IsSellOf(x, symbol);
    FilterConcat(trades, [t], p);
    SumConcat(Filter(trades, p), Filter([t], p), TradeQuantity);
    assert Filter([t], p) == if p(t) then [t] else [];
  }
  /** Appending a BUY of `symbol` adds one lot, last, under the new trade's
      position. */
  lemma {:induction false} BuyLotsFromAppendBuy(trades: seq<Trade>, t: Trade, symbol: string, from: nat)
    requires from <= |trades| && IsBuyOf(t, symbol)
    ensures BuyLotsFrom(trades + [t], symbol, from) ==
      BuyLotsFrom(trades, symbol, from) + [Lot(|trades|, t.quantity, t.price)]
    decreases |trades| - from
  {
    var extended := trades + [t];
    if from < |trades| {
      assert extended[from] == trades[from];
      BuyLotsFromAppendBuy(trades, t, symbol, from + 1);
    } else {
      assert BuyLotsFrom(extended, symbol, from + 1) == [];
    }
  }

  lemma BuyLotsAppendBuy(trades: seq<Trade>, t: Trade, symbol: string)
    requires IsBuyOf(t, symbol)
    ensures BuyLots(trades + [t], symbol) == BuyLots(trades, symbol) + [Lot(|trades|, t.quantity, t.price)]
  {
    BuyLotsFromAppendBuy(trades, t, symbol, 0);
  }
  /** The lots from position `from` on depend only on the trades there. */
  lemma {:induction false} BuyLotsFromUpdateBefore(trades: seq<Trade>, i: nat, t: Trade, symbol: string, from: nat)
    requires i < from <= |trades|
    ensures BuyLotsFrom(trades[i := t], symbol, from) == BuyLotsFrom(trades, symbol, from)
    decreases |trades| - from
  {
    if from < |trades| {
      BuyLotsFromUpdateBefore(trades, i, t, symbol, from + 1);
    }
  }

  // ---------------------------------------------------------------------------
  // The "Insufficient shares" wording, shared by `sell.py` and
  // `order_manager.py` (which put the two numbers in opposite orders)

  const SharesHead: string := "Insufficient shares. "
  const AvailableLabel: string := "Available: "
  const RequestedLabel: string := "Requested: "
  const Separator: string := ", "
}
