/** The order records of `order_request.py`: the three enumerations, the
    validated `OrderRequest` and `create_market_order`. */
module OrderRequests {
  import opened Wrappers
  import opened Text

  datatype OrderType = Market {
    /** The enum member's `.value`. */
    function Value(): string { "MARKET" }
  }

  datatype OrderSide = Buy | Sell {
    function Value(): string {
      match this
      case Buy => "BUY"
      case Sell => "SELL"
    }
  }

  datatype OrderStatus = Pending | Filled | Cancelled | Expired {
    function Value(): string {
      match this
      case Pending => "PENDING"
      case Filled => "FILLED"
      case Cancelled => "CANCELLED"
      case Expired => "EXPIRED"
    }
  }

  /** `OrderType(value)`, `OrderSide(value)` and `OrderStatus(value)`: the
      member whose value is the given string, if any. */
  function OrderTypeOf(v: string): (r: Option<OrderType>)
    ensures r.Some? ==> r.value.Value() == v
  {
    if v == "MARKET" then Some(Market) else None
  }

  function OrderSideOf(v: string): (r: Option<OrderSide>)
    ensures r.Some? ==> r.value.Value() == v
  {
    if v == "BUY" then Some(Buy) else if v == "SELL" then Some(Sell) else None
  }

  function OrderStatusOf(v: string): (r: Option<OrderStatus>)
    ensures r.Some? ==> r.value.Value() == v
  {
    if v == "PENDING" then Some(Pending)
    else if v == "FILLED" then Some(Filled)
    else if v == "CANCELLED" then Some(Cancelled)
    else if v == "EXPIRED" then Some(Expired)
    else None
  }

  /** Every member is found again from its value, so values are distinct. */
  lemma EnumValuesRoundTrip(t: OrderType, side: OrderSide, status: OrderStatus)
    ensures OrderTypeOf(t.Value()) == Some(t)
    ensures OrderSideOf(side.Value()) == Some(side)
    ensures OrderStatusOf(status.Value()) == Some(status)
  {
  }

  datatype OrderRequest = OrderRequest(
    symbol: string,
    side: OrderSide,
    quantity: int,
    orderType: OrderType,
    userId: string)

  const DefaultUserId: string := "default_user"

  const QuantityError: string := "Quantity must be positive"

  /** The dataclass constructor followed by `__post_init__`: the symbol is
      upper-cased and a quantity that is not positive raises
      `ValueError("Quantity must be positive")`. */
  function NewOrderRequest(symbol: string, side: OrderSide, quantity: int, orderType: OrderType, userId: string)
    : (r: Result<OrderRequest, string>)
    ensures r.Success? <==> quantity > 0
    ensures r.Failure? ==> r.error == QuantityError
    ensures r.Success? ==>
      && |r.value.symbol| == |symbol| && IsUpper(r.value.symbol)
      && (forall i :: 0 <= i < |symbol| ==> r.value.symbol[i] == UpperChar(symbol[i]))
      && r.value.side == side && r.value.quantity == quantity
      && r.value.orderType == orderType && r.value.userId == userId
  {
    UpperIsUpper(symbol);
    if quantity <= 0 then Failure(QuantityError)
    else Success(OrderRequest(Upper(symbol), side, quantity, orderType, userId))
  }

  /** `OrderRequest(symbol, side, quantity)` with the declared defaults. */
  function NewOrderRequestWithDefaults(symbol: string, side: OrderSide, quantity: int)
    : (r: Result<OrderRequest, string>)
    ensures r.Success? <==> quantity > 0
    ensures r.Success? ==> r.value.orderType == Market && r.value.userId == DefaultUserId
  {
    NewOrderRequest(symbol, side, quantity, Market, DefaultUserId)
  }

  /** Building a request again from an accepted request's fields gives the
      same request: upper-casing is idempotent. */
  lemma RenormalizeIsIdentity(symbol: string, side: OrderSide, quantity: int, orderType: OrderType, userId: string)
    requires NewOrderRequest(symbol, side, quantity, orderType, userId).Success?
    ensures var o := NewOrderRequest(symbol, side, quantity, orderType, userId).value;
      NewOrderRequest(o.symbol, o.side, o.quantity, o.orderType, o.userId) == Success(o)
  {
    UpperIdempotent(symbol);
  }

  /** A field of the dictionary `to_dict` returns. */
  datatype Field = Text(text: string) | Whole(whole: int)

  /** `to_dict`: the user, the symbol under `stock_symbol`, the enum values
      and the quantity. */
  function ToDict(o: OrderRequest): (d: map<string, Field>)
    ensures d.Keys == {"user_id", "stock_symbol", "order_type", "side", "quantity"}
    ensures d["user_id"] == Text(o.userId) && d["stock_symbol"] == Text(o.symbol)
    ensures d["order_type"] == Text(o.orderType.Value()) && d["side"] == Text(o.side.Value())
    ensures d["quantity"] == Whole(o.quantity)
  {
    map[
      "user_id" := Text(o.userId),
      "stock_symbol" := Text(o.symbol),
      "order_type" := Text(o.orderType.Value()),
      "side" := Text(o.side.Value()),
      "quantity" := Whole(o.quantity)]
  }

  /** Reads a stored order back from its dictionary. */
  function FromDict(d: map<string, Field>): Option<OrderRequest> {
    if && "user_id" in d && d["user_id"].Text?
       && "stock_symbol" in d && d["stock_symbol"].Text?
       && "order_type" in d && d["order_type"].Text?
       && "side" in d && d["side"].Text?
       && "quantity" in d && d["quantity"].Whole?
    then
      var t := OrderTypeOf(d["order_type"].text);
      var side := OrderSideOf(d["side"].text);
      if t.Some? && side.Some? then
        Some(OrderRequest(d["stock_symbol"].text, side.value, d["quantity"].whole, t.value, d["user_id"].text))
      else None
    else None
  }

  /** `to_dict` loses nothing. */
  lemma DictRoundTrip(o: OrderRequest)
    ensures FromDict(ToDict(o)) == Some(o)
  {
    EnumValuesRoundTrip(o.orderType, o.side, Pending);
  }

  /** `create_market_order`: always a market order, every other field passed
      through to the validating constructor. */
  function CreateMarketOrder(symbol: string, side: OrderSide, quantity: int, userId: string)
    : (r: Result<OrderRequest, string>)
    ensures r.Success? <==> quantity > 0
    ensures r.Failure? ==> r.error == QuantityError
    ensures r.Success? ==>
      && r.value.orderType == Market && r.value.side == side
      && r.value.quantity == quantity && r.value.userId == userId
      && r.value.symbol == Upper(symbol)
  {
    NewOrderRequest(symbol, side, quantity, Market, userId)
  }
}
