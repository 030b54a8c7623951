/** The order form of `EnhancedTrading.jsx`: the order-type table, the
    validation of `handlePlaceOrder`, the order it would submit,
    `calculateOrderValue`, and the state `handleStockSelect` leaves after
    the quote and holdings requests settle. */
module EnhancedTrading {
  import opened Wrappers
  import opened Text
  import Js

  datatype OrderKind = Market | Limit | Stop | StopLimit {
    /** The key of `orderTypes`. */
    function Key(): string {
      match this
      case Market => "market"
      case Limit => "limit"
      case Stop => "stop"
      case StopLimit => "stop_limit"
    }
  }

  datatype PriceField = PriceF | StopPriceF | LimitPriceF

  /** `orderTypes[kind].fields`. */
  function Fields(kind: OrderKind): (fs: seq<PriceField>)
    ensures kind == Market <==> |fs| == 0
  {
    match kind
    case Market => []
    case Limit => [PriceF]
    case Stop => [StopPriceF]
    case StopLimit => [StopPriceF, LimitPriceF]
  }

  /** The fields of a quote reply the form reads. */
  datatype Quote = Quote(apiPrice: Js.Value, currentPrice: Js.Value)

  /** `parseFloat(q['05. price'] || q.current_price || 0)`. */
  function QuotePrice(q: Quote): Js.Number {
    Js.ParseFloat(Js.Or(Js.Or(q.apiPrice, q.currentPrice), Js.N(Js.Num(0.0))))
  }

  /** The component state the handlers read. The price fields are the
      texts of the inputs. */
  datatype Form = Form(
    selected: string,
    quote: Option<Quote>,
    holding: Option<Js.Number>,
    side: string,
    kind: OrderKind,
    quantity: int,
    price: string,
    stopPrice: string,
    limitPrice: string,
    cash: Js.Number)

  /** The quantity input: `parseInt(text) || 1`, never 0 or NaN. */
  function QuantityFromInput(text: string): (q: int)
    ensures q != 0
    ensures Js.ParseIntString(text).Num? && Js.ParseIntString(text).value != 0.0 ==>
      q as real == Js.ParseIntString(text).value
    ensures !(Js.ParseIntString(text).Num? && Js.ParseIntString(text).value != 0.0) ==> q == 1
  {
    var n := Js.ParseIntString(text);
    if n.Num? && n.value != 0.0 then n.value.Floor else 1
  }

  datatype Rejection =
    | NoStockOrQuantity
    | PriceRequired
    | StopPriceRequired
    | LimitPriceRequired
    | InsufficientCash
    | CannotSell(quantity: int, owned: Js.Number)

  /** The order `handlePlaceOrder` hands to the API: empty price texts
      become null, others are parsed. */
  datatype OrderData = OrderData(
    symbol: string,
    side: string,
    quantity: int,
    kind: OrderKind,
    price: Option<Js.Number>,
    stopPrice: Option<Js.Number>,
    limitPrice: Option<Js.Number>)

  datatype Verdict = Rejected(reason: Rejection) | Submit(order: OrderData)

  function FieldText(f: Form, field: PriceField): string {
    match field
    case PriceF => f.price
    case StopPriceF => f.stopPrice
    case LimitPriceF => f.limitPrice
  }

  function MissingReason(field: PriceField): Rejection {
    match field
    case PriceF => PriceRequired
    case StopPriceF => StopPriceRequired
    case LimitPriceF => LimitPriceRequired
  }

  /** The loop over the required fields: the first empty one is reported. */
  function FirstMissing(f: Form, fields: seq<PriceField>): (r: Option<Rejection>)
    ensures r.None? <==> forall i :: 0 <= i < |fields| ==> FieldText(f, fields[i]) != ""
    ensures r.Some? ==> exists i :: (0 <= i < |fields| && FieldText(f, fields[i]) == ""
      && r.value == MissingReason(fields[i])
      && forall j :: 0 <= j < i ==> FieldText(f, fields[j]) != "")
    decreases |fields|
  {
    if |fields| == 0 then None
    else if FieldText(f, fields[0]) == "" then Some(MissingReason(fields[0]))
    else
      var r := FirstMissing(f, fields[1..]);
      assert r.Some? ==> exists i :: (0 <= i < |fields| && FieldText(f, fields[i]) == ""
        && r.value == MissingReason(fields[i])
        && forall j :: 0 <= j < i ==> FieldText(f, fields[j]) != "") by {
        if r.Some? {
          var i :| 0 <= i < |fields[1..]| && FieldText(f, fields[1..][i]) == ""
            && r.value == MissingReason(fields[1..][i])
            && forall j :: 0 <= j < i ==> FieldText(f, fields[1..][j]) != "";
          assert FieldText(f, fields[i + 1]) == "";
        }
      }
      r
  }

  /** `price ? parseFloat(price) : null`. */
  function OptionalPrice(text: string): (r: Option<Js.Number>)
    ensures text == "" <==> r.None?
    ensures r.Some? ==> r.value == Js.ParseFloatString(text)
  {
    if text != "" then Some(Js.ParseFloatString(text)) else None
  }

  predicate NeedsCashCheck(f: Form) {
    f.kind == Market && f.side == "buy"
  }

  /** The market-buy cash rule: price × quantity above the available cash. */
  predicate OverCash(f: Form)
    requires f.quote.Some?
  {
    Js.Less(f.cash, Js.Mul(QuotePrice(f.quote.value), Js.Num(f.quantity as real)))
  }

  /** The sell rule; it applies only once a holding is known. */
  predicate OverHolding(f: Form) {
    f.side == "sell" && f.holding.Some? && Js.Less(f.holding.value, Js.Num(f.quantity as real))
  }

  /** `handlePlaceOrder` up to the API call: the rules in their order, the
      first failure reported, and the order built only when all pass. */
  function PlaceOrder(f: Form): (v: Verdict)
    ensures v.Submit? ==>
      && f.selected != "" && f.quote.Some? && f.quantity > 0
      && FirstMissing(f, Fields(f.kind)).None?
      && !(NeedsCashCheck(f) && OverCash(f))
      && !OverHolding(f)
    ensures v.Submit? ==> v.order == OrderData(f.selected, f.side, f.quantity, f.kind,
      OptionalPrice(f.price), OptionalPrice(f.stopPrice), OptionalPrice(f.limitPrice))
    ensures f.selected == "" || f.quote.None? || f.quantity <= 0 ==> v == Rejected(NoStockOrQuantity)
    ensures f.selected != "" && f.quote.Some? && f.quantity > 0 ==>
      && (FirstMissing(f, Fields(f.kind)).Some? ==> v == Rejected(FirstMissing(f, Fields(f.kind)).value))
      && (FirstMissing(f, Fields(f.kind)).None? && NeedsCashCheck(f) && OverCash(f) ==> v == Rejected(InsufficientCash))
      && (FirstMissing(f, Fields(f.kind)).None? && !(NeedsCashCheck(f) && OverCash(f)) && OverHolding(f) ==>
            v == Rejected(CannotSell(f.quantity, f.holding.value)))
  {
    if f.selected == "" || f.quote.None? || f.quantity <= 0 then Rejected(NoStockOrQuantity)
    else
      match FirstMissing(f, Fields(f.kind))
      case Some(reason) => Rejected(reason)
      case None =>
        if NeedsCashCheck(f) && OverCash(f) then Rejected(InsufficientCash)
        else if OverHolding(f) then Rejected(CannotSell(f.quantity, f.holding.value))
        else Submit(OrderData(f.selected, f.side, f.quantity, f.kind,
          OptionalPrice(f.price), OptionalPrice(f.stopPrice), OptionalPrice(f.limitPrice)))
  }

  /** Every rule that passes lets the order through: the rules are also
      sufficient. */
  lemma PlaceOrderSubmitsWhenValid(f: Form)
    requires f.selected != "" && f.quote.Some? && f.quantity > 0
    requires FirstMissing(f, Fields(f.kind)).None?
    requires !(NeedsCashCheck(f) && OverCash(f)) && !OverHolding(f)
    ensures PlaceOrder(f).Submit?
  {
  }

  /** The cash balance matters only to a market buy. */
  lemma OnlyMarketBuysCheckCash(f: Form, cash: Js.Number)
    requires !NeedsCashCheck(f)
    ensures PlaceOrder(f) == PlaceOrder(f.(cash := cash))
  {
    assert FirstMissing(f, Fields(f.kind)) == FirstMissing(f.(cash := cash), Fields(f.kind)) by {
      FirstMissingIgnoresCash(f, cash, Fields(f.kind));
    }
  }

  lemma {:induction false} FirstMissingIgnoresCash(f: Form, cash: Js.Number, fields: seq<PriceField>)
    ensures FirstMissing(f, fields) == FirstMissing(f.(cash := cash), fields)
    decreases |fields|
  {
    if |fields| > 0 {
      FirstMissingIgnoresCash(f, cash, fields[1..]);
    }
  }

  /** A stop-limit order missing both prices reports the stop price. */
  lemma StopLimitReportsStopFirst(f: Form)
    requires f.selected != "" && f.quote.Some? && f.quantity > 0
    requires f.kind == StopLimit && f.stopPrice == "" && f.limitPrice == ""
    ensures PlaceOrder(f) == Rejected(StopPriceRequired)
  {
  }

  /** `calculateOrderValue`. */
  function OrderValue(f: Form): (v: Js.Number)
    ensures f.quote.None? || f.quantity <= 0 ==> v == Js.Num(0.0)
    ensures f.quote.Some? && f.quantity > 0 && f.kind == Limit && f.price != "" ==>
      v == Js.Mul(Js.ParseFloatString(f.price), Js.Num(f.quantity as real))
    ensures f.quote.Some? && f.quantity > 0 && f.kind == StopLimit && f.limitPrice != "" ==>
      v == Js.Mul(Js.ParseFloatString(f.limitPrice), Js.Num(f.quantity as real))
    ensures f.quote.Some? && f.quantity > 0 && !(f.kind == Limit && f.price != "") && !(f.kind == StopLimit && f.limitPrice != "") ==>
      v == Js.Mul(QuotePrice(f.quote.value), Js.Num(f.quantity as real))
  {
    if f.quote.None? || f.quantity <= 0 then Js.Num(0.0)
    else
      var orderPrice :=
        if f.kind == Limit && f.price != "" then Js.ParseFloatString(f.price)
        else if f.kind == StopLimit && f.limitPrice != "" then Js.ParseFloatString(f.limitPrice)
        else QuotePrice(f.quote.value);
      Js.Mul(orderPrice, Js.Num(f.quantity as real))
  }

  /** A submitted market buy never costs more than the cash shown, by the
      same value the form displays. */
  lemma SubmittedMarketBuyIsCovered(f: Form)
    requires PlaceOrder(f).Submit? && NeedsCashCheck(f)
    requires f.cash.Num? && QuotePrice(f.quote.value).Num?
    ensures OrderValue(f).Num? && OrderValue(f).value <= f.cash.value
  {
  }

  // ---------------------------------------------------------------------------
  // Selecting a stock

  /** A row of the portfolio reply; `quantity` as the JSON gave it. */
  datatype HoldingRow = HoldingRow(quantity: Js.Value)

  /** `handleStockSelect` once both requests settled. A rejected quote
      request keeps the previous quote and prices; a fulfilled one replaces
      the quote and fills the three price inputs with `toFixed2` of the
      price when it is positive. The holding is the first row's quantity,
      or 0 when the holdings request failed or returned no rows. */
  function SelectStock(f: Form, symbol: string, quote: Option<Quote>, holdings: Option<seq<HoldingRow>>,
                       toFixed2: real -> string): (g: Form)
    ensures g.selected == symbol
    ensures quote.None? ==> g.quote == f.quote && g.price == f.price && g.stopPrice == f.stopPrice && g.limitPrice == f.limitPrice
    ensures quote.Some? ==> g.quote == quote
    ensures quote.Some? ==>
      var p := QuotePrice(quote.value);
      if p.Num? && p.value > 0.0 then g.price == g.stopPrice == g.limitPrice == toFixed2(p.value)
      else g.price == f.price && g.stopPrice == f.stopPrice && g.limitPrice == f.limitPrice
    ensures holdings.None? || holdings == Some([]) ==> g.holding == Some(Js.Num(0.0))
    ensures holdings.Some? && |holdings.value| > 0 ==>
      g.holding == Some(Js.ParseFloat(Js.Or(holdings.value[0].quantity, Js.N(Js.Num(0.0)))))
    ensures g.side == f.side && g.kind == f.kind && g.quantity == f.quantity && g.cash == f.cash
  {
    var f1 := f.(selected := symbol);
    var f2 :=
      if quote.None? then f1
      else
        var p := QuotePrice(quote.value);
        if p.Num? && p.value > 0.0 then
          var t := toFixed2(p.value);
          f1.(quote := quote, price := t, stopPrice := t, limitPrice := t)
        else f1.(quote := quote);
    var held :=
      if holdings.Some? && |holdings.value| > 0 then Js.ParseFloat(Js.Or(holdings.value[0].quantity, Js.N(Js.Num(0.0))))
      else Js.Num(0.0);
    f2.(holding := Some(held))
  }

  /** With no holding of the selected stock, any sell of a valid quantity
      is refused by the holding rule. */
  lemma NoHoldingRefusesSells(f: Form, symbol: string, quote: Quote, toFixed2: real -> string)
    requires symbol != "" && f.side == "sell" && f.quantity > 0
    ensures var g := SelectStock(f, symbol, Some(quote), Some([]), toFixed2);
      && PlaceOrder(g).Rejected?
      && (FirstMissing(g, Fields(g.kind)).None? ==> PlaceOrder(g) == Rejected(CannotSell(f.quantity, Js.Num(0.0))))
  {
  }

  // ---------------------------------------------------------------------------
  // Messages

  function RejectionMessage(r: Rejection): (m: Option<string>)
    ensures !r.CannotSell? ==> m.Some?
  {
    match r
    case NoStockOrQuantity => Some("Please select a stock and enter a valid quantity")
    case PriceRequired => Some("Price is required for limit orders")
    case StopPriceRequired => Some("Stop price is required for stop orders")
    case LimitPriceRequired => Some("Limit price is required for stop-limit orders")
    case InsufficientCash => Some("Insufficient cash for this trade")
    case CannotSell(q, owned) =>
      match Js.NumberText(owned)
      case Some(t) => Some("Cannot sell " + FormatInt(q) + " shares. You only own " + t + " shares.")
      case None => None
  }
}
