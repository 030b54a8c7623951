/** The client's HTTP layer in `apiService.js`: the response interceptor
    that turns a failed request into the message the components display,
    and the bodies and query parameters of the requests. */
module ApiService {
  import opened Wrappers
  import opened Text
  import Js

  /** The `error` field of a JSON error body; None when the body or the
      field is missing. */
  type BodyError = Option<string>

  datatype ErrorResponse = ErrorResponse(status: int, error: BodyError)

  /** A failed request: axios' error code and the response, if any came. */
  datatype HttpFailure = HttpFailure(code: Option<string>, response: Option<ErrorResponse>)

  const TimeoutMessage: string := "Request timeout - please try again"
  const NetworkMessage: string := "Network error - please check your connection"
  const NotFoundMessage: string := "Stock symbol not found"
  const RateLimitMessage: string := "Rate limit exceeded - please wait a moment"
  const ServerMessage: string := "Server error - please try again later"

  /** `data?.error || fallback`. */
  function ErrorOr(error: BodyError, fallback: string): (r: string)
    ensures error.Some? && error.value != "" ==> r == error.value
    ensures error.None? || error.value == "" ==> r == fallback
  {
    if error.Some? && error.value != "" then error.value else fallback
  }

  function StatusMessage(status: int): string {
    "Request failed with status " + FormatInt(status)
  }

  /** The message of the Error the interceptor throws. */
  function ErrorMessage(f: HttpFailure): (m: string)
    ensures f.code == Some("ECONNABORTED") ==> m == TimeoutMessage
    ensures f.code != Some("ECONNABORTED") && f.response.None? ==> m == NetworkMessage
    ensures f.code != Some("ECONNABORTED") && f.response.Some? ==>
      var r := f.response.value;
      && (r.status == 404 ==> m == ErrorOr(r.error, NotFoundMessage))
      && (r.status == 429 ==> m == RateLimitMessage)
      && (r.status == 500 ==> m == ErrorOr(r.error, ServerMessage))
      && (r.status !in {404, 429, 500} ==> m == ErrorOr(r.error, StatusMessage(r.status)))
  {
    if f.code == Some("ECONNABORTED") then TimeoutMessage
    else if f.response.None? then NetworkMessage
    else
      var r := f.response.value;
      match r.status
      case 404 => ErrorOr(r.error, NotFoundMessage)
      case 429 => RateLimitMessage
      case 500 => ErrorOr(r.error, ServerMessage)
      case _ => ErrorOr(r.error, StatusMessage(r.status))
  }

  /** The server's own error text reaches the user unchanged, except on a
      timeout and on 429. */
  lemma ServerErrorPassesThrough(f: HttpFailure, e: string)
    requires f.code != Some("ECONNABORTED") && f.response.Some?
    requires f.response.value.error == Some(e) && e != ""
    ensures ErrorMessage(f) == e <==> f.response.value.status != 429 || e == RateLimitMessage
  {
  }

  /** Without a body error, every status has its own text: the fixed ones
      for 404, 429 and 500, and the status number otherwise, so two
      unlisted statuses never read alike. */
  lemma StatusTextsDistinct(a: int, b: int)
    requires a !in {404, 429, 500} && b !in {404, 429, 500} && a != b
    ensures ErrorMessage(HttpFailure(None, Some(ErrorResponse(a, None))))
         != ErrorMessage(HttpFailure(None, Some(ErrorResponse(b, None))))
  {
    var prefix := "Request failed with status ";
    FormatIntInjective(a, b);
    assert StatusMessage(a)[|prefix|..] == FormatInt(a);
    assert StatusMessage(b)[|prefix|..] == FormatInt(b);
  }

  lemma FormatIntInjective(a: int, b: int)
    requires a != b
    ensures FormatInt(a) != FormatInt(b)
  {
    ParseFormatInt(a, "");
    ParseFormatInt(b, "");
    assert FormatInt(a) + "" == FormatInt(a);
    assert FormatInt(b) + "" == FormatInt(b);
  }

  // ---------------------------------------------------------------------------
  // The methods of the service object

  /** The methods `apiService` defines. A component that calls any other
      name calls `undefined`, which throws a TypeError before the request
      is made. */
  const Methods: set<string> := {
    "testConnection", "getStockQuote", "getStockQuoteFromDb", "getStockOverview",
    "getIntradayData", "getDailyData", "getNews", "getEarnings", "getPortfolio",
    "getTrades", "getBalance", "getPerformance", "buyStock", "sellStock", "getHoldingsInfo"}

  predicate Defines(name: string) {
    name in Methods
  }

  /** The cash form and the search box call methods the service lacks. */
  lemma MissingMethods()
    ensures !Defines("depositCash") && !Defines("withdrawCash") && !Defines("searchStocks")
    ensures !Defines("placeOrder") && !Defines("getPendingOrders") && !Defines("cancelOrder")
  {
  }

  // ---------------------------------------------------------------------------
  // Requests

  /** The JSON body of `buyStock` / `sellStock` (`cash` is absent for a
      sell). */
  datatype TradeBody = TradeBody(symbol: string, quantity: Js.Number, cash: Option<Js.Value>, userId: string)

  const DefaultUserId: string := "default_user"

  function BuyBody(symbol: string, quantity: Js.Value, cash: Js.Value, userId: string): (b: TradeBody)
    ensures b.symbol == Upper(symbol) && b.quantity == Js.ParseInt(quantity)
    ensures b.cash == Some(cash) && b.userId == userId
  {
    TradeBody(Upper(symbol), Js.ParseInt(quantity), Some(cash), userId)
  }

  function SellBody(symbol: string, quantity: Js.Value, userId: string): (b: TradeBody)
    ensures b.symbol == Upper(symbol) && b.quantity == Js.ParseInt(quantity)
    ensures b.cash.None? && b.userId == userId
  {
    TradeBody(Upper(symbol), Js.ParseInt(quantity), None, userId)
  }

  /** A quantity typed as a whole number reaches the server as that number,
      and the symbol as the upper-case symbol the backend normalises to. */
  lemma TypedQuantityIsSent(symbol: string, n: nat, userId: string)
    ensures SellBody(symbol, Js.Str(FormatNat(n)), userId).quantity == Js.Num(n as real)
    ensures IsUpper(SellBody(symbol, Js.Str(FormatNat(n)), userId).symbol)
  {
    Js.ParseIntFormatNat(n);
    UpperIsUpper(symbol);
  }

  /** Query parameters. */
  type Params = map<string, Js.Value>

  /** `getPortfolio`: `symbol` only when it is truthy. */
  function PortfolioParams(symbol: Js.Value): (p: Params)
    ensures Js.Truthy(symbol) ==> p == map["symbol" := symbol]
    ensures !Js.Truthy(symbol) ==> p == map[]
  {
    if Js.Truthy(symbol) then map["symbol" := symbol] else map[]
  }

  /** `getTrades`: always `limit`, and `symbol` when it is truthy. */
  function TradesParams(symbol: Js.Value, limit: Js.Value): (p: Params)
    ensures "limit" in p && p["limit"] == limit
    ensures "symbol" in p <==> Js.Truthy(symbol)
    ensures "symbol" in p ==> p["symbol"] == symbol
    ensures p.Keys <= {"limit", "symbol"}
  {
    var p := map["limit" := limit];
    if Js.Truthy(symbol) then p["symbol" := symbol] else p
  }
}
