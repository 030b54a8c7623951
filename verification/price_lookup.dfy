/** `get_current_price` and `cache_price_in_database` of `utils.py`: the
    API-first, database-fallback choice of a quote and the normalisation of
    an API quote before it is cached. The quote service, the database and
    the clock are inputs. */
module PriceLookup {
  import opened Wrappers
  import opened Text

  /** An Alpha Vantage "Global Quote": field name to text. */
  type Quote = map<string, string>

  const PriceKey: string := "05. price"

  /** What `get_quote` did: raised with a message, or returned a quote or
      None. */
  datatype ApiAttempt = ApiRaised(message: string) | ApiReturned(reply: Option<Quote>)

  /** A row of `api_stock_information`. Numeric columns hold their decimal
      value; `changePercent` holds the stored text. */
  datatype PriceRow = PriceRow(
    symbol: string,
    currentPrice: Option<real>,
    openPrice: Option<real>,
    highPrice: Option<real>,
    lowPrice: Option<real>,
    volume: Option<int>,
    previousClose: Option<real>,
    changeAmount: Option<real>,
    changePercent: Option<string>,
    latestTradingDay: Option<string>,
    updatedAt: Option<string>)

  /** What the fallback query did: no connection, raised, or fetched at most
      one row. */
  datatype DbAttempt = DbUnavailable | DbRaised(message: string) | DbFetched(row: Option<PriceRow>)

  /** The fallback reply, in both key styles. `compat` holds the API-style
      keys with text values; `latestTradingDay` is "07. latest trading
      day", which may be None. */
  datatype Fallback = Fallback(
    symbol: string,
    currentPrice: real,
    changeAmount: real,
    changePercent: string,
    volume: int,
    lastUpdated: Option<string>,
    compat: map<string, string>,
    latestTradingDay: Option<string>)

  datatype PriceReply =
    | FromApi(symbol: string, currentPrice: real, lastUpdated: string)
    | FromDatabase(fallback: Fallback)
    | PriceError(error: string)

  const InvalidApiResponse: string := "Invalid API response or missing price data"
  const NoCachedData: string := "No cached data found in database"
  const ConnectionFailed: string := "Database connection failed"
  const RateLimitError: string := "Rate limit exceeded" + " and no cached data found in database"

  const FloatErrorHead: string := "could not convert string to float: "

  /** The message `float(v)` raises for a text that is not a number: the
      text as `repr` shows it. */
  function FloatError(v: string): (m: string)
    ensures |m| >= |FloatErrorHead| + 2 && m[..|FloatErrorHead|] == FloatErrorHead
    ensures var r := m[|FloatErrorHead|..]; Unescape(r[1..|r| - 1]) == v
  {
    var r := PyStrRepr(v);
    var m := FloatErrorHead + r;
    assert m[|FloatErrorHead|..] == r;
    ReprRoundTrip(v);
    m
  }

  /** A price text holding a single quote is shown in double quotes. */
  lemma FloatErrorOfQuote()
    ensures FloatError("1'2") == FloatErrorHead + "\"1'2\""
  {
    assert ReprQuote("1'2") == '"';
    EscapePlain("1'2", '"');
  }

  /** The outcome of the API step: the price, or the API error text. */
  function ApiStep(api: ApiAttempt): (r: Result<real, string>)
    ensures r.Success? <==>
      api.ApiReturned? && api.reply.Some? && PriceKey in api.reply.value
      && PyFloatOf(api.reply.value[PriceKey]).Some?
    ensures r.Success? ==> r.value == PyFloatOf(api.reply.value[PriceKey]).value
  {
    match api
    case ApiRaised(m) => Failure(m)
    case ApiReturned(reply) =>
      // An empty dict is falsy, and then has no price key either.
      if reply.Some? && PriceKey in reply.value then
        match PyFloatOf(reply.value[PriceKey])
        case Some(p) => Success(p)
        case None => Failure(FloatError(reply.value[PriceKey]))
      else Failure(InvalidApiResponse)
  }

  /** The percent text of the fallback: the stored value followed by '%',
      or "0%" when it is NULL. */
  function PercentText(stored: Option<string>): (r: string)
    ensures |r| > 0 && r[|r| - 1] == '%'
    ensures stored.Some? ==> r[..|r| - 1] == stored.value
    ensures stored.None? ==> r == "0%"
  {
    if stored.Some? then stored.value + "%" else "0%"
  }

  /** `str(x) if x else "0"` for a numeric column; `render` is the text a
      column value prints as. */
  function TextOr0(x: Option<real>, render: real -> string): string {
    if x.Some? && x.value != 0.0 then render(x.value) else "0"
  }

  function IntTextOr0(x: Option<int>): string {
    if x.Some? && x.value != 0 then FormatInt(x.value) else "0"
  }

  /** The fallback reply built from a row with a truthy price. */
  function FallbackOf(row: PriceRow, render: real -> string): (f: Fallback)
    requires row.currentPrice.Some? && row.currentPrice.value != 0.0
    ensures "01. symbol" in f.compat && PriceKey in f.compat && "10. change percent" in f.compat
    ensures f.symbol == row.symbol && f.compat["01. symbol"] == row.symbol
    ensures f.currentPrice == row.currentPrice.value
    ensures f.compat[PriceKey] == render(row.currentPrice.value)
    ensures f.changePercent == f.compat["10. change percent"] == PercentText(row.changePercent)
    ensures f.changeAmount == row.changeAmount.GetOr(0.0)
    ensures f.volume == row.volume.GetOr(0)
    ensures f.lastUpdated == row.updatedAt && f.latestTradingDay == row.latestTradingDay
  {
    var percent := PercentText(row.changePercent);
    Fallback(
      row.symbol,
      row.currentPrice.value,
      if row.changeAmount.Some? then row.changeAmount.value else 0.0,
      percent,
      if row.volume.Some? then row.volume.value else 0,
      row.updatedAt,
      map[
        "01. symbol" := row.symbol,
        "02. open" := TextOr0(row.openPrice, render),
        "03. high" := TextOr0(row.highPrice, render),
        "04. low" := TextOr0(row.lowPrice, render),
        PriceKey := TextOr0(row.currentPrice, render),
        "06. volume" := IntTextOr0(row.volume),
        "08. previous close" := TextOr0(row.previousClose, render),
        "09. change" := TextOr0(row.changeAmount, render),
        "10. change percent" := percent],
      row.latestTradingDay)
  }

  /** `"rate limit" in api_error.lower() if api_error else False`. */
  predicate IsRateLimited(apiError: string) {
    apiError != "" && Contains(Lower(apiError), "rate limit")
  }

  /** The error when both sources failed. */
  function BothFailed(apiError: string, dbError: string): (r: string)
    ensures IsRateLimited(apiError) ==> r == RateLimitError
    ensures !IsRateLimited(apiError) ==>
      r == "Both API and database failed. API error: " + apiError + ". Database error: " + dbError
  {
    if IsRateLimited(apiError) then RateLimitError
    else "Both API and database failed. API error: " + apiError + ". Database error: " + dbError
  }

  /** `get_current_price`: the API price when the quote has a readable
      price, else the database row when it has a truthy price, else an
      error naming both failures. `now` is the clock's formatted time. */
  function CurrentPrice(symbol: string, api: ApiAttempt, db: DbAttempt, now: string, render: real -> string)
    : (r: PriceReply)
    ensures r.FromApi? <==> ApiStep(api).Success?
    ensures r.FromApi? ==> r.symbol == Upper(symbol) && r.currentPrice == ApiStep(api).value && r.lastUpdated == now
    ensures r.FromDatabase? <==>
      ApiStep(api).Failure? && db.DbFetched? && db.row.Some?
      && db.row.value.currentPrice.Some? && db.row.value.currentPrice.value != 0.0
    ensures r.FromDatabase? ==> r.fallback == FallbackOf(db.row.value, render)
    ensures r.PriceError? ==> (r.error == RateLimitError <==> IsRateLimited(ApiStep(api).error))
  {
    match ApiStep(api)
    case Success(price) => FromApi(Upper(symbol), price, now)
    case Failure(apiError) =>
      match db
      case DbUnavailable => PriceError(BothFailed(apiError, ConnectionFailed))
      case DbRaised(m) => PriceError(BothFailed(apiError, m))
      case DbFetched(row) =>
        if row.Some? && row.value.currentPrice.Some? && row.value.currentPrice.value != 0.0 then
          FromDatabase(FallbackOf(row.value, render))
        else PriceError(BothFailed(apiError, NoCachedData))
  }

  /** A row whose price is 0 is treated like a missing row. */
  lemma ZeroPriceIsNotCached(symbol: string, api: ApiAttempt, row: PriceRow, now: string, render: real -> string)
    requires ApiStep(api).Failure? && row.currentPrice == Some(0.0)
    ensures CurrentPrice(symbol, api, DbFetched(Some(row)), now, render)
         == CurrentPrice(symbol, api, DbFetched(None), now, render)
  {
  }

  /** The error-text branch: the fixed rate-limit text exactly when the
      API error mentions a rate limit in any letter case. */
  lemma RateLimitWording(apiError: string, dbError: string)
    ensures BothFailed(apiError, dbError) == RateLimitError <==> IsRateLimited(apiError)
  {
    if !IsRateLimited(apiError) {
      var head := "Both API and database failed. API error: ";
      assert BothFailed(apiError, dbError) == head + apiError + ". Database error: " + dbError;
      assert head[0] == 'B' && RateLimitError[0] == 'R';
      FirstCharDiffers(head, apiError + ". Database error: " + dbError, RateLimitError);
    }
  }

  lemma FirstCharDiffers(head: string, rest: string, other: string)
    requires |head| > 0 && |other| > 0 && head[0] != other[0]
    ensures head + rest != other
  {
    assert (head + rest)[0] == head[0];
  }

  // ---------------------------------------------------------------------------
  // Caching a quote

  /** The normalised values written by `cache_price_in_database`. */
  datatype CachedQuote = CachedQuote(
    currentPrice: real,
    openPrice: real,
    highPrice: real,
    lowPrice: real,
    previousClose: real,
    changeAmount: real,
    changePercent: string,
    volume: int,
    latestTradingDay: string)

  /** `float(quote.get(key, default))`: a present field must be a number. */
  function FloatField(q: Quote, key: string, default: real): (r: Option<real>)
    ensures key !in q ==> r == Some(default)
    ensures key in q ==> r == PyFloatOf(q[key])
  {
    if key in q then PyFloatOf(q[key]) else Some(default)
  }

  /** A field that is missing (and so takes its default) or reads as a
      number. */
  predicate FloatReadable(q: Quote, key: string) {
    key in q ==> PyFloatOf(q[key]).Some?
  }

  /** `int(quote.get('06. volume', 0))`. */
  function IntField(q: Quote, key: string): (r: Option<int>)
    ensures key !in q ==> r == Some(0)
    ensures key in q ==> r == PyIntOf(q[key])
  {
    if key in q then PyIntOf(q[key]) else Some(0)
  }

  /** The values cached for a quote, or None when a conversion raises (the
      function then returns False and writes nothing). `today` is the date
      used when the quote has no trading day. */
  function NormalizeQuote(q: Quote, today: string): (r: Option<CachedQuote>)
    ensures r.Some? <==>
      && FloatReadable(q, PriceKey) && FloatReadable(q, "02. open") && FloatReadable(q, "03. high")
      && FloatReadable(q, "04. low") && FloatReadable(q, "08. previous close") && FloatReadable(q, "09. change")
      && ("06. volume" in q ==> PyIntOf(q["06. volume"]).Some?)
    ensures r.Some? ==>
      var c := r.value;
      && Some(c.currentPrice) == FloatField(q, PriceKey, 0.0)
      && Some(c.openPrice) == FloatField(q, "02. open", c.currentPrice)
      && Some(c.highPrice) == FloatField(q, "03. high", c.currentPrice)
      && Some(c.lowPrice) == FloatField(q, "04. low", c.currentPrice)
      && Some(c.previousClose) == FloatField(q, "08. previous close", c.currentPrice)
      && Some(c.changeAmount) == FloatField(q, "09. change", 0.0)
      && Some(c.volume) == IntField(q, "06. volume")
    ensures r.Some? ==>
      && r.value.changePercent == RStrip(if "10. change percent" in q then q["10. change percent"] else "0%", '%')
      && r.value.latestTradingDay == (if "07. latest trading day" in q then q["07. latest trading day"] else today)
  {
    var price := FloatField(q, PriceKey, 0.0);
    if price.None? then None
    else
      var p := price.value;
      var open := FloatField(q, "02. open", p);
      var high := FloatField(q, "03. high", p);
      var low := FloatField(q, "04. low", p);
      var close := FloatField(q, "08. previous close", p);
      var change := FloatField(q, "09. change", 0.0);
      var volume := IntField(q, "06. volume");
      if open.None? || high.None? || low.None? || close.None? || change.None? || volume.None? then None
      else
        Some(CachedQuote(
          p, open.value, high.value, low.value, close.value, change.value,
          RStrip(if "10. change percent" in q then q["10. change percent"] else "0%", '%'),
          volume.value,
          if "07. latest trading day" in q then q["07. latest trading day"] else today))
  }

  /** A quote holding only its price is cached with open, high, low and
      previous close equal to the price, no change, no volume and "0"
      percent. */
  lemma PriceOnlyQuoteDefaults(priceText: string, today: string)
    requires PyFloatOf(priceText).Some?
    ensures var c := NormalizeQuote(map[PriceKey := priceText], today);
      var p := PyFloatOf(priceText).value;
      && c.Some?
      && c.value.currentPrice == c.value.openPrice == c.value.highPrice == c.value.lowPrice == c.value.previousClose == p
      && c.value.changeAmount == 0.0 && c.value.volume == 0
      && c.value.changePercent == "0" && c.value.latestTradingDay == today
  {
    var q := map[PriceKey := priceText];
    assert "10. change percent" !in q && "02. open" !in q && "03. high" !in q && "04. low" !in q;
    assert "08. previous close" !in q && "09. change" !in q && "06. volume" !in q && "07. latest trading day" !in q;
    assert RStrip("0%", '%') == "0" by {
      assert "0%"[..1] == "0";
    }
  }

  /** The row `cache_price_in_database` leaves behind. */
  function CachedRow(symbol: string, c: CachedQuote, updatedAt: string): PriceRow {
    PriceRow(symbol, Some(c.currentPrice), Some(c.openPrice), Some(c.highPrice), Some(c.lowPrice),
      Some(c.volume), Some(c.previousClose), Some(c.changeAmount), Some(c.changePercent),
      Some(c.latestTradingDay), Some(updatedAt))
  }

  /** Stripping at caching and appending at fallback give back a percent
      text ending in exactly one '%': the quote's own text when it already
      ended in exactly one. */
  lemma PercentRoundTrip(percent: string)
    ensures var back := PercentText(Some(RStrip(percent, '%')));
      && back[|back| - 1] == '%'
      && (|back| < 2 || back[|back| - 2] != '%')
    ensures |percent| > 0 && percent[|percent| - 1] == '%' && (|percent| < 2 || percent[|percent| - 2] != '%') ==>
      PercentText(Some(RStrip(percent, '%'))) == percent
  {
    var s := RStrip(percent, '%');
    var back := PercentText(Some(s));
    assert back[..|back| - 1] == s;
    if |percent| > 0 && percent[|percent| - 1] == '%' && (|percent| < 2 || percent[|percent| - 2] != '%') {
      var head := percent[..|percent| - 1];
      assert RStrip(percent, '%') == RStrip(head, '%');
      assert RStrip(head, '%') == head;
      assert head + "%" == percent;
    }
  }

  /** A quote cached while the API answered is what a later fallback
      serves: the same price and the same percent text. */
  lemma CacheThenFallback(symbol: string, q: Quote, today: string, updatedAt: string,
                          failed: ApiAttempt, now: string, render: real -> string)
    requires NormalizeQuote(q, today).Some? && NormalizeQuote(q, today).value.currentPrice != 0.0
    requires ApiStep(failed).Failure?
    ensures var c := NormalizeQuote(q, today).value;
      var r := CurrentPrice(symbol, failed, DbFetched(Some(CachedRow(Upper(symbol), c, updatedAt))), now, render);
      && r.FromDatabase?
      && r.fallback.currentPrice == c.currentPrice
      && r.fallback.symbol == Upper(symbol)
      && r.fallback.changePercent == RStrip(if "10. change percent" in q then q["10. change percent"] else "0%", '%') + "%"
  {
  }
}
