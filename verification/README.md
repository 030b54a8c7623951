# Portfolio manager: a Dafny model of the trading core

This project models the core of a small stock-trading application. It has a
Python backend (MySQL tables `trades`, `holdings`, `user_balance` and
`api_stock_information`) and a React frontend. The model covers:

- **Position ledger.** BUY lots, first-in-first-out selling, average cost and
  cash. This includes both trade paths: `buy.py`/`sell.py` and `OrderManager`.
- **Reports.** Profit-and-loss and portfolio aggregation on the backend, and the
  totals, charts and percentages the Portfolio and Dashboard pages compute.
- **Requests and normalisation.** The request records and their normalisers,
  the price lookup with its database fallback, the API-key configuration, and
  company search with its ranking.
- **Client logic.** The pure decisions each page makes before it talks to the
  server: trade and order validation, the error-message rewriting of the
  Trading page, the search dropdown's keyboard state, the chart data of the
  stock page, and the cash-form guards.

## How the model is built

- **Database.** The database is an immutable value (`Tables.Db`):
  - `trades` is a sequence in trade-date order, and a trade's index is its id.
  - `holdings` is a map from symbol to quantity and average cost.
  - The cash balance is an `Option` (no row is `None`).
  - `prices` holds the `current_price` column.
- **Operations.** Each backend operation is a pure function from a database to
  a new database and an outcome datatype. Every error path is an outcome:
  - symbol not found, insufficient funds, insufficient shares, price failure;
  - the `ZeroDivisionError` that `buy.py` can raise.
- **JavaScript values.** Module `Js` models the semantics the frontend relies
  on:
  - `undefined` and `null`, numbers with `NaN` and infinities;
  - truthiness, `||`;
  - arithmetic and comparisons with `NaN`;
  - `parseFloat`, `parseInt` and `Number()` on strings.
- **Python values.** Module `Text` models `str.strip`, `upper`, `int()` and
  `float()` on strings, and the `repr` of whole numbers that the backend writes
  into its messages. With these, the model can prove that the frontend parses
  the backend's "Insufficient shares" messages back.
- **Numbers.** Money and quantities are `real`. Rounding and locale formatting
  of digits are not modelled. Where a page formats a number, the model keeps
  the unit or threshold it chooses, or takes the rendering as a parameter.

Modules follow the source files:

| Module | File | Source |
|---|---|---|
| `Tables`, `Fifo`, `Seqs`, `Text`, `Js`, `Wrappers` | tables.dfy, fifo.dfy, seqs.dfy, text.dfy, js.dfy, wrappers.dfy | shared model and helpers |
| `Sell` | sell.dfy | backend/app/sell.py |
| `Buy` | buy.dfy | backend/app/buy.py |
| `OrderManager` | order_manager.dfy | backend/app/order_manager.py |
| `OrderRequests` | order_request.dfy | backend/app/order_request.py |
| `SellRequests` | sell_request.dfy | backend/app/sellRequest.py |
| `Pnl` | pnl.dfy | backend/app/pnl.py |
| `Portfolio` | portfolio.dfy | backend/app/portfolio.py |
| `PriceLookup` | price_lookup.dfy | backend/app/utils.py |
| `Config` | config.dfy | backend/app/config.py |
| `Search` | search.dfy | backend/app/search.py |
| `ApiService` | api_service.dfy | frontend/src/services/apiService.js |
| `EnhancedTrading` | enhanced_trading.dfy | frontend/src/components/EnhancedTrading.jsx |
| `Trading` | trading.dfy | frontend/src/components/Trading.jsx |
| `SearchDropdown` | search_dropdown.dfy | frontend/src/components/StockSearchDropdown.jsx |
| `StockDetail` | stock_detail.dfy | frontend/src/components/StockDetail.jsx |
| `PortfolioView` | portfolio_view.dfy | frontend/src/components/Portfolio.jsx |
| `Dashboard` | dashboard.dfy | frontend/src/components/Dashboard.jsx |
| `ManageCash` | manage_cash.dfy | frontend/src/components/ManageCash.jsx |

### Where the model departs from the source's own description

- **Company search.** The `LIKE` comparisons in `search_stocks_by_name` are
  modelled case-insensitively, as MySQL's default collation compares; the
  exact-symbol test upper-cases both sides as well. A case-sensitive reading
  would make the ranking depend on how the table spells names. The query is
  placed inside the patterns as it is, so a `%` or `_` in it acts as a
  wildcard (`Search.UnderscoreMatchesAnyCharacter`); for a query without
  them the patterns are plain prefix and substring tests
  (`Search.PlainQueryRanks`).
- **Three averages.** Two sell paths recompute the average cost, and both are
  modelled as written. The lemmas show where they differ from a FIFO average
  of the lots still held:
  - `sell.py` skips only the shares of the current sale (`Sell.LaterSaleAverageIsNotFifo`);
  - `order_manager.py` takes an unweighted mean (`OrderManager.UnweightedDiffersFromWeighted`).
- **Holding quantity in `buy.py`.** `buy.py` truncates the stored holding
  quantity with `int()` before averaging (`Buy.FractionalHoldingIsTruncated`).
  When the truncated holding plus the order is zero, the division raises after
  the trade row was committed (`Buy.ZeroBuyIntoFractionalHoldingFails`).
- **Negative withdrawals.** The withdrawal guard of the cash form lets negative
  and non-numeric amounts through (`ManageCash.WithdrawAdmitsNegatives`).

## Model

| member | source | states |
|---|---|---|
| Fifo.AvailableLots | backend/app/sell.py:120-137 | the lots still held are a subsequence of the BUY lots in buy order; each keeps a positive part no larger than the lot; only the first can be partly reduced, and with nothing sold every lot is kept whole |
| Fifo.AvailableLotsSum | backend/app/sell.py:117-137 | when no more was sold than bought, the available quantities add up to bought minus sold; when more was sold, nothing is available |
| Fifo.AvailableLotsNoSkip | backend/app/sell.py:38-60 | with nothing to skip, every positive lot is available in full |
| Fifo.Consume | backend/app/sell.py:184-198 | a sale takes shares from the available lots in order, at each lot's price, never more than the lot holds, and every lot before the last one touched is taken whole |
| Fifo.ConsumeSum | backend/app/sell.py:184-198 | the shares taken add up to the smaller of the quantity sold and the quantity available |
| Fifo.WeightedAverageCost | backend/app/sell.py:62-69 | the remaining average times the remaining quantity is the remaining cost |
| Fifo.WeightedAverageBounds | backend/app/sell.py:66-69 | a quantity-weighted average lies between the smallest and largest price of the lots averaged |
| Fifo.RemainingAverageBounds | backend/app/sell.py:13-80 | the average `calculate_remaining_average_cost` returns lies between the extreme prices of the lots left after skipping the sold shares |
| Sell.FifoHoldings | backend/app/sell.py:85-139 | every lot returned has a positive available quantity and they come from the symbol's BUY lots in order |
| Sell.FifoHoldingsSum | backend/app/sell.py:117-137 | the FIFO holdings add up to bought minus sold, or are empty when more was sold than bought |
| Sell.TotalAvailable | backend/app/sell.py:167 | the available total is the sum of the available quantities, and is the integer 0 exactly when no lot is available |
| Sell.HoldingsAfterSale | backend/app/sell.py:216-240 | other symbols' holdings are untouched; the symbol's holding is deleted when the sale leaves nothing, else reduced by the quantity sold and re-averaged |
| Sell.SellStock | backend/app/sell.py:148-255 | a price failure or a shortfall leaves the database unchanged; a shortfall is exactly a FIFO supply below the request; a sale appends one SELL trade, credits quantity times price, and realizes the proceeds less the FIFO cost of the shares taken |
| Sell.RecordSale | backend/app/sell.py:178-255 | a covered sale leaves the earlier trades and P&L rows as they were and appends one SELL trade and one P&L row with the same profit, which plus the FIFO cost of the shares taken is the proceeds; the balance ends higher by quantity times price (a missing row stays missing); the symbol's holding ends smaller by the quantity or is gone exactly when nothing is left, averaged over the BUY lots less this sale; every other holding is as it was |
| Sell.SaleAppendsOneSell | backend/app/sell.py:204-207 | after a sale the BUY lots are unchanged and the total sold grows by exactly the quantity sold |
| Sell.SaleTakesRequested | backend/app/sell.py:178-200 | when enough is held, the shares taken add up to exactly the requested quantity |
| Sell.SaleReducesFifoSupply | backend/app/sell.py:85-139 | after a sale the FIFO supply has shrunk by exactly the quantity sold |
| Sell.SaleAverageSkipsOnlyThisSale | backend/app/sell.py:38-69 | the new average cost skips only the shares of this sale from the oldest BUY lots, not the shares of earlier sales |
| Sell.FirstSaleAverageIsFifo | backend/app/sell.py:38-69 | for the first sale of a symbol the new average is the weighted average of the lots still held |
| Sell.PartialSale | backend/app/sell.py:222-239 | a sale that leaves shares stores the average of the BUY lots less this sale's quantity, while the FIFO holdings afterwards skip everything sold so far |
| Sell.LaterSaleAverageIsNotFifo | backend/app/sell.py:38-69 | on a second sale the stored average (5/3) differs from the weighted average of the lots still held (2) |
| Sell.NegativeSaleIsRecorded | backend/app/sell.py:167-170 | a negative quantity passes the sufficiency check, is recorded as a sale and debits cash |
| Buy.Message | backend/app/buy.py:26-88 | the call returns a message on every path except the division by zero, which raises |
| Buy.HoldingAfterBuy | backend/app/buy.py:53-73 | a new holding has the order's quantity at the price; an existing one becomes truncated old plus new, at the weighted mean, and raises when that sum is zero |
| Buy.BuyStock | backend/app/buy.py:19-88 | unknown symbol and insufficient funds (cash below price times quantity; equality passes) write nothing; otherwise one BUY trade is written and the cash balance is never debited |
| Buy.BuyAddsOneLot | backend/app/buy.py:36-41 | a successful buy appends exactly one BUY lot of the order's quantity at the price |
| Buy.WholeHoldingConservesCost | backend/app/buy.py:58-66 | for a whole-number holding, quantity times average after the buy is the old cost plus the new shares' cost |
| Buy.FractionalHoldingIsTruncated | backend/app/buy.py:55 | a holding of 2.5 shares bought into by 1 becomes 3 shares |
| Buy.ZeroBuyIntoFractionalHoldingFails | backend/app/buy.py:36-61 | a zero-share buy into a half-share holding raises after the trade row is written |
| OrderManager.FifoSaleFrom | backend/app/order_manager.py:203-240 | the FIFO sale changes only BUY trades of the symbol at or after the starting point, and its realized profit is the shares sold times the sale price less their cost basis |
| OrderManager.FifoNothingToSell | backend/app/order_manager.py:207-209 | with nothing to sell the trades are untouched and every total is zero |
| OrderManager.FifoSoldAmount | backend/app/order_manager.py:203-240 | the shares sold are the smaller of the order's quantity and the BUY lots' total |
| OrderManager.FifoRemaining | backend/app/order_manager.py:214-232 | the lots' total after the sale is the total before minus the shares sold |
| OrderManager.FifoInOrder | backend/app/order_manager.py:207-232 | a lot is touched only when every earlier lot has been emptied |
| OrderManager.FifoLotBounds | backend/app/order_manager.py:214-232 | each lot's new quantity lies between 0 and its old quantity, and nothing else about the trade changes |
| OrderManager.AtMostOnePartialLot | backend/app/order_manager.py:214-232 | at most one lot is left partly sold |
| OrderManager.UnweightedAverageBounds | backend/app/order_manager.py:274-283 | the unweighted mean of the remaining lots' prices lies between their extreme prices |
| OrderManager.UnweightedDiffersFromWeighted | backend/app/order_manager.py:274-283 | for lots of 1 at 10 and 3 at 20 the mean used is 15 while the weighted mean is 17.5 |
| OrderManager.UpdateHoldingsAfterBuy | backend/app/order_manager.py:286-315 | a first buy holds the quantity at the fill price; a later buy adds the quantity and conserves quantity times average cost |
| OrderManager.ExecuteBuyOrder | backend/app/order_manager.py:42-107 | a missing balance fails; a cost above the balance is refused (equality passes) and writes nothing; a fill debits exactly the cost, leaving a non-negative balance |
| OrderManager.ExecuteSellOrder | backend/app/order_manager.py:110-187 | a missing holding or one smaller than the order is refused with the requested and available quantities (0 when missing); a fill changes only the symbol's BUY lots among the earlier trades, appends one SELL trade with the loop's realized profit, credits quantity times price, shrinks the holding by the quantity or deletes it when nothing is left, keeps the plain mean of its lots afterwards, and leaves other holdings alone |
| OrderManager.ExecuteMarketOrder | backend/app/order_manager.py:21-39 | a price failure is returned as is; otherwise the order goes to the buy or the sell path by its side |
| OrderManager.BuyKeepsConsistent | backend/app/order_manager.py:55-107 | a filled buy keeps the holding equal to the total of the symbol's BUY lots |
| OrderManager.SellKeepsConsistent | backend/app/order_manager.py:134-187 | a filled sell keeps the holding equal to the total of the symbol's BUY lots |
| OrderRequests.EnumValuesRoundTrip | backend/app/order_request.py:4-15 | each enum member is read back from its `.value` string |
| OrderRequests.NewOrderRequest | backend/app/order_request.py:26-31 | construction fails with the quantity error exactly when quantity is not positive, and otherwise upper-cases the symbol |
| OrderRequests.NewOrderRequestWithDefaults | backend/app/order_request.py:23-24 | the defaults are a MARKET order for `default_user` |
| OrderRequests.RenormalizeIsIdentity | backend/app/order_request.py:28 | constructing again from a constructed request gives the same request |
| OrderRequests.ToDict | backend/app/order_request.py:33-41 | the dictionary has exactly the five keys, with the enum values and the stored fields |
| OrderRequests.DictRoundTrip | backend/app/order_request.py:33-41 | every request is read back from its dictionary |
| OrderRequests.CreateMarketOrder | backend/app/order_request.py:49-57 | the result is always a MARKET order, with the other fields passed through |
| SellRequests.NewSellRequest | backend/app/sellRequest.py:2-4 | the symbol is upper-cased character by character and the quantity is kept unvalidated |
| SellRequests.RenormalizeIsIdentity | backend/app/sellRequest.py:3 | constructing again from a constructed request gives the same request |
| SellRequests.Render | backend/app/sellRequest.py:6-7 | the text is `SellRequest(symbol='S', quantity=Q)` with the stored symbol in place |
| SellRequests.RenderRoundTrip | backend/app/sellRequest.py:6-7 | a symbol without a quote character is read back from the rendered text |
| SellRequests.ToDict | backend/app/sellRequest.py:9-13 | the dictionary holds exactly the two stored fields |
| SellRequests.DictRoundTrip | backend/app/sellRequest.py:9-13 | every request is read back from its dictionary |
| Pnl.UnfilteredPositionsAreHeld | backend/app/pnl.py:57-71 | without a symbol filter, every position reported is a held symbol with its positive quantity and average cost |
| Pnl.ValuationPrice | backend/app/pnl.py:87 | a missing or zero current price values the holding at its average cost |
| Pnl.Percent | backend/app/pnl.py:92 | the percentage is 0 when the basis is not positive, else it is the profit over the basis, times 100 |
| Pnl.PositionOf | backend/app/pnl.py:83-107 | a position's value is price times quantity and its basis average cost times quantity; its profit is their difference |
| Pnl.UnpricedHoldingHasNoPnl | backend/app/pnl.py:87-92 | a holding without a price has zero unrealized profit and percentage |
| Pnl.UnrealizedPnl | backend/app/pnl.py:45-122 | no holdings give all zeros and an empty list; otherwise one position per row, with totals that are sums over the positions |
| Pnl.UnrealizedIsValueLessBasis | backend/app/pnl.py:94-115 | the total unrealized profit is the total market value less the total basis |
| Pnl.RealizedRows | backend/app/pnl.py:139-170 | only SELL trades with a realized profit, of the requested symbol, are summarised |
| Pnl.RealizedRowsExact | backend/app/pnl.py:139-170 | every realized SELL of the symbol appears once, and read backwards the rows follow the trades in date order (newest first) |
| Pnl.RealizedSummaryOf | backend/app/pnl.py:174-229 | no rows give the zero summary; otherwise the total is the sum of profits and the win and loss counts count the positive and negative ones |
| Pnl.WinsAndLossesSplitTotal | backend/app/pnl.py:194-214 | the total is the wins plus the losses, and trades of zero profit count as neither |
| Pnl.WinsArePositive | backend/app/pnl.py:194-203 | the wins add up to a positive amount whenever there is one |
| Pnl.LossesAreNegative | backend/app/pnl.py:194-203 | the losses add up to a negative amount whenever there is one |
| Pnl.RealizedSummaryStatistics | backend/app/pnl.py:214-217 | the win rate lies in [0, 100]; the average win is positive and the average loss negative when they exist, else 0 |
| Pnl.ComprehensiveReport | backend/app/pnl.py:238-268 | the report fails exactly when either part fails; otherwise the total is realized plus unrealized |
| Pnl.ComprehensiveTotal | backend/app/pnl.py:247-250 | the comprehensive total is the sum of the realized profits plus market value less basis |
| Portfolio.RealizedTotal | backend/app/portfolio.py:49-61 | without a SELL trade carrying a realized profit, the realized total is 0 |
| Portfolio.RealizedTotalAppend | backend/app/portfolio.py:49-61 | the realized total is additive over the trade log: a new selected SELL adds its realized profit (nothing when NULL), any other trade adds nothing |
| Portfolio.SaleAddsRealized | backend/app/portfolio.py:49-61 | after a sale through `sell_stock`, the summary's realized total for the sold symbol and unfiltered grows by exactly the profit the sale realized, and every other symbol's total is unchanged |
| Portfolio.PortfolioSummaryOf | backend/app/portfolio.py:69-105 | one entry per holding row in order; the count is the row count; value and basis are sums; the total is unrealized plus realized |
| Portfolio.SummaryUnrealizedIsValueLessBasis | backend/app/portfolio.py:75-81 | the summary's unrealized profit is value less basis and agrees with the profit-and-loss report |
| Portfolio.NoSalesMeansUnrealizedOnly | backend/app/portfolio.py:49-102 | with no SELL trades, the total profit is the unrealized profit |
| Portfolio.UnfilteredSummaryListsEveryHolding | backend/app/portfolio.py:29-93 | without a symbol filter, every held symbol appears in the summary |
| Portfolio.Apply | backend/app/portfolio.py:249-256 | a BUY row sets only the buy fields, a SELL row only the sell fields and realized profit, any other row nothing |
| Portfolio.FoldPerformancePeriod | backend/app/portfolio.py:240-256 | the period is never changed by the rows |
| Portfolio.MissingTypeKeepsFields | backend/app/portfolio.py:240-256 | the fields of a trade type without a row keep their defaults |
| Portfolio.EmptyPeriodIsZero | backend/app/portfolio.py:240-247 | with no trades every figure is 0 |
| Portfolio.PerformanceOfTrades | backend/app/portfolio.py:229-256 | grouped by type, the volumes and counts are the sums and counts of the BUY and SELL trades |
| PriceLookup.FloatError | backend/app/utils.py:36-55 | the error text of an unreadable price is Python's `float()` message, whose quoted part reads back as the offending text |
| PriceLookup.FloatErrorOfQuote | backend/app/utils.py:36-55 | a value containing a single quote is shown in double quotes, as `repr` does |
| PriceLookup.ApiStep | backend/app/utils.py:36-50 | the API answers exactly when its quote has a readable price field |
| PriceLookup.PercentText | backend/app/utils.py:77 | the fallback percent is the stored text followed by one '%', or "0%" |
| PriceLookup.FallbackOf | backend/app/utils.py:77-100 | the fallback reply carries the row's fields under both key styles, with defaults for missing ones |
| PriceLookup.BothFailed | backend/app/utils.py:114-117 | the fixed rate-limit text is returned when the API error mentions a rate limit |
| PriceLookup.CurrentPrice | backend/app/utils.py:25-117 | the API result is used exactly when it has a price; otherwise the database row exactly when its price is truthy; otherwise an error |
| PriceLookup.ZeroPriceIsNotCached | backend/app/utils.py:73 | a stored price of 0 is treated as no row |
| PriceLookup.RateLimitWording | backend/app/utils.py:114-117 | the rate-limit text is chosen exactly when the API error mentions a rate limit, in any case |
| PriceLookup.FloatField | backend/app/utils.py:130-135 | a missing field takes its default, and a present one must read as a number |
| PriceLookup.IntField | backend/app/utils.py:137 | a missing volume is 0, and a present one must read as an integer |
| PriceLookup.NormalizeQuote | backend/app/utils.py:126-138 | the quote is cached exactly when every present numeric field reads as a number; each cached value is its field read as a number or the field's default (the price for open, high, low and previous close, 0 for price, change and volume); the percent loses its trailing '%' and the day defaults to today |
| PriceLookup.PriceOnlyQuoteDefaults | backend/app/utils.py:130-137 | a quote with only a price caches open, high, low and previous close at that price and change and volume at 0 |
| PriceLookup.PercentRoundTrip | backend/app/utils.py:136 | stripping at caching and appending at fallback give back a percent text ending in exactly one '%' |
| PriceLookup.CacheThenFallback | backend/app/utils.py:59-138 | a quote cached while the API answered is what a later fallback reports |
| Config.StrippedKeys | backend/app/config.py:13 | the keys are the stripped, non-empty parts in their original order |
| Config.StrippedKeysPlaced | backend/app/config.py:13 | there is one key per part that does not strip to nothing, and the part with n such parts before it gives key n, stripped |
| Config.ParseKeys | backend/app/config.py:13 | no key is empty or has surrounding whitespace |
| Config.PrimaryKey | backend/app/config.py:15 | the primary key is the first key, or none when there are none |
| Config.BlankGivesNoKeys | backend/app/config.py:13-15 | an unset or blank variable gives no keys and no primary key |
| Config.JoinedPartsAreStripped | backend/app/config.py:13 | reading comma-joined parts strips each and drops the blank ones |
| Config.JoinedKeysRoundTrip | backend/app/config.py:13 | unpadded keys joined with commas are read back unchanged |
| Search.SectorEmoji | backend/app/search.py:5-21 | each mapped sector has its emoji, and any other sector the default |
| Search.GroupedDigits | backend/app/search.py:34 | removing the commas of the grouped number gives its plain decimal digits |
| Search.FormatMarketCap | backend/app/search.py:23-34 | a cap of 0 is "N/A", and anything else starts with '$' |
| Search.MarketCapUnit | backend/app/search.py:27-34 | the unit is T, B or M exactly in its threshold range, and a plain grouped number below a million |
| Search.Priority | backend/app/search.py:56-61 | priority 1 exactly for the exact symbol, 2 exactly for a symbol otherwise matching the query as a prefix pattern, 3 exactly for a name otherwise matching it as a contains pattern, and 4 otherwise |
| Search.PlainQueryRanks | backend/app/search.py:56-64 | for a query without `%` or `_` the patterns are plain tests: symbol starts with, symbol contains and name contains the query, ignoring case |
| Search.UnderscoreMatchesAnyCharacter | backend/app/search.py:52-73 | an `_` in the query matches any one character: "A_C" finds the symbol "ABC", which does not contain the text "A_C" |
| Search.Sort | backend/app/search.py:65 | results are a permutation of the matches ordered by priority, then market cap descending |
| Search.RankedMatchesExact | backend/app/search.py:62-64 | exactly the companies matching the query by symbol or name, each with its priority |
| Search.ListingOf | backend/app/search.py:82-91 | a missing sector becomes 'Other' and a missing cap 0, and the emoji follows the sector |
| Search.SearchStocks | backend/app/search.py:41-91 | a stripped query shorter than 2 gives nothing; otherwise at most `limit` listings of the ranking, in order |
| Search.RankingIsSortedSelection | backend/app/search.py:54-66 | the ranking is sorted, drawn from the matches, and as long as the smaller of limit and the match count |
| Search.ExactSymbolFirst | backend/app/search.py:56-66 | when a company has exactly the queried symbol, the first result has it |
| ApiService.ErrorMessage | frontend/src/services/apiService.js:33-53 | a timeout comes first, then a missing response; 429 is always the rate-limit text; other statuses use the body's error or their default |
| ApiService.ServerErrorPassesThrough | frontend/src/services/apiService.js:44-52 | a body error is shown as is exactly when the status is not 429 or the error is the rate-limit text |
| ApiService.StatusTextsDistinct | frontend/src/services/apiService.js:51-52 | two different unlisted statuses without a body error get different messages |
| ApiService.MissingMethods | frontend/src/services/apiService.js:57-156 | the service defines none of `depositCash`, `withdrawCash`, `searchStocks`, `placeOrder`, `getPendingOrders` and `cancelOrder` |
| ApiService.BuyBody | frontend/src/services/apiService.js:134-141 | a buy sends the upper-cased symbol, the parsed quantity and the cash |
| ApiService.SellBody | frontend/src/services/apiService.js:144-150 | a sell sends the upper-cased symbol and the parsed quantity, without cash |
| ApiService.TypedQuantityIsSent | frontend/src/services/apiService.js:144-150 | a typed whole number is sent as that number |
| ApiService.PortfolioParams | frontend/src/services/apiService.js:105-108 | the symbol is sent only when it is truthy |
| ApiService.TradesParams | frontend/src/services/apiService.js:111-115 | `limit` is always sent, and `symbol` only when truthy |
| EnhancedTrading.Fields | frontend/src/components/EnhancedTrading.jsx:25-46 | only a market order needs no price field |
| EnhancedTrading.FirstMissing | frontend/src/components/EnhancedTrading.jsx:131-145 | the first empty required field is reported, in table order, and none when all are filled |
| EnhancedTrading.OptionalPrice | frontend/src/components/EnhancedTrading.jsx:167-175 | an empty price text is sent as null and any other is parsed |
| EnhancedTrading.PlaceOrder | frontend/src/components/EnhancedTrading.jsx:122-175 | an order is submitted only when every rule passes, with its prices parsed; otherwise the first failing rule is reported: no stock or quantity, then the first empty required price field, then the market-buy cash rule, then the sell holding rule |
| EnhancedTrading.PlaceOrderSubmitsWhenValid | frontend/src/components/EnhancedTrading.jsx:122-175 | an order passing every rule is submitted |
| EnhancedTrading.OnlyMarketBuysCheckCash | frontend/src/components/EnhancedTrading.jsx:148-156 | only market buys depend on the cash |
| EnhancedTrading.StopLimitReportsStopFirst | frontend/src/components/EnhancedTrading.jsx:138-145 | a stop-limit order missing both prices reports the stop price |
| EnhancedTrading.OrderValue | frontend/src/components/EnhancedTrading.jsx:220-233 | 0 without a quote or quantity; otherwise quantity times the typed limit price (limit order), the typed limit price (stop-limit order), or else the current quote price, including for a limit or stop-limit order whose price is not yet typed |
| EnhancedTrading.SubmittedMarketBuyIsCovered | frontend/src/components/EnhancedTrading.jsx:148-156 | a submitted market buy costs no more than the cash |
| EnhancedTrading.SelectStock | frontend/src/components/EnhancedTrading.jsx:79-120 | prices are filled in only for a positive current price; the holding defaults to 0 shares |
| EnhancedTrading.NoHoldingRefusesSells | frontend/src/components/EnhancedTrading.jsx:102-111 | after selecting a stock not held, a sell is refused |
| EnhancedTrading.QuantityFromInput | frontend/src/components/EnhancedTrading.jsx:396 | an unreadable or zero input becomes 1; otherwise the parsed integer |
| Trading.SearchSymbol | frontend/src/components/Trading.jsx:107-112 | a blank term searches nothing; otherwise the upper-cased term |
| Trading.ChooseQuote | frontend/src/components/Trading.jsx:68-84 | a live quote is used first, then a cached reply without an error; when the cache request throws, the previous quote stays with "Failed to fetch data"; when it gives nothing or an errored reply, the previous quote stays with "No data available" |
| Trading.ValidateTrade | frontend/src/components/Trading.jsx:117-128 | an incomplete selection is refused; a complete trade is sent exactly when it is not a buy costing more than the cash, and refused with the cash message otherwise |
| Trading.CompleteSellIsSent | frontend/src/components/Trading.jsx:117-128 | a sell with a stock, a quote and a positive quantity is always sent |
| Trading.SellsIgnoreCash | frontend/src/components/Trading.jsx:122-128 | sells never depend on the cash |
| Trading.Total | frontend/src/components/Trading.jsx:215-220 | 0 without a quote, else price times quantity |
| Trading.SentBuyIsCovered | frontend/src/components/Trading.jsx:122-128 | an accepted buy costs no more than the cash |
| Trading.Decrement | frontend/src/components/Trading.jsx:363 | the "-" button lowers a quantity of 2 or more by one and otherwise gives 1 |
| Trading.FromInput | frontend/src/components/Trading.jsx:372 | typed input gives the typed number when it is at least 1, and 1 otherwise |
| Trading.QuantityStaysPositive | frontend/src/components/Trading.jsx:363-378 | no sequence of button presses and inputs makes the quantity less than 1 |
| Trading.ErrorText | frontend/src/components/Trading.jsx:154 | the error shown is the reply's error, then its message, then the default |
| Trading.BackendSuccessRecognised | frontend/src/components/Trading.jsx:142 | the success messages of `buy.py` and `sell.py` are recognised as successes |
| Trading.FilledOrderRecognised | frontend/src/components/Trading.jsx:142 | the fill message of the order manager is recognised as a success |
| Trading.Capture | frontend/src/components/Trading.jsx:159-160 | a captured number is a non-empty run of digits and dots |
| Trading.SellMessageParsesBack | frontend/src/components/Trading.jsx:157-164 | the Available and Requested numbers of the `sell.py` message are read back exactly |
| Trading.OrderMessageParsesBack | frontend/src/components/Trading.jsx:186-192 | the Available and Requested numbers of the order manager's message are read back exactly |
| Trading.Rewrite | frontend/src/components/Trading.jsx:157-199 | unrelated errors pass through; share shortfalls are rewritten with the parsed numbers or a generic text; "Insufficient funds" gets a prefix |
| Trading.RefusedSaleShownWithNumbers | frontend/src/components/Trading.jsx:157-199 | a refused `sell.py` sale is shown with its requested and available numbers |
| Trading.BuyFundsTextShownAsIs | frontend/src/components/Trading.jsx:169-172 | the capitalised "Insufficient Funds..." of `buy.py` is shown unchanged |
| SearchDropdown.SearchQuery | frontend/src/components/StockSearchDropdown.jsx:17-22 | a search runs exactly when the trimmed term is at least 2 long |
| SearchDropdown.Settle | frontend/src/components/StockSearchDropdown.jsx:28-42 | results are shown with no highlight after a search, and cleared otherwise |
| SearchDropdown.Select | frontend/src/components/StockSearchDropdown.jsx:73-78 | selecting fills in the symbol, hides the list and resets the index |
| SearchDropdown.KeyDown | frontend/src/components/StockSearchDropdown.jsx:44-71 | keys are ignored while results are hidden or empty; Enter picks a listed result; Escape hides |
| SearchDropdown.ArrowDownBounded | frontend/src/components/StockSearchDropdown.jsx:50-52 | ArrowDown moves the index down but never past the last result |
| SearchDropdown.ArrowUpBounded | frontend/src/components/StockSearchDropdown.jsx:56 | ArrowUp moves the index up but never below -1 |
| SearchDropdown.EnterPicks | frontend/src/components/StockSearchDropdown.jsx:60-64 | Enter picks the highlighted result, or the first when none is |
| SearchDropdown.Click | frontend/src/components/StockSearchDropdown.jsx:80-84 | clicking shows the list exactly when it was shown or has results |
| SearchDropdown.Blur | frontend/src/components/StockSearchDropdown.jsx:86-94 | leaving the box hides the list unless focus moved into it |
| SearchDropdown.Hover | frontend/src/components/StockSearchDropdown.jsx:119-126 | hovering a row of the shown list highlights it, keeps the highlight in range, and does nothing when no such row is rendered |
| SearchDropdown.HoverThenEnterPicks | frontend/src/components/StockSearchDropdown.jsx:44-126 | hovering a row and pressing Enter picks that row |
| SearchDropdown.StepKeepsValid | frontend/src/components/StockSearchDropdown.jsx:44-126 | every event (typing, search replies, keys, clicks, blur, picks and hovers) keeps -1 <= index < results, and only picks a listed result |
| SearchDropdown.RunKeepsValid | frontend/src/components/StockSearchDropdown.jsx:15-126 | any sequence of events keeps the index in range |
| SearchDropdown.QuietStep | frontend/src/components/StockSearchDropdown.jsx:28-42 | with the service lacking `searchStocks`, no event shows a list or selects a stock from an empty hidden list |
| SearchDropdown.SearchNeverShows | frontend/src/components/StockSearchDropdown.jsx:28-71 | from an empty hidden list, every sequence of events keeps the list empty and hidden, and every key does nothing |
| StockDetail.ChooseQuote | frontend/src/components/StockDetail.jsx:43-58 | the cached quote is used only when the primary fails and the cached reply has no error |
| StockDetail.FormatCurrency | frontend/src/components/StockDetail.jsx:76-82 | any falsy amount, 0 included, is 'N/A' |
| StockDetail.FormatLargeNumber | frontend/src/components/StockDetail.jsx:84-92 | falsy input is 'N/A'; the unit is T, B, M or K exactly in its threshold range |
| StockDetail.LargeNumberMantissa | frontend/src/components/StockDetail.jsx:84-92 | the shown mantissa times its unit's scale is the number, and lies in [1, 1000) for B, M and K |
| StockDetail.Chart | frontend/src/components/StockDetail.jsx:94-130 | a missing series gives no points; otherwise the first entries, at most n, in reverse |
| StockDetail.ChartIsRecentReversed | frontend/src/components/StockDetail.jsx:94-111 | the chart's captions are the first n keys reversed |
| StockDetail.RangeDays | frontend/src/components/StockDetail.jsx:132-138 | '7d' is 7, '90d' is 90, anything else 30 |
| StockDetail.ChartData | frontend/src/components/StockDetail.jsx:132-139 | intraday charts ignore the range and have at most 78 points; daily charts at most 90 |
| StockDetail.FallbackChart | frontend/src/components/StockDetail.jsx:142-162 | two points, the earlier priced at current less change with 0.8 of the volume |
| PortfolioView.TotalsOf | frontend/src/components/Portfolio.jsx:59-73 | total value is the sum of market values and total profit is value less cost |
| PortfolioView.Headline | frontend/src/components/Portfolio.jsx:136 | the headline is the total value plus the cash |
| PortfolioView.RowOf | frontend/src/components/Portfolio.jsx:246-250 | a row's profit is value less cost; its percentage is profit over cost times 100, and not a number at zero cost |
| PortfolioView.RowPercentIsReturnOnCost | frontend/src/components/Portfolio.jsx:246-250 | cost grown by the percentage gives the market value |
| PortfolioView.PieChart | frontend/src/components/Portfolio.jsx:99-103 | one slice per holding with its value and share of the total |
| PortfolioView.PieSharesSumTo100 | frontend/src/components/Portfolio.jsx:99-103 | with a positive total, the shares add up to 100 |
| PortfolioView.BarChart | frontend/src/components/Portfolio.jsx:105-116 | one bar per holding with its value, cost and profit |
| PortfolioView.BarsSumToTotalPL | frontend/src/components/Portfolio.jsx:59-116 | the bars' profits add up to the total profit |
| Dashboard.FetchQuotes | frontend/src/components/Dashboard.jsx:29-37 | a symbol has a quote exactly when it is watched and its fetch succeeded; failures do not stop the others |
| Dashboard.PriceOf | frontend/src/components/Dashboard.jsx:42-46 | a missing or falsy quoted price falls back to the holding's default price |
| Dashboard.TotalsOf | frontend/src/components/Dashboard.jsx:48-62 | total profit is total value less total cost |
| Dashboard.PercentIsOfCost | frontend/src/components/Dashboard.jsx:79-82 | the percentage's denominator, value less profit, is the total cost |
| Dashboard.NoQuotesUseDefaults | frontend/src/components/Dashboard.jsx:42-46 | without quotes every holding is priced by its default |
| Dashboard.Watchlist | frontend/src/components/Dashboard.jsx:185-191 | exactly the watched symbols with a quote get a row |
| Dashboard.WholePercentParsed | frontend/src/components/Dashboard.jsx:191 | a change percent "N%" is read as the number N |
| ManageCash.Deposit | frontend/src/components/ManageCash.jsx:18-27 | a deposit is sent exactly when the amount is a number above 0 |
| ManageCash.WithdrawRefusedIff | frontend/src/components/ManageCash.jsx:35-43 | a withdrawal is refused exactly when the amount is a non-negative number above the balance |
| ManageCash.WithdrawAdmitsNegatives | frontend/src/components/ManageCash.jsx:35 | negative and non-numeric amounts pass the withdrawal guard |
| ManageCash.WithinBalanceSent | frontend/src/components/ManageCash.jsx:21-37 | a positive amount within the balance is sent by both forms |
| ManageCash.ExponentDeposit | frontend/src/components/ManageCash.jsx:21-24 | an amount typed with an exponent is read as the number it denotes ("5e2" deposits 500), and a dangling exponent is refused |
| ManageCash.Submit | frontend/src/components/ManageCash.jsx:18-43 | an alert is shown exactly when the guard refuses; the amount reaches the server exactly when the guard passes and the service defines the method called, and only then is the input cleared |
| ManageCash.FormsNeverSend | frontend/src/components/ManageCash.jsx:25-37 | since the service defines neither `depositCash` nor `withdrawCash`, neither form ever sends an amount or clears its input; only the guards' alerts are seen |

## Left out

- Portfolio.SummaryWanted, Portfolio.IsSummedSell and Buy.BuyStock: the `=` comparisons on `stock_symbol` (portfolio.py:35,52; buy.py:20,48) are modelled as exact equality of the stored text, whereas under MySQL's default case-insensitive collation `"aapl"` would also find `AAPL`. Holdings are a map keyed by the stored symbol, and comparing keys up to case would make every lookup a search. The buy and sell bodies the front end builds upper-case the symbol (`ApiService.BuyBody`, `ApiService.SellBody`), so for those the two readings agree. Likewise `Search.LikeMatch` treats `\`, MySQL's default `LIKE` escape character, as a literal character.

- Database plumbing: connections, cursors, commit and rollback, SQL text. Tables are immutable values and each operation a pure state transformer. The `Database error` path and the separate commits in `buy.py` are not modelled, beyond the trade row a later `ZeroDivisionError` leaves behind.
- HTTP and market data: the Alpha Vantage and yfinance calls are parameters (`PriceLookup.ApiAttempt`, `DbAttempt`, the reply functions of the pages). So are the axios instance, the Flask routes of `routes.py` and `market.py`, and the clock (`now`, `today`).
- Threads and timers: `price_updater.py` (its field extraction is the one in `utils.py:130-137`), `order_service.py`, `run.py`, `__init__.py`, the 300 ms debounce, the message-clearing timeouts and `Promise.allSettled`.
- React rendering and hooks: only the pure decision each handler makes is modelled. Recharts markup and CSS are not.
- Digits of formatted numbers: `round`, `toFixed`, `Intl.NumberFormat` and `f"{:.1f}"`. Unit and threshold choice are modelled. The digits are a rendering parameter (`render`, `fixed1`, `toFixed2`, `pnlText`, `priceText`), or are dropped from the model.
- Python `repr` of non-whole floats: `Text.PyRepr` is defined for whole values below 10^16 only, and the messages that need it are `None` otherwise.
- Trading.Rewrite: returns `None` when a parsed number has no whole-number text. JavaScript's own rendering of fractions is not modelled.
- Trading.RefusedSaleShownWithNumbers: stated for available quantities below 10^16 and requested ones below 10^21, where both languages print the plain digits.
- Trading.SellMessageParsesBack: stated for non-negative whole quantities. A negative number's '-' is not matched by `[\d.]+`, which is a different branch.
- The date window of the profit-and-loss and performance queries (`days`): the trades given are taken to be inside the window.
- String handling is over plain characters. Unicode case mapping and Unicode whitespace beyond ASCII are not modelled.
- Calls to API methods the service does not define: `placeOrder`, `getPendingOrders` and `cancelOrder` in `EnhancedTrading.jsx`, `depositCash` and `withdrawCash` in `ManageCash.jsx`, and `searchStocks` in `StockSearchDropdown.jsx`. Each such call throws. The model keeps the guards before them and shows that the code after them never runs (`ManageCash.FormsNeverSend`, `SearchDropdown.SearchNeverShows`). The submission and refresh paths of `EnhancedTrading.jsx` are not modelled.
- Numerals: decimal numerals with an optional exponent are read as JavaScript and Python read them. Hexadecimal, binary and octal forms, `Infinity` and Python's `inf`/`nan` spellings are not part of the modelled syntax.
- Text.PyFloatOf: rejects digit-group underscores, which Python's `float()` and `int()` accept (`"1_000"` reads as 1000.0 in Python). So a quote field written that way makes `PriceLookup.ApiStep`, `PriceLookup.FloatField` and `PriceLookup.NormalizeQuote` fail where the backend succeeds. Provider replies do not use that form, and the grammar of underscore placement is left out to keep the numeral parser small.
- Text.PyIntOf: rejects digit-group underscores in the same way, for `PriceLookup.IntField`.
- Text.PyStrRepr: escapes only the backslash, the quote it chose, newline, carriage return and tab. Other control characters are written raw where Python's `repr` writes `\xNN` (or `\uNNNN` for non-printable characters beyond Latin-1), so `PriceLookup.FloatError` differs from Python's message for a value holding such a character.
- Dashboard.ChangePercent: a numeric `10. change percent` field (the API always sends text) is read as missing.
- Other functions of `search.py`: `get_stock_details_by_symbol`, `get_top_stocks_by_sector` and `get_all_sectors` are database reads with no logic beyond `format_market_cap` and `get_sector_emoji`.
- Files with no modellable behaviour:
  - `StockDetail.js` is an older, unrouted copy of `StockDetail.jsx`.
  - `App.jsx` and `DatabaseTest.jsx` are routing and UI.
  - `news.py` is a database fetch.
  - `BuyRequest.py` is a plain record.
  - `quick_test.py` and the scripts under `test/` need a live database and API.
