/** The trade form of `Trading.jsx`: the checks before a trade is sent,
    how a reply is read as success or failure, the rewriting of the error
    texts the backend produces (parsing "Available: N" and "Requested: N"
    back out of them), the order total and the quantity control. */
module Trading {
  import opened Wrappers
  import opened Text
  import Js
  import EnhancedTrading
  import Buy
  import Sell
  import OrderManager
  import OrderRequests
  import Tables

  type Quote = EnhancedTrading.Quote

  // ---------------------------------------------------------------------------
  // Selecting a stock

  /** `handleSearch`: nothing for a blank term, else the term upper-cased
      but not trimmed. */
  function SearchSymbol(term: string): (r: Option<string>)
    ensures r.None? <==> Strip(JavaScript, term) == ""
    ensures r.Some? ==> r.value == Upper(term)
  {
    if Strip(JavaScript, term) == "" then None else Some(Upper(term))
  }

  /** The reply of the database-only quote request: the quote and its
      `error` field. */
  datatype CachedReply = CachedReply(quote: Quote, error: Option<string>)

  /** What `handleStockSelect` shows for the quote: the live quote when its
      request succeeded, else the cached quote when that request returned a
      reply without an error; otherwise the previous quote stays and an
      error is shown. `cached` is None when the second request threw. */
  function ChooseQuote(symbol: string, previous: Option<Quote>, live: Option<Quote>,
                       cached: Option<Option<CachedReply>>): (r: (Option<Quote>, Option<string>))
    ensures live.Some? ==> r == (live, None)
    ensures live.None? && cached.Some? && cached.value.Some? && (cached.value.value.error.None? || cached.value.value.error == Some("")) ==>
      r == (Some(cached.value.value.quote), None)
    ensures r.1.Some? ==> r.0 == previous
    ensures live.None? && cached.None? ==> r == (previous, Some("Failed to fetch data for " + symbol))
    ensures (live.None? && cached.Some? && !(cached.value.Some? && (cached.value.value.error.None? || cached.value.value.error == Some("")))) ==>
      r == (previous, Some("No data available for " + symbol + " - please try again later"))
  {
    if live.Some? then (live, None)
    else match cached
      case None => (previous, Some("Failed to fetch data for " + symbol))
      case Some(reply) =>
        if reply.Some? && (reply.value.error.None? || reply.value.error == Some("")) then (Some(reply.value.quote), None)
        else (previous, Some("No data available for " + symbol + " - please try again later"))
  }

  // ---------------------------------------------------------------------------
  // Before sending

  const InvalidSelection: string := "Please select a stock and enter a valid quantity"
  const InsufficientCash: string := "Insufficient cash for this trade"

  /** `handleTrade` up to the request: the error it shows, or None when
      the trade is sent. Only buys are checked against the cash. */
  function ValidateTrade(selected: string, quote: Option<Quote>, quantity: int, action: string, cash: Js.Number)
    : (r: Option<string>)
    ensures selected == "" || quote.None? || quantity <= 0 ==> r == Some(InvalidSelection)
    ensures selected != "" && quote.Some? && quantity > 0 ==>
      (r == Some(InsufficientCash) <==>
        action == "buy" && Js.Less(cash, Js.Mul(EnhancedTrading.QuotePrice(quote.value), Js.Num(quantity as real))))
    ensures selected != "" && quote.Some? && quantity > 0 ==>
      (r.None? <==>
        !(action == "buy" && Js.Less(cash, Js.Mul(EnhancedTrading.QuotePrice(quote.value), Js.Num(quantity as real)))))
    ensures r.None? || r == Some(InvalidSelection) || r == Some(InsufficientCash)
  {
    if selected == "" || quote.None? || quantity <= 0 then Some(InvalidSelection)
    else
      var total := Js.Mul(EnhancedTrading.QuotePrice(quote.value), Js.Num(quantity as real));
      if action == "buy" && Js.Less(cash, total) then Some(InsufficientCash) else None
  }

  /** A sell is sent whatever the cash. */
  lemma SellsIgnoreCash(selected: string, quote: Quote, quantity: int, action: string, a: Js.Number, b: Js.Number)
    requires action != "buy"
    ensures ValidateTrade(selected, Some(quote), quantity, action, a) == ValidateTrade(selected, Some(quote), quantity, action, b)
  {
  }

  /** A sell with a stock, a quote and a positive quantity is always sent:
      the form checks nothing else about it. */
  lemma CompleteSellIsSent(selected: string, quote: Quote, quantity: int, action: string, cash: Js.Number)
    requires selected != "" && quantity > 0 && action != "buy"
    ensures ValidateTrade(selected, Some(quote), quantity, action, cash).None?
  {
  }

  /** Which request is sent: a buy for "buy", a sell for any other action. */
  function SendsBuy(action: string): bool {
    action == "buy"
  }

  /** `calculateTotal`. */
  function Total(quote: Option<Quote>, quantity: int): (t: Js.Number)
    ensures quote.None? ==> t == Js.Num(0.0)
    ensures quote.Some? && EnhancedTrading.QuotePrice(quote.value).Num? ==>
      t == Js.Num(EnhancedTrading.QuotePrice(quote.value).value * quantity as real)
  {
    if quote.None? then Js.Num(0.0)
    else Js.Mul(EnhancedTrading.QuotePrice(quote.value), Js.Num(quantity as real))
  }

  /** A buy is sent only when the total the form shows is within the cash
      (for numeric price and cash). */
  lemma SentBuyIsCovered(selected: string, quote: Quote, quantity: int, cash: Js.Number)
    requires ValidateTrade(selected, Some(quote), quantity, "buy", cash).None?
    requires cash.Num? && EnhancedTrading.QuotePrice(quote).Num?
    ensures Total(Some(quote), quantity).Num? && Total(Some(quote), quantity).value <= cash.value
  {
  }

  // ---------------------------------------------------------------------------
  // Quantity control

  /** The "-" button. */
  function Decrement(q: int): (r: int)
    ensures r >= 1
    ensures q >= 2 ==> r == q - 1
    ensures q < 2 ==> r == 1
  {
    if q - 1 > 1 then q - 1 else 1
  }

  /** The "+" button. */
  function Increment(q: int): int {
    q + 1
  }

  /** Typing into the input: `Math.max(1, parseInt(text) || 1)`. */
  function FromInput(text: string): (r: int)
    ensures r >= 1
    ensures var n := Js.ParseIntString(text); n.Num? && n.value >= 1.0 ==> r as real == n.value
    ensures var n := Js.ParseIntString(text); !(n.Num? && n.value >= 1.0) ==> r == 1
  {
    var n := Js.ParseIntString(text);
    if n.Num? && n.value >= 1.0 then n.value.Floor else 1
  }

  datatype QuantityEvent = Minus | Plus | Typed(text: string)

  function Apply(q: int, e: QuantityEvent): int {
    match e
    case Minus => Decrement(q)
    case Plus => Increment(q)
    case Typed(t) => FromInput(t)
  }

  /** Starting from 1, the quantity stays at least 1 whatever the user
      does, so a trade is never refused for its quantity. */
  lemma {:induction false} QuantityStaysPositive(q: int, events: seq<QuantityEvent>)
    requires q >= 1
    ensures Fold(q, events) >= 1
    decreases |events|
  {
    if |events| > 0 {
      QuantityStaysPositive(Apply(q, events[0]), events[1..]);
    }
  }

  function Fold(q: int, events: seq<QuantityEvent>): int
    decreases |events|
  {
    if |events| == 0 then q else Fold(Apply(q, events[0]), events[1..])
  }

  // ---------------------------------------------------------------------------
  // Reading the reply

  /** `result.message && result.message.toLowerCase().includes('successful')`. */
  predicate IsSuccess(message: Option<string>) {
    message.Some? && message.value != "" && Contains(Lower(message.value), "successful")
  }

  /** `result.error || result.message || 'Trade execution failed'`. */
  function ErrorText(error: Option<string>, message: Option<string>): (r: string)
    ensures error.Some? && error.value != "" ==> r == error.value
    ensures (error.None? || error.value == "") && message.Some? && message.value != "" ==> r == message.value
    ensures (error.None? || error.value == "") && (message.None? || message.value == "") ==> r == "Trade execution failed"
  {
    if error.Some? && error.value != "" then error.value
    else if message.Some? && message.value != "" then message.value
    else "Trade execution failed"
  }

  lemma LowerContains(s: string, w: string, i: nat)
    requires OccursAt(s, w, i) && Lower(w) == w
    ensures Contains(Lower(s), w)
  {
    assert Lower(s)[i..i + |w|] == Lower(s[i..i + |w|]);
    assert OccursAt(Lower(s), w, i);
  }

  lemma SuccessfulIn(p: string, rest: string)
    ensures IsSuccess(Some(p + "successful" + rest))
  {
    var m := p + "successful" + rest;
    assert m[|p|..|p| + 10] == "successful";
    LowerContains(m, "successful", |p|);
  }

  lemma SuccessfulAfter(head: string, rest: string)
    requires head == "Transaction successful"
    ensures IsSuccess(Some(head + rest))
  {
    var s := head + rest;
    assert s[12..22] == head[12..22] == "successful";
    LowerContains(s, "successful", 12);
  }

  /** The success texts of `buy_stock` and `sell_stock` read as success. */
  lemma BackendSuccessRecognised(pnlText: string, id: nat)
    ensures IsSuccess(Buy.Message(Buy.Bought(id)))
    ensures IsSuccess(Sell.Message("", Sell.Sold(id, 0.0), pnlText))
  {
    SuccessfulAfter("Transaction successful", ". Your portfolio will be updated momentarily");
    SuccessfulAfter("Transaction successful", ". Realized P&L: $" + pnlText);
    assert Sell.SoldPrefix + pnlText == "Transaction successful" + (". Realized P&L: $" + pnlText);
  }

  /** The text of a filled market order reads as success too. */
  lemma FilledOrderRecognised(side: OrderRequests.OrderSide, quantity: int, symbol: string, priceText: string)
    ensures IsSuccess(Some(OrderManager.FilledMessage(side, quantity, symbol, priceText)))
  {
    var w := "successful";
    var a := "Market " + OrderManager.SideWord(side) + " order ";
    var head := a + "successful: ";
    assert head[|a|..|a| + 10] == "successful: "[..10] == w;
    var s1 := head + FormatInt(quantity);
    var s2 := s1 + " shares of ";
    var s3 := s2 + symbol;
    var s4 := s3 + " at $";
    OccursExtend(head, FormatInt(quantity), w, |a|);
    OccursExtend(s1, " shares of ", w, |a|);
    OccursExtend(s2, symbol, w, |a|);
    OccursExtend(s3, " at $", w, |a|);
    OccursExtend(s4, priceText, w, |a|);
    SuccessfulIsLower();
    LowerContains(s4 + priceText, w, |a|);
  }

  lemma SuccessfulIsLower()
    ensures Lower("successful") == "successful"
  {
    var w := "successful";
    forall i | 0 <= i < |w| ensures LowerChar(w[i]) == w[i] {
    }
  }

  /** An occurrence stays where it is when text is appended. */
  lemma OccursExtend(s: string, t: string, w: string, i: int)
    requires OccursAt(s, w, i)
    ensures OccursAt(s + t, w, i)
  {
    assert (s + t)[i..i + |w|] == s[i..i + |w|];
  }

  // ---------------------------------------------------------------------------
  // Capturing numbers: `/Label: ([\d.]+)/`

  predicate IsNumChar(c: char) {
    IsDigit(c) || c == '.'
  }

  predicate AllNumChars(s: string) {
    forall i :: 0 <= i < |s| ==> IsNumChar(s[i])
  }

  /** The length of the leading run of digits and dots. */
  function NumRun(s: string): (k: nat)
    ensures k <= |s| && AllNumChars(s[..k])
    ensures k < |s| ==> !IsNumChar(s[k])
    decreases |s|
  {
    if |s| > 0 && IsNumChar(s[0]) then
      var k := 1 + NumRun(s[1..]);
      assert s[..k] == [s[0]] + s[1..][..k - 1];
      k
    else 0
  }

  /** The first group of the leftmost match of `tag` followed by one or
      more digits and dots. */
  function Capture(s: string, tag: string): (r: Option<string>)
    ensures r.Some? ==> |r.value| > 0 && AllNumChars(r.value)
    decreases |s|
  {
    if StartsWith(s, tag) && |s| > |tag| && IsNumChar(s[|tag|]) then
      var t := s[|tag|..];
      Some(t[..NumRun(t)])
    else if |s| == 0 then None
    else Capture(s[1..], tag)
  }

  /** A prefix without the tag's first character cannot hold a match. */
  lemma {:induction false} CaptureSkip(p: string, rest: string, tag: string)
    requires |tag| > 0 && tag[0] !in p
    ensures Capture(p + rest, tag) == Capture(rest, tag)
    decreases |p|
  {
    if |p| > 0 {
      var s := p + rest;
      assert s[0] == p[0] != tag[0];
      assert s[1..] == p[1..] + rest;
      CaptureSkip(p[1..], rest, tag);
    } else {
      assert p + rest == rest;
    }
  }

  lemma {:induction false} NumRunOf(num: string, rest: string)
    requires AllNumChars(num)
    requires |rest| > 0 ==> !IsNumChar(rest[0])
    ensures NumRun(num + rest) == |num|
    decreases |num|
  {
    var s := num + rest;
    if |num| > 0 {
      assert s[0] == num[0];
      assert s[1..] == num[1..] + rest;
      NumRunOf(num[1..], rest);
    } else {
      assert s == rest;
    }
  }

  /** The tag followed by a number gives that number. */
  lemma CaptureHere(tag: string, num: string, rest: string)
    requires |num| > 0 && AllNumChars(num)
    requires |rest| > 0 ==> !IsNumChar(rest[0])
    ensures Capture(tag + num + rest, tag) == Some(num)
  {
    var s := tag + num + rest;
    assert s[..|tag|] == tag;
    assert s[|tag|] == num[0];
    assert s[|tag|..] == num + rest;
    NumRunOf(num, rest);
    assert (num + rest)[..|num|] == num;
  }

  /** Both numbers of an "Insufficient shares" text, parsed with
      `parseFloat`: (available, requested). */
  function ParsedShares(message: string): Option<(Js.Number, Js.Number)> {
    var a := Capture(message, Tables.AvailableLabel);
    var r := Capture(message, Tables.RequestedLabel);
    if a.Some? && r.Some? then Some((Js.ParseFloatString(a.value), Js.ParseFloatString(r.value))) else None
  }

  /** The text of a non-negative Python number in an f-string, when it is
      printed as digits. */
  lemma ReprIsNumeral(x: PyNumber)
    requires PyRepr(x).Some? && PyValue(x) >= 0.0
    ensures |PyRepr(x).value| > 0 && AllNumChars(PyRepr(x).value)
    ensures Js.ParseFloatString(PyRepr(x).value) == Js.Num(PyValue(x))
  {
    match x
    case PyInt(i) =>
      assert PyRepr(x).value == FormatNat(i);
      DigitsAreNumChars(FormatNat(i), "");
      Js.ParseFloatFormatNat(i);
    case PyFloat(f) =>
      var n: nat := f.Floor;
      assert PyRepr(x).value == FormatNat(n) + ".0";
      DigitsAreNumChars(FormatNat(n), ".0");
      Js.ParseFloatFormatWholeFloat(n);
  }

  /** Digits followed by digits and dots are digits and dots. */
  lemma DigitsAreNumChars(d: string, tail: string)
    requires AllDigits(d) && AllNumChars(tail)
    ensures AllNumChars(d + tail)
  {
    var s := d + tail;
    forall i | 0 <= i < |s| ensures IsNumChar(s[i]) {
      if i >= |d| {
        assert s[i] == tail[i - |d|];
      }
    }
  }

  /** A number after a prefix that cannot start a match is captured. */
  lemma CaptureAfter(head: string, tag: string, num: string, rest: string)
    requires |tag| > 0 && tag[0] !in head
    requires |num| > 0 && AllNumChars(num)
    requires |rest| > 0 ==> !IsNumChar(rest[0])
    ensures Capture(head + tag + num + rest, tag) == Some(num)
  {
    assert head + tag + num + rest == head + (tag + num + rest);
    CaptureSkip(head, tag + num + rest, tag);
    CaptureHere(tag, num, rest);
  }

  lemma NumeralHasNoLetter(num: string, c: char)
    requires AllNumChars(num) && !IsNumChar(c)
    ensures c !in num
  {
  }

  /** Both numbers of a text `head first x sep second y` are read back,
      when neither tag's first character occurs earlier in the text. */
  lemma TwoCaptures(head: string, first: string, x: string, sep: string, second: string, y: string)
    requires |first| > 0 && |second| > 0 && |sep| > 0
    requires !IsNumChar(sep[0]) && !IsNumChar(second[0])
    requires first[0] !in head
    requires second[0] !in head && second[0] !in first && second[0] !in sep
    requires |x| > 0 && AllNumChars(x) && |y| > 0 && AllNumChars(y)
    ensures var m := (head + first) + x + (sep + second) + y;
      Capture(m, first) == Some(x) && Capture(m, second) == Some(y)
  {
    var m := (head + first) + x + (sep + second) + y;
    var tail := sep + second + y;
    assert tail[0] == sep[0];
    assert m == head + first + x + tail;
    CaptureAfter(head, first, x, tail);
    NumeralHasNoLetter(x, second[0]);
    var before := head + first + x + sep;
    assert second[0] !in before;
    assert m == before + second + y + "";
    CaptureAfter(before, second, y, "");
  }

  lemma LabelsDisjoint()
    ensures Tables.AvailableLabel[0] !in Tables.SharesHead && Tables.RequestedLabel[0] !in Tables.SharesHead
    ensures Tables.AvailableLabel[0] !in Tables.RequestedLabel && Tables.RequestedLabel[0] !in Tables.AvailableLabel
    ensures Tables.AvailableLabel[0] !in Tables.Separator && Tables.RequestedLabel[0] !in Tables.Separator
    ensures |Tables.Separator| > 0 && !IsNumChar(Tables.Separator[0])
    ensures !IsNumChar(Tables.AvailableLabel[0]) && !IsNumChar(Tables.RequestedLabel[0])
  {
  }

  /** The "Insufficient shares" text of `sell.py` (available first) is read
      back to the numbers it was built from. */
  lemma SellMessageParsesBack(available: PyNumber, requested: nat)
    requires PyRepr(available).Some? && PyValue(available) >= 0.0
    ensures var m := Sell.InsufficientMessage(available, requested);
      && m.Some?
      && ParsedShares(m.value) == Some((Js.Num(PyValue(available)), Js.Num(requested as real)))
  {
    var a := PyRepr(available).value;
    var q := FormatNat(requested);
    ReprIsNumeral(available);
    Js.ParseFloatFormatNat(requested);
    LabelsDisjoint();
    assert AllNumChars(q);
    TwoCaptures(Tables.SharesHead, Tables.AvailableLabel, a, Tables.Separator, Tables.RequestedLabel, q);
  }

  /** The same for the text of `order_manager.py` (requested first). */
  lemma OrderMessageParsesBack(requested: nat, available: PyNumber)
    requires PyRepr(available).Some? && PyValue(available) >= 0.0
    ensures var m := OrderManager.InsufficientSharesMessage(requested, available);
      && m.Some?
      && ParsedShares(m.value) == Some((Js.Num(PyValue(available)), Js.Num(requested as real)))
  {
    var a := PyRepr(available).value;
    var q := FormatNat(requested);
    ReprIsNumeral(available);
    Js.ParseFloatFormatNat(requested);
    LabelsDisjoint();
    assert AllNumChars(q);
    TwoCaptures(Tables.SharesHead, Tables.RequestedLabel, q, Tables.Separator, Tables.AvailableLabel, a);
  }

  // ---------------------------------------------------------------------------
  // Rewriting the error text

  /** The error shown after a failed trade. `thrown` tells whether the text
      came from a thrown Error (the catch block) or from the reply's fields;
      the two wordings differ. None when a parsed number is not whole, since
      its printing is not modelled. */
  function Rewrite(errorMessage: string, quantity: int, selected: string, thrown: bool): (r: Option<string>)
    ensures !Contains(errorMessage, "Insufficient shares") && !Contains(errorMessage, "Insufficient funds") ==>
      r == Some(errorMessage)
    ensures !Contains(errorMessage, "Insufficient shares") && Contains(errorMessage, "Insufficient funds") ==>
      r == Some("Insufficient cash to buy " + FormatInt(quantity) + " shares of " + selected + ". " + errorMessage)
    ensures Contains(errorMessage, "Insufficient shares") && ParsedShares(errorMessage).None? ==>
      r == Some("You don't own enough shares of " + selected + " to complete this sale.")
  {
    if Contains(errorMessage, "Insufficient shares") then
      match ParsedShares(errorMessage)
      case None => Some("You don't own enough shares of " + selected + " to complete this sale.")
      case Some(pair) =>
        var unit := if thrown then " share(s)" else " shares";
        match (Js.NumberText(pair.0), Js.NumberText(pair.1))
        case (Some(available), Some(requested)) =>
          Some("Cannot sell " + requested + unit + " of " + selected + ". You only own " + available + unit + ".")
        case _ => None
    else if Contains(errorMessage, "Insufficient funds") then
      Some("Insufficient cash to buy " + FormatInt(quantity) + " shares of " + selected + ". " + errorMessage)
    else Some(errorMessage)
  }

  lemma WholeText(n: nat)
    requires n < 1_000_000_000_000_000_000_000
    ensures Js.NumberText(Js.Num(n as real)) == Some(FormatNat(n))
  {
    assert (n as real).Floor == n;
  }

  /** An "Insufficient shares" text whose two numbers parse as whole
      numbers is shown as "Cannot sell ... You only own ...". */
  lemma RewriteParsed(m: string, available: nat, requested: nat, quantity: int, selected: string, thrown: bool)
    requires Contains(m, "Insufficient shares")
    requires ParsedShares(m) == Some((Js.Num(available as real), Js.Num(requested as real)))
    requires available < 1_000_000_000_000_000_000_000 && requested < 1_000_000_000_000_000_000_000
    ensures var unit := if thrown then " share(s)" else " shares";
      Rewrite(m, quantity, selected, thrown) == Some(
        "Cannot sell " + FormatNat(requested) + unit + " of " + selected + ". You only own "
        + FormatNat(available) + unit + ".")
  {
    WholeText(available);
    WholeText(requested);
  }

  lemma StartsWithExtend(s: string, t: string, w: string)
    requires StartsWith(s, w)
    ensures StartsWith(s + t, w)
  {
    assert (s + t)[..|w|] == s[..|w|];
  }

  lemma SellMessageMentionsShares(available: PyNumber, requested: int)
    requires PyRepr(available).Some?
    ensures StartsWith(Sell.InsufficientMessage(available, requested).value, "Insufficient shares")
  {
    var w := "Insufficient shares";
    var a := PyRepr(available).value;
    assert Tables.SharesHead[..19] == w;
    StartsWithExtend(Tables.SharesHead, Tables.AvailableLabel, w);
    StartsWithExtend(Sell.InsufficientPrefix, a, w);
    StartsWithExtend(Sell.InsufficientPrefix + a, Sell.RequestedInfix, w);
    StartsWithExtend(Sell.InsufficientPrefix + a + Sell.RequestedInfix, FormatInt(requested), w);
  }

  /** End to end: a refused sale of `requested` shares with `available`
      held, reported by `sell.py`, is shown to the user with both numbers. */
  lemma RefusedSaleShownWithNumbers(available: nat, requested: nat, selected: string, quantity: int, thrown: bool)
    requires available < 10_000_000_000_000_000 && requested < 1_000_000_000_000_000_000_000
    ensures var m := Sell.InsufficientMessage(PyFloat(available as real), requested);
      var unit := if thrown then " share(s)" else " shares";
      && m.Some?
      && Rewrite(m.value, quantity, selected, thrown) == Some(
        "Cannot sell " + FormatNat(requested) + unit + " of " + selected + ". You only own "
        + FormatNat(available) + unit + ".")
  {
    var x := PyFloat(available as real);
    assert PyRepr(x).Some? && PyValue(x) >= 0.0 && PyValue(x) == available as real by {
      assert (available as real).Floor == available;
    }
    var m := Sell.InsufficientMessage(x, requested);
    assert m.Some? && ParsedShares(m.value) == Some((Js.Num(available as real), Js.Num(requested as real))) by {
      SellMessageParsesBack(x, requested);
    }
    SellMessageMentionsShares(x, requested);
    ContainsPrefix(m.value, "Insufficient shares");
    RewriteParsed(m.value, available, requested, quantity, selected, thrown);
  }

  /** Neither lower-case phrase occurs in the capitalised text: at 0 the
      case of "F" differs, and elsewhere the text does not hold an "I". */
  lemma NotInFundsText(m: string, w: string)
    requires m == "Insufficient Funds..."
    requires w == "Insufficient shares" || w == "Insufficient funds"
    ensures !Contains(m, w)
  {
    forall i | 0 <= i <= |m| - |w| ensures !OccursAt(m, w, i) {
      if i == 0 {
        assert m[i..i + |w|][13] == m[13] != w[13];
      } else {
        assert m[i..i + |w|][0] == m[i] != w[0];
      }
    }
  }

  /** `buy_stock` spells "Insufficient Funds" with a capital F, so its text
      is not recognised by the case-sensitive check and is shown as it is. */
  lemma BuyFundsTextShownAsIs(quantity: int, selected: string, thrown: bool)
    ensures Rewrite(Buy.Message(Buy.InsufficientFunds).value, quantity, selected, thrown) == Buy.Message(Buy.InsufficientFunds)
  {
    var m := "Insufficient Funds...";
    assert Buy.Message(Buy.InsufficientFunds).value == m;
    NotInFundsText(m, "Insufficient shares");
    NotInFundsText(m, "Insufficient funds");
  }
}
