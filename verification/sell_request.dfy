/** The `sellRequest` record of `sellRequest.py`: a symbol stored upper-cased
    and a quantity stored as given. */
module SellRequests {
  import opened Wrappers
  import opened Text

  datatype SellRequest = SellRequest(symbol: string, quantity: int)

  /** `sellRequest(symbol, quantity)`: the symbol is upper-cased, the quantity
      is kept without any check, so zero and negative quantities are
      accepted. */
  function NewSellRequest(symbol: string, quantity: int): (r: SellRequest)
    ensures |r.symbol| == |symbol| && IsUpper(r.symbol)
    ensures forall i :: 0 <= i < |symbol| ==> r.symbol[i] == UpperChar(symbol[i])
    ensures IsUpper(symbol) ==> r.symbol == symbol
    ensures r.quantity == quantity
  {
    UpperIsUpper(symbol);
    UpperIdempotent(symbol);
    SellRequest(Upper(symbol), quantity)
  }

  /** Building a request from a stored request's own fields changes
      nothing. */
  lemma RenormalizeIsIdentity(symbol: string, quantity: int)
    ensures var r := NewSellRequest(symbol, quantity);
      NewSellRequest(r.symbol, r.quantity) == r
  {
    UpperIdempotent(symbol);
  }

  const RenderPrefix: string := "SellRequest(symbol='"
  const RenderMiddle: string := "', quantity="

  /** `__str__`. */
  function Render(r: SellRequest): (s: string)
    ensures |s| == |RenderPrefix| + |r.symbol| + |RenderMiddle| + |FormatInt(r.quantity)| + 1
    ensures s[..|RenderPrefix|] == RenderPrefix
    ensures s[|RenderPrefix|..|RenderPrefix| + |r.symbol|] == r.symbol
    ensures s[|s| - 1] == ')'
  {
    RenderPrefix + r.symbol + RenderMiddle + FormatInt(r.quantity) + ")"
  }

  /** Reads a rendering back: the symbol runs up to the first quote after
      the prefix, the quantity is the signed numeral after the middle
      part. */
  function ParseRender(s: string): (r: Option<SellRequest>)
    ensures r.Some? ==> StartsWith(s, RenderPrefix)
  {
    if !StartsWith(s, RenderPrefix) then None
    else
      var body := s[|RenderPrefix|..];
      if '\'' !in body then None
      else
        var symbol := body[..IndexOf(body, '\'')];
        var tail := body[|symbol|..];
        if !StartsWith(tail, RenderMiddle) then None
        else
          var n := ScanSigned(tail[|RenderMiddle|..]);
          if n.hasDigits && n.value == n.value.Floor as real then Some(SellRequest(symbol, n.value.Floor))
          else None
  }

  /** The rendering determines the request when the symbol holds no quote
      character. */
  lemma RenderRoundTrip(r: SellRequest)
    requires '\'' !in r.symbol
    ensures ParseRender(Render(r)) == Some(r)
  {
    var t := FormatInt(r.quantity) + ")";
    assert Render(r) == RenderPrefix + r.symbol + RenderMiddle + t;
    assert RenderMiddle[0] == '\'';
    RenderParts(RenderPrefix, r.symbol, RenderMiddle, t);
    ParseFormatInt(r.quantity, ")");
  }

  /** How `ParseRender` takes apart `p + symbol + m + t` when `m` starts
      with the quote and the symbol holds none: the symbol ends just before
      `m`, and `t` follows `m`. */
  lemma RenderParts(p: string, symbol: string, m: string, t: string)
    requires |m| > 0 && m[0] == '\'' && '\'' !in symbol
    ensures var s := p + symbol + m + t;
      && StartsWith(s, p)
      && '\'' in s[|p|..]
      && IndexOf(s[|p|..], '\'') == |symbol|
      && s[|p|..][..|symbol|] == symbol
      && s[|p|..][|symbol|..] == m + t
      && StartsWith(m + t, m)
      && (m + t)[|m|..] == t
  {
    var body := symbol + (m + t);
    assert p + symbol + m + t == p + body;
    AfterPart(p, body);
    SymbolPart(symbol, m, t);
    AfterPart(m, t);
  }

  /** The quote that starts `m` is the first one after a quote-free
      symbol. */
  lemma SymbolPart(symbol: string, m: string, t: string)
    requires |m| > 0 && m[0] == '\'' && '\'' !in symbol
    ensures var body := symbol + (m + t);
      && '\'' in body
      && IndexOf(body, '\'') == |symbol|
      && body[..|symbol|] == symbol
      && body[|symbol|..] == m + t
  {
    assert m + t == ['\''] + (m[1..] + t);
    assert symbol + (m + t) == symbol + ['\''] + (m[1..] + t);
    IndexAfterFreePrefix(symbol, '\'', m[1..] + t);
    AfterPart(symbol, m + t);
  }

  lemma AfterPart(m: string, rest: string)
    ensures StartsWith(m + rest, m) && (m + rest)[|m|..] == rest
  {
    assert (m + rest)[..|m|] == m;
  }

  /** A field of the dictionary `to_dict` returns. */
  datatype Field = Text(text: string) | Whole(whole: int)

  /** `to_dict`: exactly the two stored fields. */
  function ToDict(r: SellRequest): (d: map<string, Field>)
    ensures d.Keys == {"symbol", "quantity"}
    ensures d["symbol"] == Text(r.symbol) && d["quantity"] == Whole(r.quantity)
  {
    map["symbol" := Text(r.symbol), "quantity" := Whole(r.quantity)]
  }

  function FromDict(d: map<string, Field>): Option<SellRequest> {
    if "symbol" in d && "quantity" in d && d["symbol"].Text? && d["quantity"].Whole? then
      Some(SellRequest(d["symbol"].text, d["quantity"].whole))
    else None
  }

  lemma DictRoundTrip(r: SellRequest)
    ensures FromDict(ToDict(r)) == Some(r)
  {
  }
}
