/** The keyboard state machine of `StockSearchDropdown.jsx`: the search
    term, the results on show and the highlighted index, with the events
    that change them. */
module SearchDropdown {
  import opened Wrappers
  import opened Text
  import Search
  import ApiService

  type Stock = Search.Listing

  datatype State = State(term: string, results: seq<Stock>, show: bool, index: int)

  const Initial: State := State("", [], false, -1)

  /** The highlight is -1 (nothing) or an index of the results; a stale
      index is allowed only while there are no results, and then no key
      reads it. */
  predicate Valid(st: State) {
    -1 <= st.index && (|st.results| > 0 ==> st.index < |st.results|)
  }

  // ---------------------------------------------------------------------------
  // Searching

  /** The debounced effect: the trimmed term is searched only when it has
      at least two characters. */
  function SearchQuery(term: string): (q: Option<string>)
    ensures q.Some? <==> |Strip(JavaScript, term)| >= 2
    ensures q.Some? ==> q.value == Strip(JavaScript, term)
  {
    var t := Strip(JavaScript, term);
    if |t| >= 2 then Some(t) else None
  }

  /** What happens when the timer fires for the current term. `reply` is
      the outcome of the search request that `SearchQuery` asks for: the
      listed results, or None when the request threw. It is not consulted
      when no request is made. */
  function Settle(st: State, reply: Option<seq<Stock>>): (r: State)
    ensures r.term == st.term
    ensures SearchQuery(st.term).None? || reply.None? ==> r.results == [] && !r.show && r.index == st.index
    ensures SearchQuery(st.term).Some? && reply.Some? ==> r == State(st.term, reply.value, true, -1)
  {
    if SearchQuery(st.term).Some? && reply.Some? then State(st.term, reply.value, true, -1)
    else st.(results := [], show := false)
  }

  const SearchCall: string := "searchStocks"

  /** The reply `performSearch` gets to see: the server's when the service
      has `searchStocks`; otherwise the call throws and the catch branch
      runs as for a failed request. */
  function Received(reply: Option<seq<Stock>>): Option<seq<Stock>> {
    if ApiService.Defines(SearchCall) then reply else None
  }

  /** Typing replaces the term; the search follows when the timer fires. */
  function Type(st: State, term: string): (r: State)
    ensures r.term == term && r.results == st.results && r.show == st.show && r.index == st.index
  {
    st.(term := term)
  }

  /** `selectStock`: the term becomes the symbol, the list closes and the
      highlight resets. */
  function Select(st: State, stock: Stock): (r: State)
    ensures r == State(stock.symbol, st.results, false, -1)
  {
    State(stock.symbol, st.results, false, -1)
  }

  // ---------------------------------------------------------------------------
  // Keys

  datatype Key = ArrowDown | ArrowUp | Enter | Escape | Other(name: string)

  /** `handleKeyDown`: the new state and the stock handed to
      `onStockSelect`, if any. */
  function KeyDown(st: State, key: Key): (r: (State, Option<Stock>))
    ensures !st.show || |st.results| == 0 ==> r == (st, None)
    ensures r.1.Some? ==> r.1.value in st.results && r.0 == Select(st, r.1.value)
    ensures st.show && |st.results| > 0 && key == Escape ==> r == (st.(show := false, index := -1), None)
    ensures key.Other? ==> r == (st, None)
  {
    if !st.show || |st.results| == 0 then (st, None)
    else match key
      case ArrowDown =>
        (st.(index := if st.index < |st.results| - 1 then st.index + 1 else st.index), None)
      case ArrowUp =>
        (st.(index := if st.index > 0 then st.index - 1 else -1), None)
      case Enter =>
        var stock := if 0 <= st.index < |st.results| then st.results[st.index] else st.results[0];
        (Select(st, stock), Some(stock))
      case Escape => (st.(show := false, index := -1), None)
      case Other(_) => (st, None)
  }

  /** ArrowDown moves down one place but never past the last result. */
  lemma ArrowDownBounded(st: State)
    requires Valid(st) && st.show && |st.results| > 0
    ensures var i := KeyDown(st, ArrowDown).0.index;
      i < |st.results| && (st.index < |st.results| - 1 ==> i == st.index + 1)
      && (st.index == |st.results| - 1 ==> i == st.index)
  {
  }

  /** ArrowUp moves up one place but never above -1. */
  lemma ArrowUpBounded(st: State)
    requires Valid(st) && st.show && |st.results| > 0
    ensures var i := KeyDown(st, ArrowUp).0.index;
      i >= -1 && (st.index > 0 ==> i == st.index - 1) && (st.index <= 0 ==> i == -1)
  {
  }

  /** Enter picks the highlighted result, or the first when nothing is
      highlighted; and it always picks something while results are shown. */
  lemma EnterPicks(st: State)
    requires Valid(st) && st.show && |st.results| > 0
    ensures var (after, picked) := KeyDown(st, Enter);
      && picked.Some?
      && picked.value == (if st.index >= 0 then st.results[st.index] else st.results[0])
      && after.term == picked.value.symbol && !after.show && after.index == -1
  {
  }

  // ---------------------------------------------------------------------------
  // Mouse

  /** `onMouseEnter` on the row at `position`: the row under the pointer
      becomes the highlight. Rows are rendered only while the list is shown
      and has results, so elsewhere there is nothing to hover. */
  function Hover(st: State, position: nat): (r: State)
    ensures r.term == st.term && r.results == st.results && r.show == st.show
    ensures st.show && position < |st.results| ==> r.index == position
    ensures !(st.show && position < |st.results|) ==> r == st
    ensures Valid(st) ==> Valid(r)
  {
    if st.show && position < |st.results| then st.(index := position) else st
  }

  /** Hovering a row and pressing Enter picks that row. */
  lemma HoverThenEnterPicks(st: State, position: nat)
    requires st.show && position < |st.results|
    ensures KeyDown(Hover(st, position), Enter) == (Select(st, st.results[position]), Some(st.results[position]))
  {
  }

  // ---------------------------------------------------------------------------
  // Focus

  /** A click shows the results again when there are any. */
  function Click(st: State): (r: State)
    ensures r.results == st.results && r.index == st.index && r.term == st.term
    ensures r.show <==> st.show || |st.results| > 0
  {
    if |st.results| > 0 then st.(show := true) else st
  }

  /** Leaving the input closes the list unless the focus moved into it. */
  function Blur(st: State, focusInList: bool): (r: State)
    ensures focusInList ==> r == st
    ensures !focusInList ==> r == st.(show := false, index := -1)
  {
    if focusInList then st else st.(show := false, index := -1)
  }

  // ---------------------------------------------------------------------------
  // Every sequence of events

  datatype Event =
    | Typed(term: string)
    | Settled(reply: Option<seq<Stock>>)
    | Pressed(key: Key)
    | Clicked
    | Blurred(focusInList: bool)
    | Picked(position: nat)
    | Hovered(position: nat)

  /** One event: the state after it and the stock it selects. A settled
      search hands its reply to `Received`. A mouse pick
      or hover names a position of the shown list and does nothing when
      there is none there. */
  function Step(st: State, e: Event): (State, Option<Stock>) {
    match e
    case Typed(t) => (Type(st, t), None)
    case Settled(reply) => (Settle(st, Received(reply)), None)
    case Pressed(k) => KeyDown(st, k)
    case Clicked => (Click(st), None)
    case Blurred(f) => (Blur(st, f), None)
    case Picked(p) =>
      if st.show && p < |st.results| then (Select(st, st.results[p]), Some(st.results[p])) else (st, None)
    case Hovered(p) => (Hover(st, p), None)
  }

  /** One event keeps the highlight within bounds, and whatever it selects
      was among the results on show. */
  lemma StepKeepsValid(st: State, e: Event)
    requires Valid(st)
    ensures Valid(Step(st, e).0)
    ensures Step(st, e).1.Some? ==> st.show && Step(st, e).1.value in st.results
  {
  }

  function Run(st: State, events: seq<Event>): State
    decreases |events|
  {
    if |events| == 0 then st else Run(Step(st, events[0]).0, events[1..])
  }

  /** From the initial state, the highlight stays between -1 and the last
      result whatever the user does. */
  lemma {:induction false} RunKeepsValid(st: State, events: seq<Event>)
    requires Valid(st)
    ensures Valid(Run(st, events))
    decreases |events|
  {
    if |events| > 0 {
      StepKeepsValid(st, events[0]);
      RunKeepsValid(Step(st, events[0]).0, events[1..]);
    }
  }

  /** As the service stands, no event shows a list or selects a stock:
      every search ends in the catch branch, so the results stay empty and
      every key is ignored. */
  lemma QuietStep(st: State, e: Event)
    requires st.results == [] && !st.show
    ensures var (after, picked) := Step(st, e);
      after.results == [] && !after.show && picked.None?
  {
    ApiService.MissingMethods();
  }

  /** From the initial state, whatever the user types, clicks or presses,
      the list stays empty and hidden and the keys do nothing. */
  lemma {:induction false} SearchNeverShows(st: State, events: seq<Event>)
    requires st.results == [] && !st.show
    ensures var last := Run(st, events);
      && last.results == [] && !last.show
      && forall k :: KeyDown(last, k) == (last, None)
    decreases |events|
  {
    if |events| > 0 {
      QuietStep(st, events[0]);
      SearchNeverShows(Step(st, events[0]).0, events[1..]);
    }
  }
}
