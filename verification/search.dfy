/** Company search of `search.py`: the sector emoji table, market-cap
    formatting, and `search_stocks_by_name` written as a pure ranking of the
    rows of `nasdaq_companies`. SQL comparisons follow a case-insensitive
    collation, modelled by upper-casing both sides. */
module Search {
  import opened Wrappers
  import opened Text
  import opened Seqs

  // ---------------------------------------------------------------------------
  // Emoji and market cap

  const DefaultEmoji: string := "\U{1F4C8}"

  const SectorEmojis: map<string, string> := map[
    "Technology" := "\U{1F4BB}",
    "Health Care" := "\U{1F3E5}",
    "Finance" := "\U{1F4B0}",
    "Consumer Discretionary" := "\U{1F6CD}\U{FE0F}",
    "Consumer Staples" := "\U{1F6D2}",
    "Industrials" := "\U{1F3ED}",
    "Basic Materials" := "\U{2697}\U{FE0F}",
    "Energy" := "\U{26A1}",
    "Real Estate" := "\U{1F3E0}",
    "Utilities" := "\U{2699}\U{FE0F}",
    "Communication Services" := "\U{1F4E1}",
    "Telecommunications" := "\U{1F4DE}"]

  /** `get_sector_emoji`: total, with the chart emoji for any sector not in
      the table. */
  function SectorEmoji(sector: string): (e: string)
    ensures sector in SectorEmojis ==> e == SectorEmojis[sector]
    ensures sector !in SectorEmojis ==> e == DefaultEmoji
    ensures |e| > 0
  {
    if sector in SectorEmojis then SectorEmojis[sector] else DefaultEmoji
  }

  /** Three digits with leading zeros. */
  function Pad3(r: nat): (s: string)
    requires r < 1000
    ensures |s| == 3 && AllDigits(s)
  {
    [DigitChar(r / 100), DigitChar(r / 10 % 10), DigitChar(r % 10)]
  }

  /** `f"{n:,}"` for a non-negative `n`: digits grouped by three with
      commas. */
  function Grouped(n: nat): (s: string)
    ensures |s| > 0 && IsDigit(s[0]) && IsDigit(s[|s| - 1])
    decreases n
  {
    if n < 1000 then FormatNat(n) else Grouped(n / 1000) + "," + Pad3(n % 1000)
  }

  /** `f"{n:,}"` for any integer. */
  function GroupedInt(n: int): (s: string)
    ensures |s| > 0 && IsDigit(s[|s| - 1])
  {
    if n < 0 then "-" + Grouped(-n) else Grouped(n)
  }

  function RemoveCommas(s: string): string
    decreases |s|
  {
    if |s| == 0 then "" else (if s[0] == ',' then "" else [s[0]]) + RemoveCommas(s[1..])
  }

  lemma {:induction false} RemoveCommasConcat(a: string, b: string)
    ensures RemoveCommas(a + b) == RemoveCommas(a) + RemoveCommas(b)
    decreases |a|
  {
    if |a| == 0 {
      assert a + b == b;
    } else {
      assert (a + b)[1..] == a[1..] + b;
      RemoveCommasConcat(a[1..], b);
    }
  }

  lemma {:induction false} RemoveCommasOfDigits(s: string)
    requires AllDigits(s)
    ensures RemoveCommas(s) == s
    decreases |s|
  {
    if |s| > 0 {
      RemoveCommasOfDigits(s[1..]);
    }
  }

  /** The last three digits of `n` are its units, tens and hundreds. */
  lemma ThousandsDigits(n: nat)
    ensures n / 10 / 10 / 10 == n / 1000
    ensures n % 1000 / 100 == n / 10 / 10 % 10
    ensures n % 1000 / 10 % 10 == n / 10 % 10
    ensures n % 1000 % 10 == n % 10
  {
    var c := n / 1000;
    var r := n % 1000;
    assert n == 1000 * c + r;
    assert n / 10 == 100 * c + r / 10;
    assert n / 10 / 10 == 10 * c + r / 100;
  }

  /** The decimal text of `n` is that of `n / 1000` followed by the last
      three digits. */
  lemma FormatNatThousands(n: nat)
    requires n >= 1000
    ensures FormatNat(n) == FormatNat(n / 1000) + Pad3(n % 1000)
  {
    ThousandsDigits(n);
    var a := n / 10;
    var b := a / 10;
    var c := b / 10;
    assert FormatNat(n) == FormatNat(a) + [DigitChar(n % 10)];
    assert FormatNat(a) == FormatNat(b) + [DigitChar(a % 10)];
    assert FormatNat(b) == FormatNat(c) + [DigitChar(b % 10)];
  }

  /** Removing the commas of the grouped text gives the plain digits. */
  lemma {:induction false} GroupedDigits(n: nat)
    ensures RemoveCommas(Grouped(n)) == FormatNat(n)
    decreases n
  {
    if n < 1000 {
      RemoveCommasOfDigits(FormatNat(n));
    } else {
      GroupedDigits(n / 1000);
      RemoveCommasConcat(Grouped(n / 1000) + ",", Pad3(n % 1000));
      RemoveCommasConcat(Grouped(n / 1000), ",");
      RemoveCommasOfDigits(Pad3(n % 1000));
      FormatNatThousands(n);
    }
  }

  const Trillion: int := 1_000_000_000_000
  const Billion: int := 1_000_000_000
  const Million: int := 1_000_000

  /** `format_market_cap`. `fixed1` is the `:.1f` rendering of a float,
      whose rounding is not modelled. */
  function FormatMarketCap(cap: int, fixed1: real -> string): (s: string)
    ensures cap == 0 ==> s == "N/A"
    ensures cap != 0 ==> |s| > 1 && s[0] == '$'
  {
    if cap == 0 then "N/A"
    else if cap >= Trillion then "$" + fixed1(cap as real / Trillion as real) + "T"
    else if cap >= Billion then "$" + fixed1(cap as real / Billion as real) + "B"
    else if cap >= Million then "$" + fixed1(cap as real / Million as real) + "M"
    else "$" + GroupedInt(cap)
  }

  /** The unit letter names the range of the cap: T from a trillion, B from
      a billion, M from a million, and none (a digit) below. */
  lemma MarketCapUnit(cap: int, fixed1: real -> string)
    requires cap != 0
    ensures var s := FormatMarketCap(cap, fixed1);
      && (s[|s| - 1] == 'T' <==> cap >= Trillion)
      && (s[|s| - 1] == 'B' <==> Billion <= cap < Trillion)
      && (s[|s| - 1] == 'M' <==> Million <= cap < Billion)
      && (IsDigit(s[|s| - 1]) <==> cap < Million)
  {
  }

  // ---------------------------------------------------------------------------
  // Ranking

  /** A row of `nasdaq_companies`. */
  datatype Company = Company(symbol: string, name: string, sector: Option<string>, marketCap: Option<int>)

  datatype Ranked = Ranked(company: Company, priority: nat)

  /** SQL `s LIKE p`: `%` in the pattern stands for any run of characters,
      `_` for any one character, and every other character for itself. */
  predicate LikeMatch(s: string, p: string)
    decreases |s| + |p|
  {
    if |p| == 0 then |s| == 0
    else if p[0] == '%' then LikeMatch(s, p[1..]) || (|s| > 0 && LikeMatch(s[1..], p))
    else |s| > 0 && (p[0] == '_' || p[0] == s[0]) && LikeMatch(s[1..], p[1..])
  }

  /** `LIKE` under a case-insensitive collation. */
  predicate Like(s: string, pattern: string) {
    LikeMatch(Upper(s), Upper(pattern))
  }

  /** The query text the statement uses: stripped, upper-cased for the
      symbol tests. */
  function Term(query: string): string {
    Strip(Python, query)
  }

  /** `Symbol = q`, where `q` is the upper-cased query. */
  predicate ExactSymbol(c: Company, query: string) {
    Upper(c.symbol) == Upper(Term(query))
  }

  /** `Symbol LIKE 'q%'`. */
  predicate SymbolStarts(c: Company, query: string) {
    Like(c.symbol, Upper(Term(query)) + "%")
  }

  /** `Symbol LIKE '%q%'`. */
  predicate SymbolContains(c: Company, query: string) {
    Like(c.symbol, "%" + Upper(Term(query)) + "%")
  }

  /** `Name LIKE '%query%'`. */
  predicate NameContains(c: Company, query: string) {
    Like(c.name, "%" + Term(query) + "%")
  }

  /** The WHERE clause: the symbol contains the upper-cased query or the
      name contains the query. */
  predicate Matches(c: Company, query: string) {
    SymbolContains(c, query) || NameContains(c, query)
  }

  /** The CASE expression: 1 for the exact symbol, 2 for a symbol starting
      with the query, 3 for a name containing it, else 4. */
  function Priority(c: Company, query: string): (p: nat)
    ensures 1 <= p <= 4
    ensures p == 1 <==> ExactSymbol(c, query)
    ensures p == 2 <==> !ExactSymbol(c, query) && SymbolStarts(c, query)
    ensures p == 3 <==> !ExactSymbol(c, query) && !SymbolStarts(c, query) && NameContains(c, query)
    ensures p == 4 <==> !ExactSymbol(c, query) && !SymbolStarts(c, query) && !NameContains(c, query)
  {
    if ExactSymbol(c, query) then 1
    else if SymbolStarts(c, query) then 2
    else if NameContains(c, query) then 3
    else 4
  }

  /** A pattern without `%` or `_`, which `LIKE` reads literally. */
  predicate NoWildcards(w: string) {
    forall i :: 0 <= i < |w| ==> w[i] != '%' && w[i] != '_'
  }

  /** `%` alone matches anything. */
  lemma {:induction false} LikeAnyTail(s: string)
    ensures LikeMatch(s, "%")
    decreases |s|
  {
    assert "%"[1..] == "";
    if |s| > 0 {
      LikeAnyTail(s[1..]);
    }
  }

  /** A trailing `%` keeps every match. */
  lemma {:induction false} LikeExtend(s: string, p: string)
    requires LikeMatch(s, p)
    ensures LikeMatch(s, p + "%")
    decreases |s| + |p|
  {
    if |p| == 0 {
      assert p + "%" == "%";
      LikeAnyTail(s);
    } else {
      assert (p + "%")[0] == p[0] && (p + "%")[1..] == p[1..] + "%";
      if p[0] == '%' {
        if LikeMatch(s, p[1..]) {
          LikeExtend(s, p[1..]);
        } else {
          LikeExtend(s[1..], p);
        }
      } else {
        LikeExtend(s[1..], p[1..]);
      }
    }
  }

  /** Every text matches itself as a pattern: `%` and `_` match themselves
      too. */
  lemma {:induction false} LikeSelf(x: string)
    ensures LikeMatch(x, x)
    decreases |x|
  {
    if |x| > 0 {
      LikeSelf(x[1..]);
    }
  }

  /** Every text matches itself wrapped in `%`. */
  lemma LikeSurrounded(x: string)
    ensures LikeMatch(x, "%" + x + "%")
  {
    var p := "%" + x + "%";
    assert p[0] == '%' && p[1..] == x + "%";
    LikeSelf(x);
    LikeExtend(x, x);
  }

  lemma StartsWithCons(s: string, w: string)
    requires |s| > 0 && |w| > 0
    ensures StartsWith(s, w) <==> s[0] == w[0] && StartsWith(s[1..], w[1..])
  {
    if |w| <= |s| {
      assert s[..|w|] == [s[0]] + s[1..][..|w| - 1];
      assert w == [w[0]] + w[1..];
    }
  }

  /** Without wildcards, `s LIKE 'w%'` is a prefix test. */
  lemma {:induction false} LikePrefix(s: string, w: string)
    requires NoWildcards(w)
    ensures LikeMatch(s, w + "%") <==> StartsWith(s, w)
    decreases |w|
  {
    if |w| == 0 {
      assert w + "%" == "%";
      LikeAnyTail(s);
      assert s[..0] == w;
    } else {
      var p := w + "%";
      assert p[0] == w[0] && p[1..] == w[1..] + "%";
      LikePrefix(if |s| > 0 then s[1..] else s, w[1..]);
      if |s| > 0 {
        StartsWithCons(s, w);
      }
    }
  }

  lemma ContainsStep(s: string, w: string)
    ensures Contains(s, w) <==> StartsWith(s, w) || (|s| > 0 && Contains(s[1..], w))
  {
    if Contains(s, w) {
      var i :| 0 <= i <= |s| && OccursAt(s, w, i);
      if i > 0 {
        assert s[1..][i - 1..i - 1 + |w|] == s[i..i + |w|];
        assert OccursAt(s[1..], w, i - 1);
      } else {
        assert s[..|w|] == s[0..|w|];
      }
    }
    if StartsWith(s, w) {
      assert s[0..|w|] == s[..|w|];
      assert OccursAt(s, w, 0);
    } else if |s| > 0 && Contains(s[1..], w) {
      var j :| 0 <= j <= |s[1..]| && OccursAt(s[1..], w, j);
      assert s[j + 1..j + 1 + |w|] == s[1..][j..j + |w|];
      assert OccursAt(s, w, j + 1);
    }
  }

  /** Without wildcards, `s LIKE '%w%'` is a substring test. */
  lemma {:induction false} LikeInside(s: string, w: string)
    requires NoWildcards(w)
    ensures LikeMatch(s, "%" + w + "%") <==> Contains(s, w)
    decreases |s|
  {
    var p := "%" + w + "%";
    assert p[0] == '%' && p[1..] == w + "%";
    LikePrefix(s, w);
    ContainsStep(s, w);
    if |s| > 0 {
      LikeInside(s[1..], w);
    }
  }

  lemma UpperConcat(a: string, b: string)
    ensures Upper(a + b) == Upper(a) + Upper(b)
  {
  }

  /** The patterns built from a term, upper-cased: `%` is not a letter. */
  lemma UpperPatterns(t: string)
    ensures Upper(Upper(t) + "%") == Upper(t) + "%"
    ensures Upper("%" + Upper(t) + "%") == "%" + Upper(t) + "%"
    ensures Upper("%" + t + "%") == "%" + Upper(t) + "%"
  {
    var u := Upper(t);
    UpperIdempotent(t);
    UpperConcat(u, "%");
    UpperConcat("%" + u, "%");
    UpperConcat("%", u);
    UpperConcat("%" + t, "%");
    UpperConcat("%", t);
  }

  lemma NoWildcardsUpper(t: string)
    requires NoWildcards(t)
    ensures NoWildcards(Upper(t))
  {
  }

  /** For a query without `%` or `_` the four ranks are the plain tests:
      the symbol equals the query, starts with it, or the name contains
      it, all ignoring case. */
  lemma PlainQueryRanks(c: Company, query: string)
    requires NoWildcards(Term(query))
    ensures var u := Upper(Term(query));
      && (SymbolStarts(c, query) <==> StartsWith(Upper(c.symbol), u))
      && (SymbolContains(c, query) <==> Contains(Upper(c.symbol), u))
      && (NameContains(c, query) <==> Contains(Upper(c.name), u))
  {
    var u := Upper(Term(query));
    NoWildcardsUpper(Term(query));
    UpperPatterns(Term(query));
    LikePrefix(Upper(c.symbol), u);
    LikeInside(Upper(c.symbol), u);
    LikeInside(Upper(c.name), u);
  }

  lemma UnderscoreLike()
    ensures LikeMatch("ABC", "%A_C%")
  {
    LikeAnyTail("");
    assert LikeMatch("C", "C%") by {
      assert "C%"[1..] == "%" && "C"[1..] == "";
    }
    assert LikeMatch("BC", "_C%") by {
      assert "_C%"[1..] == "C%" && "BC"[1..] == "C";
    }
    assert LikeMatch("ABC", "A_C%") by {
      assert "A_C%"[1..] == "_C%" && "ABC"[1..] == "BC";
    }
    assert "%A_C%"[1..] == "A_C%";
  }

  lemma UnderscoreNotText()
    ensures !Contains("ABC", "A_C")
  {
    forall i | 0 <= i <= 3
      ensures !OccursAt("ABC", "A_C", i)
    {
      if i == 0 {
        assert "ABC"[0..3][1] == 'B';
      }
    }
  }

  lemma UnderscoreTerm()
    ensures Term("A_C") == "A_C"
  {
    assert !IsSpace(Python, 'A') && !IsSpace(Python, 'C');
    StripUnpadded(Python, "A_C");
  }

  lemma UnderscorePattern()
    ensures Upper("%" + Upper("A_C") + "%") == "%A_C%"
  {
    var u := Upper("A_C");
    assert u == "A_C" by {
      assert u[0] == UpperChar('A') && u[1] == UpperChar('_') && u[2] == UpperChar('C');
    }
    var p := Upper("%" + u + "%");
    assert "%" + u + "%" == "%A_C%";
    assert p[0] == UpperChar('%') && p[1] == UpperChar('A') && p[2] == UpperChar('_');
    assert p[3] == UpperChar('C') && p[4] == UpperChar('%');
  }

  lemma UnderscoreSymbol()
    ensures Upper("ABC") == "ABC"
  {
    var sym := Upper("ABC");
    assert sym[0] == UpperChar('A') && sym[1] == UpperChar('B') && sym[2] == UpperChar('C');
  }

  /** `_` in a query matches any character: "A_C" finds the symbol "ABC",
      which does not contain the text "A_C". */
  lemma UnderscoreMatchesAnyCharacter()
    ensures Matches(Company("ABC", "", None, None), "A_C")
    ensures !Contains("ABC", "A_C")
  {
    var c := Company("ABC", "", None, None);
    UnderscoreTerm();
    UnderscorePattern();
    UnderscoreSymbol();
    UnderscoreLike();
    assert Like(c.symbol, "%" + Upper(Term("A_C")) + "%");
    assert SymbolContains(c, "A_C");
    UnderscoreNotText();
  }

  /** `MarketCap DESC` puts NULL last. */
  predicate CapAtLeast(x: Option<int>, y: Option<int>) {
    y.None? || (x.Some? && x.value >= y.value)
  }

  /** `ORDER BY priority ASC, MarketCap DESC`: `a` may come before `b`. */
  predicate Precedes(a: Ranked, b: Ranked) {
    a.priority < b.priority || (a.priority == b.priority && CapAtLeast(a.company.marketCap, b.company.marketCap))
  }

  predicate Sorted(s: seq<Ranked>) {
    forall i, j :: 0 <= i < j < |s| ==> Precedes(s[i], s[j])
  }

  /** Places `x` before the first element it may precede. */
  function Insert(x: Ranked, s: seq<Ranked>): (r: seq<Ranked>)
    requires Sorted(s)
    ensures multiset(r) == multiset(s) + multiset{x}
    ensures Sorted(r)
    decreases |s|
  {
    if |s| == 0 then [x]
    else if Precedes(x, s[0]) then
      InsertFront(x, s);
      [x] + s
    else
      var rest := Insert(x, s[1..]);
      assert s == [s[0]] + s[1..];
      InsertLater(x, s, rest);
      [s[0]] + rest
  }

  lemma PrecedesTransitive(a: Ranked, b: Ranked, c: Ranked)
    requires Precedes(a, b) && Precedes(b, c)
    ensures Precedes(a, c)
  {
  }

  /** Any two rows can be ordered one way or the other. */
  lemma PrecedesTotal(a: Ranked, b: Ranked)
    ensures Precedes(a, b) || Precedes(b, a)
  {
  }

  lemma InsertFront(x: Ranked, s: seq<Ranked>)
    requires Sorted(s) && |s| > 0 && Precedes(x, s[0])
    ensures Sorted([x] + s)
  {
    var r := [x] + s;
    forall i, j | 0 <= i < j < |r| ensures Precedes(r[i], r[j]) {
      if i == 0 {
        if j > 1 {
          PrecedesTransitive(x, s[0], s[j - 1]);
        }
      } else {
        assert r[i] == s[i - 1] && r[j] == s[j - 1];
      }
    }
  }

  lemma InsertLater(x: Ranked, s: seq<Ranked>, rest: seq<Ranked>)
    requires Sorted(s) && |s| > 0 && !Precedes(x, s[0])
    requires Sorted(rest) && multiset(rest) == multiset(s[1..]) + multiset{x}
    ensures Sorted([s[0]] + rest)
  {
    var r := [s[0]] + rest;
    PrecedesTotal(x, s[0]);
    forall i, j | 0 <= i < j < |r| ensures Precedes(r[i], r[j]) {
      if i == 0 {
        var y := rest[j - 1];
        assert y in multiset(rest);
        if y != x {
          assert y in multiset(s[1..]);
          assert y in s[1..];
          var k :| 0 <= k < |s[1..]| && s[1..][k] == y;
          assert s[k + 1] == y;
        }
      } else {
        assert r[i] == rest[i - 1] && r[j] == rest[j - 1];
      }
    }
  }

  /** Insertion sort by `Precedes`; rows that tie keep their table order. */
  function Sort(s: seq<Ranked>): (r: seq<Ranked>)
    ensures multiset(r) == multiset(s)
    ensures Sorted(r)
    decreases |s|
  {
    if |s| == 0 then []
    else
      assert s == [s[0]] + s[1..];
      Insert(s[0], Sort(s[1..]))
  }

  /** The matching rows with their priorities, in table order. */
  function RankedMatches(table: seq<Company>, query: string): (r: seq<Ranked>)
    ensures |r| <= |table|
    decreases |table|
  {
    if |table| == 0 then []
    else
      var c := table[0];
      var rest := RankedMatches(table[1..], query);
      if Matches(c, query) then [Ranked(c, Priority(c, query))] + rest else rest
  }

  /** `x` is a matching row of the table with the priority the CASE
      expression gives it. */
  predicate IsRankedMatch(x: Ranked, table: seq<Company>, query: string) {
    x.company in table && Matches(x.company, query) && x.priority == Priority(x.company, query)
  }

  /** The ranked matches are exactly the matching rows, each with its
      priority. */
  lemma {:induction false} RankedMatchesExact(table: seq<Company>, query: string)
    ensures var r := RankedMatches(table, query);
      && (forall i :: 0 <= i < |r| ==> IsRankedMatch(r[i], table, query))
      && (forall c :: c in table && Matches(c, query) ==> Ranked(c, Priority(c, query)) in r)
    decreases |table|
  {
    if |table| > 0 {
      var c := table[0];
      var rest := RankedMatches(table[1..], query);
      RankedMatchesExact(table[1..], query);
      var r := RankedMatches(table, query);
      forall i | 0 <= i < |rest| ensures IsRankedMatch(rest[i], table, query) {
        assert rest[i].company in table[1..];
      }
      if Matches(c, query) {
        RankedStep(Ranked(c, Priority(c, query)), rest, table, query);
      }
      forall d | d in table && Matches(d, query) ensures Ranked(d, Priority(d, query)) in r {
        if d != c {
          assert d in table[1..];
        }
      }
    }
  }

  lemma RankedStep(x: Ranked, rest: seq<Ranked>, table: seq<Company>, query: string)
    requires IsRankedMatch(x, table, query)
    requires forall i :: 0 <= i < |rest| ==> IsRankedMatch(rest[i], table, query)
    ensures forall i :: 0 <= i < |[x] + rest| ==> IsRankedMatch(([x] + rest)[i], table, query)
  {
    var r := [x] + rest;
    forall i | 0 <= i < |r| ensures IsRankedMatch(r[i], table, query) {
      if i > 0 {
        assert r[i] == rest[i - 1];
      }
    }
  }

  /** One formatted result row. */
  datatype Listing = Listing(
    symbol: string,
    name: string,
    sector: string,
    marketCap: int,
    marketCapFormatted: string,
    sectorEmoji: string,
    displayName: string)

  /** The formatting loop: a NULL or empty sector becomes 'Other' and a
      NULL or zero market cap becomes 0. */
  function ListingOf(c: Company, fixed1: real -> string): (l: Listing)
    ensures l.symbol == c.symbol && l.name == c.name
    ensures l.sector == (if c.sector.Some? && c.sector.value != "" then c.sector.value else "Other")
    ensures l.marketCap == c.marketCap.GetOr(0)
    ensures l.sectorEmoji == SectorEmoji(l.sector)
    ensures l.displayName == l.sectorEmoji + " " + c.name
    ensures l.marketCapFormatted == FormatMarketCap(l.marketCap, fixed1)
  {
    var sector := if c.sector.Some? && c.sector.value != "" then c.sector.value else "Other";
    var cap := if c.marketCap.Some? then c.marketCap.value else 0;
    Listing(c.symbol, c.name, sector, cap, FormatMarketCap(cap, fixed1), SectorEmoji(sector),
      SectorEmoji(sector) + " " + c.name)
  }

  /** The rows `LIMIT` keeps, ranked. */
  function Ranking(table: seq<Company>, query: string, limit: nat): seq<Ranked> {
    Take(Sort(RankedMatches(table, query)), limit)
  }

  /** `search_stocks_by_name`: nothing for a query shorter than two
      characters once stripped, nothing for a negative limit (the database
      rejects it and the error is swallowed), else the first `limit` ranked
      matches, formatted. */
  function SearchStocks(table: seq<Company>, query: string, limit: int, fixed1: real -> string): (r: seq<Listing>)
    ensures |Strip(Python, query)| < 2 || limit < 0 ==> r == []
    ensures limit >= 0 ==> |r| <= limit
    ensures |Strip(Python, query)| >= 2 && limit >= 0 ==>
      var ranked := Ranking(table, query, limit);
      |r| == |ranked| && forall i :: 0 <= i < |r| ==> r[i] == ListingOf(ranked[i].company, fixed1)
  {
    if |Strip(Python, query)| < 2 || limit < 0 then []
    else
      var ranked := Ranking(table, query, limit);
      seq(|ranked|, i requires 0 <= i < |ranked| => ListingOf(ranked[i].company, fixed1))
  }

  /** The results are matching rows of the table, ordered by priority and
      then by market cap, drawn from all the matches without repetition. */
  lemma RankingIsSortedSelection(table: seq<Company>, query: string, limit: nat)
    ensures var r := Ranking(table, query, limit);
      && Sorted(r)
      && multiset(r) <= multiset(RankedMatches(table, query))
      && (forall i :: 0 <= i < |r| ==> r[i].company in table && Matches(r[i].company, query))
      && |r| == Min(limit, |RankedMatches(table, query)|)
  {
    var all := RankedMatches(table, query);
    var sorted := Sort(all);
    var r := Ranking(table, query, limit);
    assert r == sorted[..|r|];
    PrefixSubMultiset(sorted, |r|);
    SelectionKeepsMatches(table, query, r);
  }

  /** Rows drawn from the ranked matches are ranked matches. */
  lemma SelectionKeepsMatches(table: seq<Company>, query: string, r: seq<Ranked>)
    requires multiset(r) <= multiset(RankedMatches(table, query))
    ensures forall i :: 0 <= i < |r| ==> IsRankedMatch(r[i], table, query)
  {
    var all := RankedMatches(table, query);
    RankedMatchesExact(table, query);
    forall i | 0 <= i < |r| ensures IsRankedMatch(r[i], table, query) {
      assert r[i] in multiset(r);
      MultisetMember(all, r[i]);
      var k :| 0 <= k < |all| && all[k] == r[i];
    }
  }

  lemma PrefixSubMultiset<T>(s: seq<T>, k: nat)
    requires k <= |s|
    ensures multiset(s[..k]) <= multiset(s)
  {
    assert s == s[..k] + s[k..];
  }

  /** An element of a sequence's multiset sits at some index. */
  lemma MultisetMember<T>(s: seq<T>, x: T)
    requires x in multiset(s)
    ensures exists k :: 0 <= k < |s| && s[k] == x
  {
    assert x in s;
  }

  /** When a row's symbol equals the query (ignoring case) and the limit
      admits a row, the first result is such a row. */
  lemma ExactSymbolFirst(table: seq<Company>, query: string, limit: nat, c: Company)
    requires c in table && Upper(c.symbol) == Upper(Strip(Python, query)) && limit > 0
    ensures var r := Ranking(table, query, limit);
      |r| > 0 && Upper(r[0].company.symbol) == Upper(Strip(Python, query))
  {
    var all := RankedMatches(table, query);
    var sorted := Sort(all);
    var r := Ranking(table, query, limit);
    ExactMatchListed(table, query, c);
    assert Ranked(c, 1) in multiset(sorted);
    SelectionKeepsMatches(table, query, sorted);
    FirstOfSorted(sorted, Ranked(c, 1), table, query);
    assert r == sorted[..|r|];
  }

  /** A row whose symbol is the query is a match of priority 1. */
  lemma ExactMatchListed(table: seq<Company>, query: string, c: Company)
    requires c in table && Upper(c.symbol) == Upper(Strip(Python, query))
    ensures Ranked(c, 1) in RankedMatches(table, query)
  {
    UpperPatterns(Term(query));
    LikeSurrounded(Upper(Term(query)));
    assert SymbolContains(c, query);
    RankedMatchesExact(table, query);
  }

  /** In a sorted list of ranked matches holding a row of priority 1, the
      first row has priority 1. */
  lemma FirstOfSorted(s: seq<Ranked>, x: Ranked, table: seq<Company>, query: string)
    requires Sorted(s) && x in multiset(s) && x.priority == 1
    requires forall i :: 0 <= i < |s| ==> IsRankedMatch(s[i], table, query)
    ensures |s| > 0 && s[0].priority == 1
  {
    assert x in s;
    var k :| 0 <= k < |s| && s[k] == x;
    if k > 0 {
      assert Precedes(s[0], s[k]);
    }
    assert IsRankedMatch(s[0], table, query);
  }
}
