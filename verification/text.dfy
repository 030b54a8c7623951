/** Character and string helpers shared by the backend (Python) and the
    client (JavaScript) parts of the model. Case mapping and whitespace are
    the ASCII parts of the languages' Unicode rules. */
module Text {
  import opened Wrappers

  predicate IsDigit(c: char) {
    '0' <= c <= '9'
  }

  function DigitValue(c: char): (d: nat)
    requires IsDigit(c)
    ensures d < 10
  {
    (c as int - '0' as int) as nat
  }

  function DigitChar(d: nat): (c: char)
    requires d < 10
    ensures IsDigit(c) && DigitValue(c) == d
  {
    ('0' as int + d) as char
  }

  predicate AllDigits(s: string) {
    forall i :: 0 <= i < |s| ==> IsDigit(s[i])
  }

  // ---------------------------------------------------------------------------
  // Case mapping (`str.upper()`, `toUpperCase()`, `toLowerCase()`)

  function UpperChar(c: char): char {
    if 'a' <= c <= 'z' then (c as int - 32) as char else c
  }

  function LowerChar(c: char): char {
    if 'A' <= c <= 'Z' then (c as int + 32) as char else c
  }

  function Upper(s: string): (r: string)
    ensures |r| == |s|
    ensures forall i :: 0 <= i < |s| ==> r[i] == UpperChar(s[i])
  {
    seq(|s|, i requires 0 <= i < |s| => UpperChar(s[i]))
  }

  function Lower(s: string): (r: string)
    ensures |r| == |s|
    ensures forall i :: 0 <= i < |s| ==> r[i] == LowerChar(s[i])
  {
    seq(|s|, i requires 0 <= i < |s| => LowerChar(s[i]))
  }

  /** No character of `s` is a lower-case ASCII letter. */
  predicate IsUpper(s: string) {
    forall i :: 0 <= i < |s| ==> !('a' <= s[i] <= 'z')
  }

  lemma UpperIsUpper(s: string)
    ensures IsUpper(Upper(s))
  {
  }

  /** Upper-casing an already upper-case string changes nothing, so doing it
      twice is the same as doing it once. */
  lemma UpperIdempotent(s: string)
    ensures IsUpper(s) ==> Upper(s) == s
    ensures Upper(Upper(s)) == Upper(s)
  {
  }

  // ---------------------------------------------------------------------------
  // Whitespace and stripping

  datatype Language = Python | JavaScript

  /** ASCII whitespace as `str.strip()` (Python) and `String.prototype.trim`
      (JavaScript) see it: space and the controls 0x09-0x0D; Python also
      strips the separators 0x1C-0x1F. */
  predicate IsSpace(lang: Language, c: char) {
    || c == ' ' || (9 <= c as int <= 13)
    || (lang == Python && 28 <= c as int <= 31)
  }

  function TrimLeft(lang: Language, s: string): (r: string)
    ensures |r| <= |s| && r == s[|s| - |r|..]
    ensures |r| > 0 ==> !IsSpace(lang, r[0])
    ensures forall i :: 0 <= i < |s| - |r| ==> IsSpace(lang, s[i])
    decreases |s|
  {
    if |s| > 0 && IsSpace(lang, s[0]) then TrimLeft(lang, s[1..]) else s
  }

  function TrimRight(lang: Language, s: string): (r: string)
    ensures |r| <= |s| && r == s[..|r|]
    ensures |r| > 0 ==> !IsSpace(lang, r[|r| - 1])
    ensures forall i :: |r| <= i < |s| ==> IsSpace(lang, s[i])
    decreases |s|
  {
    if |s| > 0 && IsSpace(lang, s[|s| - 1]) then TrimRight(lang, s[..|s| - 1]) else s
  }

  /** `s.strip()` in Python, `s.trim()` in JavaScript. */
  function Strip(lang: Language, s: string): (r: string)
    ensures |r| <= |s|
    ensures |r| > 0 ==> !IsSpace(lang, r[0]) && !IsSpace(lang, r[|r| - 1])
  {
    TrimRight(lang, TrimLeft(lang, s))
  }

  /** A string with no surrounding whitespace is its own strip. */
  lemma StripUnpadded(lang: Language, s: string)
    requires |s| > 0 ==> !IsSpace(lang, s[0]) && !IsSpace(lang, s[|s| - 1])
    ensures Strip(lang, s) == s
  {
  }

  /** `s.rstrip(c)`: drops every trailing copy of `c`. */
  function RStrip(s: string, c: char): (r: string)
    ensures |r| <= |s| && r == s[..|r|]
    ensures |r| > 0 ==> r[|r| - 1] != c
    ensures forall i :: |r| <= i < |s| ==> s[i] == c
    decreases |s|
  {
    if |s| > 0 && s[|s| - 1] == c then RStrip(s[..|s| - 1], c) else s
  }

  // ---------------------------------------------------------------------------
  // Searching

  predicate StartsWith(s: string, prefix: string) {
    |prefix| <= |s| && s[..|prefix|] == prefix
  }

  /** `w in s` (Python) and `s.includes(w)` (JavaScript). */
  predicate Contains(s: string, w: string) {
    exists i :: 0 <= i <= |s| && OccursAt(s, w, i)
  }

  /** `w` appears in `s` starting at index `i`. */
  predicate OccursAt(s: string, w: string, i: int) {
    0 <= i && i + |w| <= |s| && s[i..i + |w|] == w
  }

  lemma ContainsPrefix(s: string, w: string)
    requires StartsWith(s, w)
    ensures Contains(s, w)
  {
    assert OccursAt(s, w, 0);
  }

  lemma ContainsInLonger(a: string, b: string, w: string)
    requires Contains(a, w)
    ensures Contains(a + b, w)
  {
    var i :| 0 <= i <= |a| && OccursAt(a, w, i);
    assert (a + b)[i..i + |w|] == a[i..i + |w|];
    assert OccursAt(a + b, w, i);
  }

  // ---------------------------------------------------------------------------
  // Splitting and joining (`str.split(sep)`, `sep.join(parts)`)

  function Split(s: string, sep: char): (parts: seq<string>)
    ensures |parts| > 0
    ensures forall k :: 0 <= k < |parts| ==> sep !in parts[k]
    decreases |s|
  {
    if sep !in s then [s]
    else
      var i := IndexOf(s, sep);
      [s[..i]] + Split(s[i + 1..], sep)
  }

  function IndexOf(s: string, c: char): (i: nat)
    requires c in s
    ensures i < |s| && s[i] == c && c !in s[..i]
  {
    if s[0] == c then 0 else 1 + IndexOf(s[1..], c)
  }

  function Join(parts: seq<string>, sep: string): string
  {
    if |parts| == 0 then ""
    else if |parts| == 1 then parts[0]
    else parts[0] + sep + Join(parts[1..], sep)
  }

  /** Splitting the join of separator-free parts gives the parts back. */
  lemma {:induction false} SplitJoin(parts: seq<string>, sep: char)
    requires |parts| > 0
    requires forall k :: 0 <= k < |parts| ==> sep !in parts[k]
    ensures Split(Join(parts, [sep]), sep) == parts
    decreases |parts|
  {
    if |parts| == 1 {
    } else {
      var s := Join(parts, [sep]);
      var tail := Join(parts[1..], [sep]);
      assert s == parts[0] + [sep] + tail;
      assert sep in s by { assert s[|parts[0]|] == sep; }
      IndexAfterFreePrefix(parts[0], sep, tail);
      assert s[..|parts[0]|] == parts[0];
      assert s[|parts[0]| + 1..] == tail;
      SplitJoin(parts[1..], sep);
    }
  }

  lemma IndexAfterFreePrefix(p: string, c: char, rest: string)
    requires c !in p
    ensures c in p + [c] + rest
    ensures IndexOf(p + [c] + rest, c) == |p|
    decreases |p|
  {
    var s := p + [c] + rest;
    assert s[|p|] == c;
    if |p| > 0 {
      assert s[1..] == p[1..] + [c] + rest;
      IndexAfterFreePrefix(p[1..], c, rest);
    }
  }

  // ---------------------------------------------------------------------------
  // Decimal numerals

  /** The value of a string of decimal digits (most significant first). */
  function DigitsValue(s: string): (n: nat)
    requires AllDigits(s)
    decreases |s|
  {
    if |s| == 0 then 0 else DigitsValue(s[..|s| - 1]) * 10 + DigitValue(s[|s| - 1])
  }

  function Pow10(k: nat): (p: nat)
    ensures p >= 1
  {
    if k == 0 then 1 else 10 * Pow10(k - 1)
  }

  /** `str(n)` / `String(n)` for a non-negative whole number. */
  function FormatNat(n: nat): (s: string)
    ensures |s| > 0 && AllDigits(s)
    ensures DigitsValue(s) == n
    decreases n
  {
    if n < 10 then [DigitChar(n)]
    else
      var s := FormatNat(n / 10) + [DigitChar(n % 10)];
      assert s[..|s| - 1] == FormatNat(n / 10);
      s
  }

  /** `str(n)` for any whole number. */
  function FormatInt(n: int): (s: string)
    ensures |s| > 0
  {
    if n < 0 then "-" + FormatNat(-n) else FormatNat(n)
  }

  // ---------------------------------------------------------------------------
  // Scanning numerals (shared by Python's float() and JavaScript's parsers)

  /** The number of leading decimal digits of `s`. */
  function DigitRun(s: string): (k: nat)
    ensures k <= |s| && AllDigits(s[..k])
    ensures k < |s| ==> !IsDigit(s[k])
    decreases |s|
  {
    if |s| > 0 && IsDigit(s[0]) then
      var k := 1 + DigitRun(s[1..]);
      assert s[..k] == [s[0]] + s[1..][..k - 1];
      k
    else 0
  }

  /** The longest prefix of `s` of the form `digits [ "." digits ]`: its
      value, its length and whether it holds at least one digit. */
  datatype Numeral = Numeral(value: real, length: nat, hasDigits: bool)

  function ScanUnsigned(s: string): (r: Numeral)
    ensures r.length <= |s|
  {
    var k := DigitRun(s);
    var whole := DigitsValue(s[..k]) as real;
    if k < |s| && s[k] == '.' then
      var m := DigitRun(s[k + 1..]);
      var frac := DigitsValue(s[k + 1..][..m]) as real / Pow10(m) as real;
      Numeral(whole + frac, k + 1 + m, k + m > 0)
    else
      Numeral(whole, k, k > 0)
  }

  /** An optional sign followed by an unsigned numeral. */
  function ScanSigned(s: string): (r: Numeral)
    ensures r.length <= |s|
  {
    if |s| > 0 && (s[0] == '-' || s[0] == '+') then
      var u := ScanUnsigned(s[1..]);
      Numeral(if s[0] == '-' then -u.value else u.value, u.length + 1, u.hasDigits)
    else ScanUnsigned(s)
  }

  /** An exponent part `e`/`E`, an optional sign and at least one digit:
      its power of ten and its length. */
  datatype Exponent = Exponent(power: int, length: nat)

  function ScanExponent(s: string): (r: Option<Exponent>)
    ensures r.Some? ==> 2 <= r.value.length <= |s| && (s[0] == 'e' || s[0] == 'E')
    ensures |s| == 0 || (s[0] != 'e' && s[0] != 'E') ==> r.None?
  {
    if |s| == 0 || (s[0] != 'e' && s[0] != 'E') then None
    else
      var signed := |s| > 1 && (s[1] == '+' || s[1] == '-');
      var start := if signed then 2 else 1;
      var k := DigitRun(s[start..]);
      if k == 0 then None
      else
        var v := DigitsValue(s[start..][..k]) as int;
        Some(Exponent(if signed && s[1] == '-' then -v else v, start + k))
  }

  /** `x` times ten to the power `e`. */
  function Scale(x: real, e: int): real {
    if e >= 0 then x * Pow10(e) as real else x / Pow10(-e) as real
  }

  /** A signed decimal numeral with an optional exponent, the syntax
      Python's `float()` and JavaScript's `Number()` and `parseFloat` read.
      The exponent counts only after a mantissa with a digit; a dangling
      `e` is left unread. */
  function ScanNumber(s: string): (r: Numeral)
    ensures r.length <= |s|
    ensures r.hasDigits == ScanSigned(s).hasDigits
    ensures ScanSigned(s).length <= r.length
  {
    var m := ScanSigned(s);
    if m.hasDigits && ScanExponent(s[m.length..]).Some? then
      var e := ScanExponent(s[m.length..]).value;
      Numeral(Scale(m.value, e.power), m.length + e.length, true)
    else m
  }

  /** A numeral not followed by `e` or `E` is read without an exponent. */
  lemma ScanNumberPlain(s: string)
    requires ScanSigned(s).length < |s| ==> s[ScanSigned(s).length] != 'e' && s[ScanSigned(s).length] != 'E'
    ensures ScanNumber(s) == ScanSigned(s)
  {
  }

  lemma DigitRunOfDigits(d: string, rest: string)
    requires AllDigits(d)
    requires |rest| > 0 ==> !IsDigit(rest[0])
    ensures DigitRun(d + rest) == |d|
    decreases |d|
  {
    if |d| > 0 {
      assert (d + rest)[1..] == d[1..] + rest;
      DigitRunOfDigits(d[1..], rest);
    }
  }

  /** Reading `str(n)` back, with a following non-digit, gives `n`. */
  lemma ParseFormatNat(n: nat, rest: string)
    requires |rest| > 0 ==> !IsDigit(rest[0]) && rest[0] != '.'
    ensures ScanUnsigned(FormatNat(n) + rest) == Numeral(n as real, |FormatNat(n)|, true)
  {
    var d := FormatNat(n);
    DigitRunOfDigits(d, rest);
    assert (d + rest)[..|d|] == d;
  }

  /** Reading `str(n)` back with an optional sign, for any whole `n`. */
  lemma ParseFormatInt(n: int, rest: string)
    requires |rest| > 0 ==> !IsDigit(rest[0]) && rest[0] != '.'
    ensures ScanSigned(FormatInt(n) + rest) == Numeral(n as real, |FormatInt(n)|, true)
  {
    if n < 0 {
      var d := FormatNat(-n);
      var s := "-" + d + rest;
      assert FormatInt(n) + rest == s;
      assert s[0] == '-' && s[1..] == d + rest;
      ParseFormatNat(-n, rest);
    } else {
      var d := FormatNat(n);
      var s := d + rest;
      assert FormatInt(n) == d;
      assert IsDigit(d[0]);
      assert s[0] == d[0];
      ParseFormatNat(n, rest);
    }
  }

  /** Reading `str(float(n))`, i.e. `n` followed by ".0", gives `n`. */
  lemma ParseFormatWholeFloat(n: nat, rest: string)
    requires |rest| > 0 ==> !IsDigit(rest[0])
    ensures ScanUnsigned(FormatNat(n) + ".0" + rest) == Numeral(n as real, |FormatNat(n)| + 2, true)
  {
    var d := FormatNat(n);
    var s := d + ".0" + rest;
    assert s == d + (".0" + rest);
    DigitRunOfDigits(d, ".0" + rest);
    assert s[..|d|] == d;
    assert s[|d|] == '.';
    var t := s[|d| + 1..];
    assert t == "0" + rest;
    DigitRunOfDigits("0", rest);
    assert t[..1] == "0";
    assert DigitsValue("0") == 0 by { assert "0"[..0] == ""; }
    assert Pow10(1) == 10;
  }

  lemma ScanExponentDigits(x: string)
    requires |x| > 0 && AllDigits(x)
    ensures ScanExponent("e" + x) == Some(Exponent(DigitsValue(x), 1 + |x|))
  {
    var tail := "e" + x;
    assert tail[1] == x[0] && IsDigit(x[0]);
    assert tail[1..] == x + "";
    DigitRunOfDigits(x, "");
    assert x[..|x|] == x;
  }

  /** Reading `m` followed by the exponent part `e` and `k` gives
      `m * 10^k`. */
  lemma ParseExponentForm(m: nat, k: nat)
    ensures var s := FormatNat(m) + "e" + FormatNat(k);
      ScanNumber(s) == Numeral((m * Pow10(k)) as real, |s|, true)
  {
    var d := FormatNat(m);
    var x := FormatNat(k);
    var s := d + "e" + x;
    assert s == d + ("e" + x);
    assert s[0] == d[0] && IsDigit(d[0]);
    ParseFormatNat(m, "e" + x);
    assert ScanSigned(s) == Numeral(m as real, |d|, true);
    assert s[|d|..] == "e" + x;
    ScanExponentDigits(x);
    ScaleWhole(m, k);
  }

  lemma ScaleWhole(m: nat, k: nat)
    ensures Scale(m as real, k) == (m * Pow10(k)) as real
  {
    var p := Pow10(k);
    assert Scale(m as real, k) == m as real * p as real;
    assert (m * p) as real == m as real * p as real;
  }

  /** A mantissa followed by a bare `e` is read without it. */
  lemma ParseDanglingExponent(m: nat)
    ensures var s := FormatNat(m) + "e";
      ScanNumber(s) == Numeral(m as real, |s| - 1, true)
  {
    var d := FormatNat(m);
    var s := d + "e";
    assert s[0] == d[0] && IsDigit(d[0]);
    ParseFormatNat(m, "e");
    assert s[|d|..] == "e";
    assert "e"[1..] == "";
  }

  /** `float()` reads the exponent form. */
  lemma PyFloatExponent(m: nat, k: nat)
    ensures PyFloatOf(FormatNat(m) + "e" + FormatNat(k)) == Some((m * Pow10(k)) as real)
    ensures PyFloatOf(FormatNat(m) + "e") == None
  {
    var d := FormatNat(m);
    var x := FormatNat(k);
    ParseExponentForm(m, k);
    var s := d + "e" + x;
    assert s[0] == d[0] && s[|s| - 1] == x[|x| - 1];
    assert IsDigit(s[0]) && IsDigit(s[|s| - 1]);
    StripUnpadded(Python, s);
    ParseDanglingExponent(m);
    var t := d + "e";
    assert t[0] == d[0] && t[|t| - 1] == 'e';
    StripUnpadded(Python, t);
  }

  /** Truncation toward zero: Python's `int(x)` of a float, and what
      JavaScript's `parseInt` does to a number. */
  function Trunc(x: real): (r: int)
    ensures x >= 0.0 ==> 0.0 <= r as real <= x < r as real + 1.0
    ensures x < 0.0 ==> x <= r as real <= 0.0 && x > r as real - 1.0
  {
    if x >= 0.0 then x.Floor else -((-x).Floor)
  }

  /** Python's `float(s)` of a string: surrounding whitespace is ignored
      and the rest must be one signed decimal numeral, with an optional
      exponent; anything else raises ValueError (None). `inf`, `nan` and
      digit separators are not modelled. */
  function PyFloatOf(s: string): (r: Option<real>)
    ensures r.Some? ==> Strip(Python, s) != ""
  {
    var t := Strip(Python, s);
    var n := ScanNumber(t);
    if n.hasDigits && n.length == |t| then Some(n.value) else None
  }

  /** Python's `int(s)` of a string: an optional sign and digits only. */
  function PyIntOf(s: string): (r: Option<int>)
    ensures r.Some? ==> Strip(Python, s) != ""
  {
    var t := Strip(Python, s);
    var body := if |t| > 0 && (t[0] == '-' || t[0] == '+') then t[1..] else t;
    if |body| > 0 && AllDigits(body) then
      var v := DigitsValue(body) as int;
      Some(if t[0] == '-' then -v else v)
    else None
  }

  /** `float(str(n))` and `int(str(n))` give back `n`. */
  lemma PyParseFormatInt(n: int)
    ensures PyFloatOf(FormatInt(n)) == Some(n as real)
    ensures PyIntOf(FormatInt(n)) == Some(n)
  {
    var d := FormatInt(n);
    ParseFormatInt(n, "");
    assert d + "" == d;
    assert !IsSpace(Python, d[0]) && !IsSpace(Python, d[|d| - 1]);
    StripUnpadded(Python, d);
    if n < 0 {
      assert d[1..] == FormatNat(-n);
    }
  }

  // ---------------------------------------------------------------------------
  // Python's repr() of a string

  /** The quote `repr` puts around `s`: double quotes when `s` holds a
      single quote and no double quote, single quotes otherwise. */
  function ReprQuote(s: string): char {
    if '\'' in s && '"' !in s then '"' else '\''
  }

  /** One character inside the quotes: the backslash, the quote in use,
      tab, newline and carriage return are escaped with a backslash. */
  function EscapeChar(c: char, quote: char): string {
    if c == '\\' then "\\\\"
    else if c == quote then ['\\', quote]
    else if c == '\n' then "\\n"
    else if c == '\r' then "\\r"
    else if c == '\t' then "\\t"
    else [c]
  }

  function Escape(s: string, quote: char): string
    decreases |s|
  {
    if |s| == 0 then "" else EscapeChar(s[0], quote) + Escape(s[1..], quote)
  }

  /** `repr(s)` of a str. */
  function PyStrRepr(s: string): (r: string)
    ensures |r| >= 2 && r[0] == r[|r| - 1] == ReprQuote(s)
  {
    var q := ReprQuote(s);
    [q] + Escape(s, q) + [q]
  }

  /** Reading escapes back: a backslash and the character after it stand
      for that character, or for tab, newline or carriage return after `t`,
      `n` or `r`. */
  function Unescape(t: string): string
    decreases |t|
  {
    if |t| == 0 then ""
    else if t[0] == '\\' && |t| >= 2 then [UnescapeChar(t[1])] + Unescape(t[2..])
    else [t[0]] + Unescape(t[1..])
  }

  function UnescapeChar(c: char): char {
    if c == 'n' then '\n' else if c == 'r' then '\r' else if c == 't' then '\t' else c
  }

  lemma UnescapeStep(c: char, quote: char, rest: string)
    requires quote == '\'' || quote == '"'
    ensures Unescape(EscapeChar(c, quote) + rest) == [c] + Unescape(rest)
  {
    var e := EscapeChar(c, quote);
    if |e| == 2 {
      assert (e + rest)[2..] == rest;
    } else {
      assert (e + rest)[1..] == rest;
    }
  }

  lemma {:induction false} UnescapeEscape(s: string, quote: char)
    requires quote == '\'' || quote == '"'
    ensures Unescape(Escape(s, quote)) == s
    decreases |s|
  {
    if |s| > 0 {
      UnescapeEscape(s[1..], quote);
      UnescapeStep(s[0], quote, Escape(s[1..], quote));
    }
  }

  /** The text between the quotes of `repr(s)` reads back as `s`. */
  lemma ReprRoundTrip(s: string)
    ensures var r := PyStrRepr(s); Unescape(r[1..|r| - 1]) == s
  {
    var q := ReprQuote(s);
    var r := PyStrRepr(s);
    assert r[1..|r| - 1] == Escape(s, q);
    UnescapeEscape(s, q);
  }

  /** Escaping leaves alone text without the quote, backslashes, tabs or
      line breaks. */
  lemma {:induction false} EscapePlain(s: string, quote: char)
    requires forall i :: 0 <= i < |s| ==> s[i] !in {'\\', quote, '\n', '\r', '\t'}
    ensures Escape(s, quote) == s
    decreases |s|
  {
    if |s| > 0 {
      EscapePlain(s[1..], quote);
      assert s == [s[0]] + s[1..];
    }
  }

  /** Text without quotes, backslashes, tabs or line breaks is shown as it
      is, between single quotes. */
  lemma PlainRepr(s: string)
    requires forall i :: 0 <= i < |s| ==> s[i] !in {'\'', '"', '\\', '\n', '\r', '\t'}
    ensures PyStrRepr(s) == "'" + s + "'"
  {
    assert '\'' !in s;
    EscapePlain(s, '\'');
  }

  // ---------------------------------------------------------------------------
  // Python numbers in f-strings

  /** A Python number: `sum([])` is the int 0, a sum of floats is a float. */
  datatype PyNumber = PyInt(i: int) | PyFloat(f: real)

  function PyValue(x: PyNumber): real {
    match x
    case PyInt(i) => i as real
    case PyFloat(f) => f
  }

  /** `str(x)` inside an f-string, for ints and for whole floats below 1e16
      (which print as their digits followed by ".0"). Other floats print in
      shortest-repr or exponent form, which is not modelled. */
  function PyRepr(x: PyNumber): (r: Option<string>)
    ensures x.PyInt? ==> r.Some?
    ensures x.PyFloat? ==> (r.Some? <==> x.f == x.f.Floor as real && -1.0e16 < x.f < 1.0e16)
  {
    match x
    case PyInt(i) => Some(FormatInt(i))
    case PyFloat(f) =>
      if f == f.Floor as real && -1.0e16 < f < 1.0e16 then Some(FormatInt(f.Floor) + ".0") else None
  }
}
