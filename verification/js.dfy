/** The JavaScript value semantics the client code relies on: numbers with
    NaN and infinities, truthiness and `||`, `parseFloat`, `parseInt` and the
    `Number(...)` coercion of form input strings. Numerals are decimal with
    an optional exponent; hexadecimal, binary and octal forms and the literal
    `Infinity` are not part of the syntax modelled here. */
module Js {
  import opened Wrappers
  import opened Text

  datatype Number = Num(value: real) | NaN | Inf(positive: bool)

  /** The subset of JavaScript values the client reads out of replies and
      form fields. */
  datatype Value = Undefined | Null | Str(s: string) | N(n: Number)

  /** A JSON object of a reply, with its fields by name. */
  type Object = map<string, Value>

  /** `o[key]`: undefined for a missing field. */
  function Get(o: Object, key: string): Value {
    if key in o then o[key] else Undefined
  }

  predicate Truthy(v: Value) {
    match v
    case Undefined => false
    case Null => false
    case Str(s) => s != ""
    case N(n) => n.Inf? || (n.Num? && n.value != 0.0)
  }

  /** `a || b`. */
  function Or(a: Value, b: Value): (r: Value)
    ensures Truthy(a) ==> r == a
    ensures !Truthy(a) ==> r == b
  {
    if Truthy(a) then a else b
  }

  // ---------------------------------------------------------------------------
  // Arithmetic (IEEE special values; finite values are exact reals)

  function Neg(x: Number): Number {
    match x
    case Num(a) => Num(-a)
    case NaN => NaN
    case Inf(p) => Inf(!p)
  }

  function Add(x: Number, y: Number): (r: Number)
    ensures x.Num? && y.Num? ==> r == Num(x.value + y.value)
    ensures x.NaN? || y.NaN? ==> r.NaN?
  {
    match (x, y)
    case (Num(a), Num(b)) => Num(a + b)
    case (Inf(p), Inf(q)) => if p == q then Inf(p) else NaN
    case (Inf(p), Num(_)) => Inf(p)
    case (Num(_), Inf(q)) => Inf(q)
    case _ => NaN
  }

  function Sub(x: Number, y: Number): (r: Number)
    ensures x.Num? && y.Num? ==> r == Num(x.value - y.value)
  {
    Add(x, Neg(y))
  }

  function Sign(x: Number): int {
    match x
    case Num(a) => if a > 0.0 then 1 else if a < 0.0 then -1 else 0
    case NaN => 0
    case Inf(p) => if p then 1 else -1
  }

  function Mul(x: Number, y: Number): (r: Number)
    ensures x.Num? && y.Num? ==> r == Num(x.value * y.value)
    ensures x.NaN? || y.NaN? ==> r.NaN?
  {
    if x.Num? && y.Num? then Num(x.value * y.value)
    else if x.NaN? || y.NaN? || Sign(x) == 0 || Sign(y) == 0 then NaN
    else Inf((Sign(x) > 0) == (Sign(y) > 0))
  }

  /** `x / y`: dividing a non-zero number by zero gives an infinity, `0 / 0`
      gives NaN. */
  function Div(x: Number, y: Number): (r: Number)
    ensures x.Num? && y.Num? && y.value != 0.0 ==> r == Num(x.value / y.value)
    ensures x.Num? && y == Num(0.0) ==> (r.NaN? <==> x.value == 0.0)
  {
    match (x, y)
    case (Num(a), Num(b)) =>
      if b != 0.0 then Num(a / b)
      else if a == 0.0 then NaN
      else Inf(a > 0.0)
    case (NaN, _) => NaN
    case (_, NaN) => NaN
    case (Inf(_), Inf(_)) => NaN
    case (Inf(p), Num(b)) => Inf(if b < 0.0 then !p else p)
    case (Num(_), Inf(_)) => Num(0.0)
  }

  // ---------------------------------------------------------------------------
  // Comparisons: every comparison with NaN is false

  /** `x < y` */
  predicate Less(x: Number, y: Number) {
    match (x, y)
    case (NaN, _) => false
    case (_, NaN) => false
    case (Num(a), Num(b)) => a < b
    case (Inf(p), Inf(q)) => !p && q
    case (Inf(p), Num(_)) => !p
    case (Num(_), Inf(q)) => q
  }

  /** `x <= y` */
  predicate LessEq(x: Number, y: Number) {
    !x.NaN? && !y.NaN? && (x == y || Less(x, y))
  }

  lemma CompareNaN(x: Number)
    ensures !Less(NaN, x) && !Less(x, NaN) && !LessEq(NaN, x) && !LessEq(x, NaN)
  {
  }

  // ---------------------------------------------------------------------------
  // Numerals

  /** `parseFloat(s)`: leading whitespace is skipped and the longest numeral
      prefix is read; without a digit the result is NaN. */
  function ParseFloatString(s: string): (r: Number)
    ensures r.NaN? || r.Num?
  {
    var n := ScanNumber(TrimLeft(JavaScript, s));
    if n.hasDigits then Num(n.value) else NaN
  }

  /** `parseInt(s)`: like `parseFloat` but reads digits only. */
  function ParseIntString(s: string): (r: Number)
    ensures r.NaN? || r.Num?
    ensures r.Num? ==> r.value.Floor as real == r.value
  {
    var t := TrimLeft(JavaScript, s);
    var neg := |t| > 0 && t[0] == '-';
    var body := if |t| > 0 && (t[0] == '-' || t[0] == '+') then t[1..] else t;
    var k := DigitRun(body);
    if k == 0 then NaN
    else
      var v: int := DigitsValue(body[..k]);
      var n := if neg then -v else v;
      assert (n as real).Floor == n;
      Num(n as real)
  }

  /** `Number(s)` and the implicit coercion used by `isNaN(s)` and `s <= 0`:
      the whole trimmed string must be a numeral; the empty string is 0. */
  function ToNumberString(s: string): (r: Number)
    ensures r.NaN? || r.Num?
    ensures Strip(JavaScript, s) == "" ==> r == Num(0.0)
  {
    var t := Strip(JavaScript, s);
    if t == "" then Num(0.0)
    else
      var n := ScanNumber(t);
      if n.hasDigits && n.length == |t| then Num(n.value) else NaN
  }

  function ParseFloat(v: Value): Number {
    match v
    case Str(s) => ParseFloatString(s)
    case N(n) => n
    case _ => NaN
  }

  function ParseInt(v: Value): Number {
    match v
    case Str(s) => ParseIntString(s)
    case N(n) => if n.Num? then Num(Trunc(n.value) as real) else NaN
    case _ => NaN
  }

  function ToNumber(v: Value): Number {
    match v
    case Str(s) => ToNumberString(s)
    case N(n) => n
    case Null => Num(0.0)
    case Undefined => NaN
  }

  /** `String(x)` (and `${x}`) for NaN, the infinities and whole numbers of
      magnitude below 1e21; other numbers print in shortest-round-trip form,
      which is not modelled (None). */
  function NumberText(x: Number): (r: Option<string>)
    ensures x.Num? ==> (r.Some? <==> x.value == x.value.Floor as real && -1.0e21 < x.value < 1.0e21)
    ensures x.Num? && r.Some? ==> r.value == FormatInt(x.value.Floor)
  {
    match x
    case NaN => Some("NaN")
    case Inf(p) => Some(if p then "Infinity" else "-Infinity")
    case Num(v) =>
      if v == v.Floor as real && -1.0e21 < v < 1.0e21 then Some(FormatInt(v.Floor)) else None
  }

  /** `isNaN(v)` */
  predicate IsNaN(v: Value) {
    ToNumber(v).NaN?
  }

  // ---------------------------------------------------------------------------
  // Round trips between rendered whole numbers and the parsers

  lemma ParseFloatFormatNat(n: nat)
    ensures ParseFloatString(FormatNat(n)) == Num(n as real)
  {
    var d := FormatNat(n);
    assert TrimLeft(JavaScript, d) == d;
    assert d[0] != '-' && d[0] != '+';
    ParseFormatNat(n, "");
    assert d + "" == d;
  }

  lemma ParseFloatFormatWholeFloat(n: nat)
    ensures ParseFloatString(FormatNat(n) + ".0") == Num(n as real)
  {
    var d := FormatNat(n) + ".0";
    assert !IsSpace(JavaScript, d[0]);
    assert TrimLeft(JavaScript, d) == d;
    assert d[0] != '-' && d[0] != '+';
    ParseFormatWholeFloat(n, "");
    assert d + "" == d;
  }

  /** `Number` and `parseFloat` read the exponent form `m e k` as
      `m * 10^k`; a bare trailing `e` makes `Number` give NaN while
      `parseFloat` stops before it. */
  lemma ExponentForms(m: nat, k: nat)
    ensures ToNumberString(FormatNat(m) + "e" + FormatNat(k)) == Num((m * Pow10(k)) as real)
    ensures ParseFloatString(FormatNat(m) + "e" + FormatNat(k)) == Num((m * Pow10(k)) as real)
    ensures ToNumberString(FormatNat(m) + "e") == NaN
    ensures ParseFloatString(FormatNat(m) + "e") == Num(m as real)
  {
    var d := FormatNat(m);
    var x := FormatNat(k);
    ParseExponentForm(m, k);
    ParseDanglingExponent(m);
    var s := d + "e" + x;
    assert s[0] == d[0] && s[|s| - 1] == x[|x| - 1];
    assert !IsSpace(JavaScript, s[0]) && !IsSpace(JavaScript, s[|s| - 1]);
    StripUnpadded(JavaScript, s);
    assert TrimLeft(JavaScript, s) == s;
    var t := d + "e";
    assert t[0] == d[0] && t[|t| - 1] == 'e';
    StripUnpadded(JavaScript, t);
    assert TrimLeft(JavaScript, t) == t;
  }

  /** `parseInt(String(n))` gives back `n`. */
  lemma ParseIntFormatNat(n: nat)
    ensures ParseIntString(FormatNat(n)) == Num(n as real)
  {
    var d := FormatNat(n);
    assert TrimLeft(JavaScript, d) == d;
    assert d[0] != '-' && d[0] != '+';
    DigitRunOfDigits(d, "");
    assert d + "" == d;
    assert d[..|d|] == d;
  }
}
