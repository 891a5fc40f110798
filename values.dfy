/** Cell values, the exceptions the operations raise, and the text/number
    conversions behind numeric coercion and sorting. */
module Values {

  /** One cell of a table: text, a number (integers stand in for pandas'
      numbers), a boolean (the helper sort columns hold these) or a missing
      value (NaN / None). */
  datatype Value = Str(s: string) | Int(n: int) | Flag(b: bool) | Missing

  /** The Python exceptions the operations let escape. */
  datatype Error =
    | KeyError(key: string)
    | ValueError(message: string)
    | TypeError(message: string)

  datatype Result<T> = Ok(value: T) | Err(error: Error) {
    predicate IsFailure() { Err? }
    function PropagateFailure<U>(): Result<U> requires Err? { Err(error) }
    function Extract(): T requires Ok? { value }
  }

  datatype Option<T> = None | Some(value: T)

  /** How Python reads a value as a number in a comparison: booleans are 0 and 1. */
  function AsNumber(v: Value): Option<int> {
    match v
    case Int(n) => Some(n)
    case Flag(b) => Some(if b then 1 else 0)
    case _ => None
  }

  /** What a cell contributes to a sum: its number, and nothing when it is
      missing (pandas skips NaN). */
  function IntOf(v: Value): int {
    match AsNumber(v)
    case Some(n) => n
    case None => 0
  }

  // ---------------------------------------------------------------------
  // Decimal text
  // ---------------------------------------------------------------------

  predicate IsDigit(c: char) { '0' <= c <= '9' }

  predicate AllDigits(s: string) { forall i :: 0 <= i < |s| ==> IsDigit(s[i]) }

  function DigitChar(d: nat): (c: char)
    requires d < 10
    ensures IsDigit(c) && DigitOf(c) == d
  {
    ('0' as int + d) as char
  }

  function DigitOf(c: char): nat
    requires IsDigit(c)
  {
    c as int - '0' as int
  }

  /** Python's str() of a non-negative integer. */
  function ShowNat(n: nat): string
    decreases n
  {
    if n < 10 then [DigitChar(n)] else ShowNat(n / 10) + [DigitChar(n % 10)]
  }

  /** Python's str() of an integer. */
  function ShowInt(n: int): string {
    if n < 0 then "-" + ShowNat(-n) else ShowNat(n)
  }

  /** The value of a run of decimal digits, most significant first. */
  function DigitsValue(s: string): nat
    requires AllDigits(s)
    decreases |s|
  {
    if |s| == 0 then 0 else DigitsValue(s[..|s| - 1]) * 10 + DigitOf(s[|s| - 1])
  }

  /** The integer spellings `pd.to_numeric` accepts: an optional sign and one
      or more decimal digits. Anything else does not parse. */
  function ParseInt(s: string): (r: Option<int>)
    ensures r.Some? ==> |s| > 0 && (IsDigit(s[0]) || s[0] == '-' || s[0] == '+')
  {
    if |s| > 0 && (s[0] == '-' || s[0] == '+') then
      var body := s[1..];
      if |body| > 0 && AllDigits(body) then
        Some(if s[0] == '-' then 0 - DigitsValue(body) else DigitsValue(body))
      else None
    else if |s| > 0 && AllDigits(s) then Some(DigitsValue(s))
    else None
  }

  /** `str.replace(',', '')`: drops every comma and keeps every other
      character, in order. */
  function StripCommas(s: string): (r: string)
    ensures ',' !in r
  {
    if |s| == 0 then ""
    else if s[0] == ',' then StripCommas(s[1..])
    else [s[0]] + StripCommas(s[1..])
  }

  /** Stripping drops the commas and nothing else. */
  lemma {:induction false} StripCommasCount(s: string)
    ensures multiset(StripCommas(s)) == multiset(s)[',' := 0]
  {
    if |s| > 0 {
      StripCommasCount(s[1..]);
      assert s == [s[0]] + s[1..];
    }
  }

  /** `astype(str)`: the text pandas writes for a cell. */
  function AsText(v: Value): string {
    match v
    case Str(s) => s
    case Int(n) => ShowInt(n)
    case Flag(b) => if b then "True" else "False"
    case Missing => "nan"
  }

  /** One cell of `pd.to_numeric(col.astype(str).str.replace(',', ''),
      errors='coerce')`: a number when the text parses, missing otherwise. */
  function Coerce(v: Value): (r: Value)
    ensures r.Int? || r.Missing?
    ensures r.Int? <==> ParseInt(StripCommas(AsText(v))).Some?
  {
    match ParseInt(StripCommas(AsText(v)))
    case Some(n) => Int(n)
    case None => Missing
  }

  lemma {:induction false} ShowNatParses(n: nat)
    ensures |ShowNat(n)| > 0 && AllDigits(ShowNat(n))
    ensures DigitsValue(ShowNat(n)) == n
    decreases n
  {
    if n >= 10 {
      ShowNatParses(n / 10);
      var p, c := ShowNat(n / 10), DigitChar(n % 10);
      assert ShowNat(n) == p + [c];
      assert (p + [c])[..|p|] == p;
      assert DigitsValue(p + [c]) == DigitsValue(p) * 10 + n % 10;
    }
  }

  lemma StripCommasKeeps(s: string)
    requires ',' !in s
    ensures StripCommas(s) == s
  {
    if |s| > 0 {
      StripCommasKeeps(s[1..]);
    }
  }

  /** A run of digits parses to its value. */
  lemma ParseDigits(d: string)
    requires |d| > 0 && AllDigits(d)
    ensures ParseInt(d) == Some(DigitsValue(d))
  {
    assert IsDigit(d[0]);
  }

  /** A minus sign before a run of digits negates its value. */
  lemma ParseNegative(d: string)
    requires |d| > 0 && AllDigits(d)
    ensures ParseInt("-" + d) == Some(0 - DigitsValue(d))
  {
    var s := "-" + d;
    assert s[0] == '-' && s[1..] == d;
  }

  /** Printing an integer and parsing it back gives the integer. */
  lemma ParseShowInt(n: int)
    ensures ParseInt(ShowInt(n)) == Some(n)
  {
    if n < 0 {
      ShowNatParses(-n);
      ParseNegative(ShowNat(-n));
    } else {
      ShowNatParses(n);
      ParseDigits(ShowNat(n));
    }
  }

  /** A number survives coercion unchanged. */
  lemma CoerceNumber(n: int)
    ensures Coerce(Int(n)) == Int(n)
  {
    ParseShowInt(n);
    var t := ShowInt(n);
    ShowNatParses(if n < 0 then -n else n);
    assert forall i :: 0 <= i < |t| ==> t[i] == '-' || IsDigit(t[i]);
    assert ',' !in t;
    StripCommasKeeps(t);
  }

  /** Coercing a second time changes nothing. */
  lemma CoerceIdempotent(v: Value)
    ensures Coerce(Coerce(v)) == Coerce(v)
  {
    var c := Coerce(v);
    if c.Int? {
      CoerceNumber(c.n);
    } else {
      CoerceMissing();
    }
  }

  /** Thousands separators are ignored: text whose comma-stripped form is a
      run of digits, as "1,000" is, becomes that number. */
  lemma CoerceGroupedDigits(s: string)
    requires |StripCommas(s)| > 0 && AllDigits(StripCommas(s))
    ensures Coerce(Str(s)) == Int(DigitsValue(StripCommas(s)))
  {
    ParseDigits(StripCommas(s));
  }

  /** With a leading minus sign, grouped digits become the negated number:
      "-1,000" becomes -1000. */
  lemma CoerceNegativeGroupedDigits(s: string)
    requires |s| > 0 && s[0] == '-'
    requires |StripCommas(s[1..])| > 0 && AllDigits(StripCommas(s[1..]))
    ensures Coerce(Str(s)) == Int(0 - DigitsValue(StripCommas(s[1..])))
  {
    assert StripCommas(s) == "-" + StripCommas(s[1..]);
    ParseNegative(StripCommas(s[1..]));
  }

  /** Text that parses holds only digits, apart from a leading sign. */
  lemma ParsedChars(d: string)
    requires ParseInt(d).Some?
    ensures forall i :: 0 <= i < |d| ==> IsDigit(d[i]) || (i == 0 && (d[0] == '-' || d[0] == '+'))
  {
    if d[0] == '-' || d[0] == '+' {
      forall i | 1 <= i < |d| ensures IsDigit(d[i]) {
        assert d[1..][i - 1] == d[i];
      }
    }
  }

  /** Stray text becomes missing rather than an error: text holding any
      character other than a digit, a comma or a sign, as "abc" does, does
      not parse. */
  lemma CoerceNonNumeric(s: string)
    requires exists i :: 0 <= i < |s| && !IsDigit(s[i]) && s[i] != ',' && s[i] != '-' && s[i] != '+'
    ensures Coerce(Str(s)) == Missing
  {
    var i :| 0 <= i < |s| && !IsDigit(s[i]) && s[i] != ',' && s[i] != '-' && s[i] != '+';
    var d := StripCommas(s);
    StripCommasCount(s);
    assert s[i] in multiset(s);
    assert s[i] in multiset(d);
    assert s[i] in d;
    if ParseInt(d).Some? {
      ParsedChars(d);
      assert false;
    }
  }

  /** A missing value stays missing: its text "nan" does not parse. */
  lemma CoerceMissing()
    ensures Coerce(Missing) == Missing
  {
    assert AsText(Missing) == "nan";
    StripCommasKeeps("nan");
    assert !IsDigit("nan"[0]);
    assert ParseInt("nan") == None;
  }

  // ---------------------------------------------------------------------
  // The order sort_values uses
  // ---------------------------------------------------------------------

  /** Python's string order: code point by code point, a proper prefix first. */
  predicate TextLe(a: string, b: string)
    decreases |a|
  {
    |a| == 0 || (|b| > 0 && (a[0] < b[0] || (a[0] == b[0] && TextLe(a[1..], b[1..]))))
  }

  /** The order of one sort column. Numbers by value, booleans False first,
      text by `TextLe`, and missing values last (`na_position='last'`).
      Numbers and booleans come before text, as a multi-key sort orders a
      mixed column: numbers first, then strings, then missing values. */
  predicate ValueLe(a: Value, b: Value) {
    match a
    case Int(x) => (b.Int? && x <= b.n) || !b.Int?
    case Flag(x) => (b.Flag? && (!x || b.b)) || b.Str? || b.Missing?
    case Str(x) => (b.Str? && TextLe(x, b.s)) || b.Missing?
    case Missing => b.Missing?
  }

  lemma {:induction false} TextLeTotal(a: string, b: string)
    ensures TextLe(a, b) || TextLe(b, a)
    decreases |a|
  {
    if |a| > 0 && |b| > 0 && a[0] == b[0] {
      TextLeTotal(a[1..], b[1..]);
    }
  }

  lemma {:induction false} TextLeAntisymmetric(a: string, b: string)
    requires TextLe(a, b) && TextLe(b, a)
    ensures a == b
    decreases |a|
  {
    if |a| > 0 {
      TextLeAntisymmetric(a[1..], b[1..]);
      assert a == [a[0]] + a[1..];
      assert b == [b[0]] + b[1..];
    }
  }

  lemma {:induction false} TextLeTransitive(a: string, b: string, c: string)
    requires TextLe(a, b) && TextLe(b, c)
    ensures TextLe(a, c)
    decreases |a|
  {
    if |a| > 0 && a[0] == b[0] && b[0] == c[0] {
      TextLeTransitive(a[1..], b[1..], c[1..]);
    }
  }

  lemma TextLeReflexive(a: string)
    ensures TextLe(a, a)
  {
    TextLeTotal(a, a);
  }

  /** `ValueLe` is a total order, which is what makes "sorted" meaningful. */
  lemma ValueLeTotalOrder(a: Value, b: Value, c: Value)
    ensures ValueLe(a, a)
    ensures ValueLe(a, b) || ValueLe(b, a)
    ensures ValueLe(a, b) && ValueLe(b, a) ==> a == b
    ensures ValueLe(a, b) && ValueLe(b, c) ==> ValueLe(a, c)
  {
    if a.Str? { TextLeReflexive(a.s); }
    if a.Str? && b.Str? {
      TextLeTotal(a.s, b.s);
      if TextLe(a.s, b.s) && TextLe(b.s, a.s) { TextLeAntisymmetric(a.s, b.s); }
    }
    if a.Str? && b.Str? && c.Str? && TextLe(a.s, b.s) && TextLe(b.s, c.s) {
      TextLeTransitive(a.s, b.s, c.s);
    }
  }
}
