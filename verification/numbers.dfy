/**
 * Decimal printing and parsing of integers: JavaScript's `String(n)` and `Number(s)` on
 * integer values, and Go's `strconv.Atoi`.
 */
module Numbers {
  import opened Wrappers
  import Text

  predicate IsDigit(c: char) {
    '0' <= c <= '9'
  }

  predicate AllDigits(s: string) {
    forall i :: 0 <= i < |s| ==> IsDigit(s[i])
  }

  function DigitChar(d: nat): (c: char)
    requires d < 10
    ensures IsDigit(c)
  {
    ('0' as int + d) as char
  }

  function DigitValue(c: char): (d: nat)
    requires IsDigit(c)
    ensures d < 10
  {
    c as int - '0' as int
  }

  /** Value of a string of decimal digits, most significant first. */
  function DigitsValue(s: string): nat
    requires AllDigits(s)
  {
    if s == [] then 0 else DigitsValue(s[..|s| - 1]) * 10 + DigitValue(s[|s| - 1])
  }

  /** The decimal digits of `n`, most significant first. */
  function NatToString(n: nat): (s: string)
    ensures |s| >= 1 && AllDigits(s)
  {
    if n < 10 then [DigitChar(n)] else NatToString(n / 10) + [DigitChar(n % 10)]
  }

  /** `String(n)` in JavaScript and `strconv.Itoa(n)` in Go, for an integer `n`. */
  function IntToString(n: int): (s: string)
    ensures s != ""
    ensures n >= 0 <==> AllDigits(s)
  {
    if n < 0 then
      var s := "-" + NatToString(-n);
      assert !IsDigit(s[0]);
      s
    else NatToString(n)
  }

  lemma {:induction false} NatToStringValue(n: nat)
    ensures DigitsValue(NatToString(n)) == n
    decreases n
  {
    if n >= 10 {
      NatToStringValue(n / 10);
      var s := NatToString(n);
      assert s[..|s| - 1] == NatToString(n / 10);
    }
  }

  /** An optional `+` or `-` followed by one or more decimal digits, and nothing else. */
  function ParseDecimal(s: string): (r: Option<int>)
    ensures r.Some? ==> s != ""
  {
    if |s| >= 1 && (s[0] == '-' || s[0] == '+') then
      var body := s[1..];
      if body != [] && AllDigits(body) then
        Some(if s[0] == '-' then -(DigitsValue(body) as int) else DigitsValue(body))
      else None
    else if s != [] && AllDigits(s) then Some(DigitsValue(s))
    else None
  }

  /** Printing an integer and parsing it back gives the integer. */
  lemma ParseDecimalOfIntToString(n: int)
    ensures ParseDecimal(IntToString(n)) == Some(n)
  {
    var s := IntToString(n);
    if n < 0 {
      NatToStringValue(-n);
      assert s[0] == '-' && s[1..] == NatToString(-n);
      assert ParseDecimal(s) == Some(-(DigitsValue(NatToString(-n)) as int));
    } else {
      NatToStringValue(n);
      assert !(s[0] == '-' || s[0] == '+');
    }
  }

  const MinInt64: int := -0x8000_0000_0000_0000
  const MaxInt64: int := 0x7FFF_FFFF_FFFF_FFFF

  /** Go's `strconv.Atoi` on a 64-bit platform: `None` is the returned error (syntax or range). */
  function GoAtoi(s: string): (r: Option<int>)
    ensures r.Some? ==> MinInt64 <= r.value <= MaxInt64
    ensures r.Some? ==> ParseDecimal(s) == r
  {
    match ParseDecimal(s)
    case Some(v) => if MinInt64 <= v <= MaxInt64 then Some(v) else None
    case None => None
  }

  /** What JavaScript's `Number(s)` gives, as far as the model distinguishes it. */
  datatype JsNumber = Finite(value: int) | NotFinite

  /** `Number(s)` for the strings the model covers: surrounding whitespace is ignored, an
      empty or all-whitespace string is 0, an optionally signed decimal integer is its value.
      Every other string is treated as not finite. */
  function JsNumberOf(s: string): (r: JsNumber)
    ensures ParseDecimal(Text.TrimJs(s)).Some? ==> r == Finite(ParseDecimal(Text.TrimJs(s)).value)
    ensures Text.TrimJs(s) == "" ==> r == Finite(0)
  {
    var t := Text.TrimJs(s);
    if t == "" then Finite(0)
    else match ParseDecimal(t)
      case Some(v) => Finite(v)
      case None => NotFinite
  }

  /** `Number(String(n)) == n` for every integer. */
  lemma JsNumberOfIntToString(n: int)
    ensures JsNumberOf(IntToString(n)) == Finite(n)
  {
    var s := IntToString(n);
    ParseDecimalOfIntToString(n);
    if s != [] {
      Text.PrintableNotJsSpace(s[0]);
      Text.PrintableNotJsSpace(s[|s| - 1]);
    }
    assert Text.IsJsTrimmed(s);
  }
}
