/** Scalar values a shipment field can hold, and the two PHP conversions the
    shipment record relies on: the string cast `(string)$v` and the boolean
    conversion used by a rule's `when` closure. */
module PhpValues {

  datatype Option<T> = None | Some(value: T)

  /** A field value: PHP `null`, a string, or an integer. */
  datatype Value = Null | Str(s: string) | Int(i: int)

  predicate IsDigit(c: char) {
    '0' <= c <= '9'
  }

  predicate AllDigits(s: string) {
    forall k :: 0 <= k < |s| ==> IsDigit(s[k])
  }

  function DigitChar(d: nat): (c: char)
    requires d < 10
    ensures IsDigit(c) && c as int - '0' as int == d
  {
    ('0' as int + d) as char
  }

  function DigitValue(c: char): (d: nat)
    requires IsDigit(c)
    ensures d < 10 && DigitChar(d) == c
  {
    c as int - '0' as int
  }

  /** Decimal digits of `n`, most significant first, without leading zeros. */
  function NatToDecimal(n: nat): (r: string)
    ensures |r| > 0 && AllDigits(r)
    ensures r[0] == '0' <==> n == 0
    ensures n == 0 ==> r == "0"
    decreases n
  {
    if n < 10 then [DigitChar(n)] else NatToDecimal(n / 10) + [DigitChar(n % 10)]
  }

  /** The number a string of decimal digits denotes. */
  function DecimalToNat(s: string): nat
    requires AllDigits(s)
  {
    if s == [] then 0 else 10 * DecimalToNat(s[..|s| - 1]) + DigitValue(s[|s| - 1])
  }

  lemma {:induction false} DecimalRoundTrip(n: nat)
    ensures DecimalToNat(NatToDecimal(n)) == n
    decreases n
  {
    if n >= 10 {
      var r := NatToDecimal(n);
      assert r[..|r| - 1] == NatToDecimal(n / 10);
      DecimalRoundTrip(n / 10);
    }
  }

  /** PHP's `(string)` of an integer: optional '-' followed by decimal digits. */
  function IntToString(i: int): string
  {
    if i < 0 then "-" + NatToDecimal(-i) else NatToDecimal(i)
  }

  /** Reads back a string produced by `IntToString`; `None` for anything else. */
  function ParseInt(s: string): Option<int>
  {
    if |s| > 1 && s[0] == '-' && AllDigits(s[1..]) && s[1] != '0' then Some(-(DecimalToNat(s[1..]) as int))
    else if |s| > 0 && AllDigits(s) && (s[0] != '0' || s == "0") then Some(DecimalToNat(s))
    else None
  }

  lemma IntStringRoundTrip(i: int)
    ensures ParseInt(IntToString(i)) == Some(i)
  {
    if i < 0 {
      var r := IntToString(i);
      assert r[1..] == NatToDecimal(-i);
      DecimalRoundTrip(-i);
    } else {
      DecimalRoundTrip(i);
    }
  }

  /** PHP's `(string)` cast on the three kinds of field value. */
  function ToPhpString(v: Value): (r: string)
    ensures v.Null? ==> r == ""
    ensures v.Str? ==> r == v.s
    ensures v.Int? ==> ParseInt(r) == Some(v.i)
  {
    match v
    case Null => ""
    case Str(s) => s
    case Int(i) => IntStringRoundTrip(i); IntToString(i)
  }

  /** PHP's conversion to bool: `null`, `""`, `"0"` and `0` are false, all else true. */
  predicate Truthy(v: Value) {
    match v
    case Null => false
    case Str(s) => s != "" && s != "0"
    case Int(i) => i != 0
  }

  /** Truthiness on sample values: only the empty string and "0" are false
      among strings, so "00", " " and "0.00" are true, as is every non-zero integer. */
  lemma TruthyExamples()
    ensures !Truthy(Null) && !Truthy(Str("")) && !Truthy(Str("0")) && !Truthy(Int(0))
    ensures Truthy(Str("00")) && Truthy(Str(" ")) && Truthy(Str("0.00")) && Truthy(Int(-1)) && Truthy(Int(1))
  {
  }

  /** An integer and its string form are equally truthy. */
  lemma TruthyAgreesWithString(i: int)
    ensures Truthy(Int(i)) <==> Truthy(Str(IntToString(i)))
  {
    if i < 0 {
      assert IntToString(i)[0] == '-';
    }
  }

  /** The emptiness a `required` rule rejects: `null` or the empty string (never `0` or `"0"`). */
  predicate IsEmptyValue(v: Value) {
    v == Null || v == Str("")
  }
}
