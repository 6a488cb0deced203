/** Integer text: the decimal form the catalog writes into a product id, and the
    `System.Int32.TryParse` that the nutrition panel reads it back with. */
module Numerals {
  import opened Common

  const MinInt32: int := -0x8000_0000
  const MaxInt32: int := 0x7FFF_FFFF

  predicate IsDigit(c: char) { '0' <= c <= '9' }

  predicate AllDigits(s: string) { forall i :: 0 <= i < |s| ==> IsDigit(s[i]) }

  function DigitChar(d: nat): (c: char)
    requires d < 10
    ensures IsDigit(c) && c as int - '0' as int == d
  {
    ('0' as int + d) as char
  }

  /** The shortest decimal numeral of `n`, as C# writes an integer literal like `"148"`. */
  function DecimalString(n: nat): (s: string)
    decreases n
  {
    if n < 10 then [DigitChar(n)] else DecimalString(n / 10) + [DigitChar(n % 10)]
  }

  lemma DecimalString2(n: nat)
    requires 10 <= n < 100
    ensures DecimalString(n) == [DigitChar(n / 10), DigitChar(n % 10)]
  {
  }

  lemma DecimalString3(n: nat)
    requires 100 <= n < 1000
    ensures DecimalString(n) == [DigitChar(n / 100), DigitChar(n / 10 % 10), DigitChar(n % 10)]
  {
    DecimalString2(n / 10);
  }

  /** The value of a string of decimal digits, most significant first. */
  function DigitsValue(s: string): (v: nat)
    requires AllDigits(s)
    decreases |s|
  {
    if s == [] then 0
    else DigitsValue(s[..|s| - 1]) * 10 + (s[|s| - 1] as int - '0' as int)
  }

  /** The characters `Int32.TryParse` skips before and after the number: U+0009 to U+000D
      and the space. */
  predicate IsWhite(c: char) { c == ' ' || '\t' <= c <= '\r' }

  function TrimStart(s: string): (t: string)
    ensures |t| <= |s| && (t != [] ==> !IsWhite(t[0]))
    ensures t == s[|s| - |t|..]
    decreases |s|
  {
    if s != [] && IsWhite(s[0]) then TrimStart(s[1..]) else s
  }

  function TrimEnd(s: string): (t: string)
    ensures |t| <= |s| && (t != [] ==> !IsWhite(t[|t| - 1]))
    ensures t == s[..|t|]
    decreases |s|
  {
    if s != [] && IsWhite(s[|s| - 1]) then TrimEnd(s[..|s| - 1]) else s
  }

  /** `Int32.TryParse(s, out v)`: optional white space, an optional sign, one or more decimal
      digits, optional white space, and a value that fits in 32 bits. A null string fails. */
  function TryParseInt32(s: Option<string>): (r: Option<int>)
    ensures r.Some? ==> MinInt32 <= r.value <= MaxInt32
    ensures s.None? ==> r.None?
  {
    match s
    case None => None
    case Some(text) =>
      var t := TrimEnd(TrimStart(text));
      var negative := |t| > 0 && t[0] == '-';
      var digits := if |t| > 0 && (t[0] == '-' || t[0] == '+') then t[1..] else t;
      if digits == [] || !AllDigits(digits) then None
      else
        var v: int := if negative then 0 - DigitsValue(digits) as int else DigitsValue(digits);
        if MinInt32 <= v <= MaxInt32 then Some(v) else None
  }

  lemma {:induction false} DecimalStringDigits(n: nat)
    ensures |DecimalString(n)| > 0 && AllDigits(DecimalString(n))
    ensures DigitsValue(DecimalString(n)) == n
    decreases n
  {
    if n >= 10 {
      DecimalStringDigits(n / 10);
      var s := DecimalString(n);
      assert s[..|s| - 1] == DecimalString(n / 10);
    }
  }

  /** Reading back what the catalog wrote: the decimal numeral of any id in the 32-bit range
      parses to that id. */
  lemma ParseDecimalRoundTrip(n: nat)
    requires n <= MaxInt32
    ensures TryParseInt32(Some(DecimalString(n))) == Some(n)
  {
    DecimalStringDigits(n);
    var s := DecimalString(n);
    assert !IsWhite(s[0]) && !IsWhite(s[|s| - 1]);
    assert TrimStart(s) == s;
    assert TrimEnd(s) == s;
  }
}
