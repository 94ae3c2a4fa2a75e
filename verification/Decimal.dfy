/** The two `strconv` conversions the controllers use to keep numbers in annotations and
    provider properties: `FormatInt(n, 10)` and 64-bit `Atoi`/`ParseInt(s, 10, 64)`. */
module Decimal {
  const MAX_INT64 := 0x7FFF_FFFF_FFFF_FFFF
  const MIN_INT64 := -0x8000_0000_0000_0000

  /** What the parser returns next to its error: zero for bad syntax, the nearest bound for overflow. */
  datatype Parsed = Parsed(value: int, ok: bool)

  predicate IsDigit(c: char) { '0' <= c <= '9' }

  predicate Digits(s: string) { |s| > 0 && forall i :: 0 <= i < |s| ==> IsDigit(s[i]) }

  function DigitChar(d: nat): char
    requires d < 10
  {
    ('0' as int + d) as char
  }

  function DigitValue(c: char): nat
    requires IsDigit(c)
  {
    c as int - '0' as int
  }

  function FormatInt(n: nat): string {
    if n < 10 then [DigitChar(n)] else FormatInt(n / 10) + [DigitChar(n % 10)]
  }

  function DigitsValue(s: string): nat
    requires forall i :: 0 <= i < |s| ==> IsDigit(s[i])
  {
    if s == [] then 0
    else 10 * DigitsValue(s[..|s| - 1]) + DigitValue(s[|s| - 1])
  }

  function Atoi(s: string): Parsed {
    var signed := |s| > 0 && (s[0] == '-' || s[0] == '+');
    var digits := if signed then s[1..] else s;
    if !Digits(digits) then Parsed(0, false)
    else
      var magnitude := DigitsValue(digits);
      if signed && s[0] == '-' then
        if 0 - magnitude < MIN_INT64 then Parsed(MIN_INT64, false) else Parsed(0 - magnitude, true)
      else
        if magnitude > MAX_INT64 then Parsed(MAX_INT64, false) else Parsed(magnitude, true)
  }

  lemma {:induction false} FormatDigits(n: nat)
    ensures Digits(FormatInt(n))
    ensures DigitsValue(FormatInt(n)) == n
  {
    if n >= 10 {
      FormatDigits(n / 10);
      var s := FormatInt(n);
      assert s[..|s| - 1] == FormatInt(n / 10);
    } else {
      assert FormatInt(n)[..0] == [];
    }
  }

  /** Every number a 64-bit clock can produce survives the trip through its annotation. */
  lemma FormatThenAtoi(n: nat)
    requires n <= MAX_INT64
    ensures Atoi(FormatInt(n)) == Parsed(n, true)
  {
    FormatDigits(n);
    assert IsDigit(FormatInt(n)[0]);
  }

  /** An optional sign and decimal digits. */
  predicate Numeral(s: string) {
    var from := if s != "" && (s[0] == '-' || s[0] == '+') then 1 else 0;
    from < |s| && forall i :: from <= i < |s| ==> '0' <= s[i] <= '9'
  }

  /** What the parser accepts: numerals within 64 bits; anything else that is no numeral reads as zero. */
  lemma AtoiAccepts(s: string)
    ensures Atoi(s).ok ==> Numeral(s) && MIN_INT64 <= Atoi(s).value <= MAX_INT64
    ensures !Numeral(s) ==> Atoi(s) == Parsed(0, false)
    ensures Numeral(s) && !Atoi(s).ok ==> Atoi(s).value == MIN_INT64 || Atoi(s).value == MAX_INT64
  {
  }

  /** The sign is that of the number, and numbers that do not fit read as the nearest bound. */
  lemma AtoiSigned(n: nat)
    ensures Atoi("-" + FormatInt(n)) == if 0 - n < MIN_INT64 then Parsed(MIN_INT64, false) else Parsed(0 - n, true)
    ensures Atoi("+" + FormatInt(n)) == Atoi(FormatInt(n)) ==
      if n > MAX_INT64 then Parsed(MAX_INT64, false) else Parsed(n, true)
  {
    var s := FormatInt(n);
    FormatDigits(n);
    assert ("-" + s)[1..] == s && ("+" + s)[1..] == s;
    assert IsDigit(s[0]);
  }
}
