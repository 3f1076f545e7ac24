/**
 `lexical_cast` between text and `uint32_t`: an optional sign and decimal digits
 that fit in 32 bits, a minus sign negating modulo 2^32.
 */
module Decimal {
  import opened Wrappers

  const U32: nat := 0x1_0000_0000

  predicate IsDigit(c: char) { '0' <= c <= '9' }

  function DigitOf(d: nat): (c: char)
    requires d < 10
    ensures IsDigit(c) && c as int - '0' as int == d
  {
    (d + '0' as int) as char
  }

  function Digits(s: string): nat
    requires forall i | 0 <= i < |s| :: IsDigit(s[i])
  {
    if s == "" then 0
    else
      assert IsDigit(s[|s| - 1]);
      10 * Digits(s[..|s| - 1]) + (s[|s| - 1] as int - '0' as int)
  }

  function ParseUnsigned(s: string): (r: Option<nat>)
    ensures r.Some? ==> r.value < U32
  {
    if s == "" || exists i | 0 <= i < |s| :: !IsDigit(s[i]) then None
    else if Digits(s) < U32 then Some(Digits(s)) else None
  }

  function ParseU32(s: string): (r: Option<nat>)
    ensures r.Some? ==> r.value < U32
  {
    if s != "" && s[0] == '-' then
      match ParseUnsigned(s[1..])
      case None => None
      case Some(n) => Some(if n == 0 then 0 else U32 - n)
    else if s != "" && s[0] == '+' then ParseUnsigned(s[1..])
    else ParseUnsigned(s)
  }

  function ToDecimal(n: nat): (s: string)
    ensures s != "" && forall i | 0 <= i < |s| :: IsDigit(s[i])
  {
    if n < 10 then [DigitOf(n)] else ToDecimal(n / 10) + [DigitOf(n % 10)]
  }

  lemma {:induction false} DigitsOfDecimal(n: nat)
    ensures Digits(ToDecimal(n)) == n
  {
    var s := ToDecimal(n);
    if n < 10 {
      assert s[..|s| - 1] == "";
    } else {
      assert s[..|s| - 1] == ToDecimal(n / 10);
      DigitsOfDecimal(n / 10);
    }
  }

  /** Printing and parsing a number agree on exactly the 32-bit ones. */
  lemma DecimalRoundTrip(n: nat)
    ensures ParseU32(ToDecimal(n)) == if n < U32 then Some(n) else None
  {
    DigitsOfDecimal(n);
    var s := ToDecimal(n);
    assert IsDigit(s[0]);
  }

  predicate AllDigits(s: string) {
    s != "" && forall i | 0 <= i < |s| :: '0' <= s[i] <= '9'
  }

  /** Exactly which texts are numbers, and which: digits whose value is below 2^32, after an optional
      sign; a minus sign takes the value modulo 2^32. */
  lemma ParseU32Iff(s: string, v: nat)
    ensures var digits := if s != "" && (s[0] == '+' || s[0] == '-') then s[1..] else s;
            ParseU32(s) == Some(v) <==>
            && AllDigits(digits) && Digits(digits) < 4294967296 && v < 4294967296
            && (v + if s[0] == '-' then Digits(digits) else 4294967296 - Digits(digits)) % 4294967296 == 0
  {
    var digits := if s != "" && (s[0] == '+' || s[0] == '-') then s[1..] else s;
    assert AllDigits(digits) <==> digits != "" && forall i | 0 <= i < |digits| :: IsDigit(digits[i]);
  }

  /** Leading zeros do not count. */
  lemma {:induction false} LeadingZero(s: string)
    requires AllDigits(s)
    ensures AllDigits("0" + s) && Digits("0" + s) == Digits(s)
    decreases |s|
  {
    var z := "0" + s;
    assert z[..|z| - 1] == "0" + s[..|s| - 1] && z[|z| - 1] == s[|s| - 1];
    if |s| == 1 {
      assert s[..0] == "" && "0"[..0] == "";
      assert Digits("0") == 0;
    } else {
      LeadingZero(s[..|s| - 1]);
    }
  }

  /** Each further digit makes the number ten times as large, and adds its own value. */
  lemma FurtherDigit(s: string, d: char)
    requires AllDigits(s) && '0' <= d <= '9'
    ensures Digits([d]) == d as int - 48 && Digits(s + [d]) == 10 * Digits(s) + Digits([d])
  {
    assert (s + [d])[..|s|] == s && [d][..0] == "";
  }
}
