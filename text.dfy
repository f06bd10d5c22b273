/**
 * Small string facts shared by the two report formats: splitting a line at
 * its first space, and Java's decimal rendering of an int.
 */
module Text {
  import Wrappers

  /** The part of s before its first space (all of s when it has none). */
  function BeforeSpace(s: string): (r: string)
    ensures r <= s && ' ' !in r
  {
    if s == [] || s[0] == ' ' then [] else [s[0]] + BeforeSpace(s[1..])
  }

  /** The part of s after its first space (empty when it has none). */
  function AfterSpace(s: string): (r: string)
    ensures |r| < |s| || r == []
  {
    if s == [] then [] else if s[0] == ' ' then s[1..] else AfterSpace(s[1..])
  }

  /** Splitting "a b" at the first space gives a and b back when a has no space. */
  lemma {:induction false} SplitAtSpace(a: string, b: string)
    requires ' ' !in a
    ensures BeforeSpace(a + " " + b) == a
    ensures AfterSpace(a + " " + b) == b
  {
    if a == [] {
      assert a + " " + b == [' '] + b;
    } else {
      assert (a + " " + b)[1..] == a[1..] + " " + b;
      SplitAtSpace(a[1..], b);
    }
  }

  predicate IsDigitChar(c: char) {
    '0' <= c <= '9'
  }

  function DigitChar(d: nat): (c: char)
    requires d < 10
    ensures IsDigitChar(c)
  {
    (('0' as int) + d) as char
  }

  function DigitValue(c: char): (d: nat)
    requires IsDigitChar(c)
    ensures d < 10
  {
    (c as int) - ('0' as int)
  }

  /** Decimal digits of n, most significant first, without leading zeros. */
  function NatToDecimal(n: nat): (s: string)
    ensures |s| > 0
    ensures forall i :: 0 <= i < |s| ==> IsDigitChar(s[i])
  {
    if n < 10 then [DigitChar(n)] else NatToDecimal(n / 10) + [DigitChar(n % 10)]
  }

  /** Java's String.valueOf(int), on unbounded integers: an optional '-' then the digits. */
  function IntToDecimal(n: int): (s: string)
    ensures |s| > 0 && ' ' !in s
  {
    if n < 0 then "-" + NatToDecimal(-n) else NatToDecimal(n)
  }

  /** Reads a run of decimal digits. */
  function DecimalToNat(s: string): nat
    requires forall i :: 0 <= i < |s| ==> IsDigitChar(s[i])
  {
    if s == [] then 0 else DecimalToNat(s[..|s| - 1]) * 10 + DigitValue(s[|s| - 1])
  }

  /** Reads an optional '-' and a run of decimal digits; None for anything else. */
  function DecimalToInt(s: string): (r: Wrappers.Option<int>)
  {
    if |s| > 0 && s[0] == '-' then
      if |s| > 1 && forall i :: 1 <= i < |s| ==> IsDigitChar(s[i]) then Wrappers.Some(0 - DecimalToNat(s[1..]) as int)
      else Wrappers.None
    else if |s| > 0 && forall i :: 0 <= i < |s| ==> IsDigitChar(s[i]) then Wrappers.Some(DecimalToNat(s))
    else Wrappers.None
  }

  lemma {:induction false} NatDecimalRoundTrip(n: nat)
    ensures DecimalToNat(NatToDecimal(n)) == n
  {
    var d := NatToDecimal(n);
    if n >= 10 {
      NatDecimalRoundTrip(n / 10);
      assert d[..|d| - 1] == NatToDecimal(n / 10);
      assert DigitValue(DigitChar(n % 10)) == n % 10;
    } else {
      assert d[..0] == [];
      assert DigitValue(DigitChar(n)) == n;
    }
  }

  /** Reading back the decimal rendering of any int gives that int. */
  lemma IntDecimalRoundTrip(n: int)
    ensures DecimalToInt(IntToDecimal(n)) == Wrappers.Some(n)
  {
    if n < 0 {
      NatDecimalRoundTrip(-n);
      assert IntToDecimal(n)[1..] == NatToDecimal(-n);
    } else {
      NatDecimalRoundTrip(n);
    }
  }
}
