/** `str(n)` for Python integers, as used by the f-strings `f"Page: {page}"` and
    `f"# Files: {n}"`, with a parser that inverts it. */
module Decimal {
  import opened Text

  function DigitChar(d: nat): (c: char)
    requires d < 10
    ensures IsDigit(c)
  {
    ('0' as int + d) as char
  }

  function DigitValue(c: char): (d: nat)
    requires IsDigit(c)
    ensures d < 10 && DigitChar(d) == c
  {
    c as int - '0' as int
  }

  /** Decimal digits of `n`, most significant first, without leading zeros. */
  function NatToString(n: nat): (r: string)
    ensures IsDigits(r)
    ensures |r| > 1 ==> r[0] != '0'
    decreases n
  {
    if n < 10 then [DigitChar(n)] else NatToString(n / 10) + [DigitChar(n % 10)]
  }

  function ParseNat(s: string): nat
    requires forall i :: 0 <= i < |s| ==> IsDigit(s[i])
    decreases |s|
  {
    if |s| == 0 then 0 else 10 * ParseNat(s[..|s| - 1]) + DigitValue(s[|s| - 1])
  }

  lemma {:induction false} ParseNatToString(n: nat)
    ensures ParseNat(NatToString(n)) == n
    decreases n
  {
    if n >= 10 {
      var s := NatToString(n);
      assert s[..|s| - 1] == NatToString(n / 10);
      ParseNatToString(n / 10);
    }
  }

  /** `str(n)`: an optional minus sign, then the digits of `|n|`, with no
      leading zero (so 0 is the only number whose text starts with '0'). */
  function IntToString(n: int): (r: string)
    ensures |r| > 0
    ensures '\n' !in r
    ensures n >= 0 <==> IsDigits(r)
    ensures n >= 0 ==> |r| > 1 ==> r[0] != '0'
    ensures n < 0 ==> |r| > 1 && r[0] == '-' && IsDigits(r[1..]) && r[1] != '0'
  {
    if n < 0 then
      var r := "-" + NatToString(-n);
      assert !IsDigit(r[0]);
      assert r[1..] == NatToString(-n);
      r
    else NatToString(n)
  }

  /** `int(s)` on what `str` produces. */
  function ParseInt(s: string): int
    requires IsDigits(s) || (|s| > 1 && s[0] == '-' && IsDigits(s[1..]))
  {
    if s[0] == '-' then -(ParseNat(s[1..]) as int) else ParseNat(s)
  }

  /** Rendering an integer loses nothing: it can be read back. */
  lemma IntToStringRoundTrip(n: int)
    ensures var s := IntToString(n);
      (IsDigits(s) || (|s| > 1 && s[0] == '-' && IsDigits(s[1..]))) && ParseInt(s) == n
  {
    if n < 0 {
      assert IntToString(n)[1..] == NatToString(-n);
      ParseNatToString(-n);
    } else {
      ParseNatToString(n);
    }
  }
}
