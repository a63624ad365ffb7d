/** Numbers as strings of decimal digits. */
module Decimals {
  predicate IsDigit(c: char) {
    '0' <= c <= '9'
  }

  function DigitValue(c: char): nat
    requires IsDigit(c)
  {
    c as int - '0' as int
  }

  predicate AllDigits(s: string) {
    forall i :: 0 <= i < |s| ==> IsDigit(s[i])
  }

  /** The number a digit string denotes. */
  function DecimalValue(s: string): nat
    requires AllDigits(s)
  {
    if s == "" then 0 else DecimalValue(s[..|s| - 1]) * 10 + DigitValue(s[|s| - 1])
  }

  function DigitChar(d: nat): char
    requires d < 10
  {
    ('0' as int + d) as char
  }

  function Decimal(n: nat): (s: string)
    ensures s != ""
  {
    if n < 10 then [DigitChar(n)] else Decimal(n / 10) + [DigitChar(n % 10)]
  }

  lemma {:induction false} DecimalDigits(n: nat)
    ensures AllDigits(Decimal(n)) && DecimalValue(Decimal(n)) == n
    ensures n > 0 ==> Decimal(n)[0] != '0'
  {
    var s := Decimal(n);
    if n < 10 {
      assert s[..|s| - 1] == "";
    } else {
      DecimalDigits(n / 10);
      assert s[..|s| - 1] == Decimal(n / 10);
    }
  }

  lemma {:induction false} DecimalPrefixes(n: nat, k: nat)
    requires 0 < n && 0 < k <= |Decimal(n)| && AllDigits(Decimal(n))
    ensures 0 < DecimalValue(Decimal(n)[..k]) <= n
    ensures k < |Decimal(n)| ==> DecimalValue(Decimal(n)[..k]) <= n / 10
  {
    var s := Decimal(n);
    if k == |s| {
      assert s[..k] == s;
      DecimalDigits(n);
    } else {
      assert s[..k] == Decimal(n / 10)[..k];
      DecimalDigits(n / 10);
      DecimalPrefixes(n / 10, k);
    }
  }
}
