/** Lower-case hexadecimal text, as `%x` and `%0nx` print it. */
module Hexadecimal {

  predicate HexDigit(c: char) { '0' <= c <= '9' || 'a' <= c <= 'f' }

  function Digit(n: nat): (c: char)
    requires n < 16
    ensures HexDigit(c)
  {
    if n < 10 then '0' + n as char else 'a' + (n - 10) as char
  }

  function DigitValue(c: char): nat {
    if '0' <= c <= '9' then (c - '0') as nat else if 'a' <= c <= 'f' then (c - 'a') as nat + 10 else 0
  }

  function Hex(n: nat): (s: string) {
    if n < 16 then [Digit(n)] else Hex(n / 16) + [Digit(n % 16)]
  }

  function Zeros(n: nat): (s: string)
    ensures |s| == n && forall i :: 0 <= i < n ==> s[i] == '0'
  {
    seq(n, _ => '0')
  }

  function Padded(n: nat, width: nat): string {
    Zeros(if |Hex(n)| < width then width - |Hex(n)| else 0) + Hex(n)
  }

  function Value(s: string): nat {
    if s == [] then 0 else 16 * Value(s[..|s| - 1]) + DigitValue(s[|s| - 1])
  }

  function Pow16(k: nat): (p: nat)
    ensures p > 0
  {
    if k == 0 then 1 else 16 * Pow16(k - 1)
  }

  lemma {:induction false} HexDigits(n: nat)
    ensures |Hex(n)| >= 1 && forall i :: 0 <= i < |Hex(n)| ==> HexDigit(Hex(n)[i])
  {
    if n >= 16 { HexDigits(n / 16); }
  }

  /** The text has as many digits as the number needs. */
  lemma {:induction false} HexLength(n: nat, k: nat)
    requires k >= 1
    ensures |Hex(n)| <= k <==> n < Pow16(k)
  {
    HexDigits(n);
    if k == 1 {
      assert Pow16(1) == 16 * Pow16(0);
      if n >= 16 { HexDigits(n / 16); }
    } else if n >= 16 {
      HexLength(n / 16, k - 1);
      assert n / 16 < Pow16(k - 1) <==> n < 16 * Pow16(k - 1);
    } else {
      assert Pow16(k) == 16 * Pow16(k - 1);
    }
  }

  lemma {:induction false} HexRoundTrip(n: nat)
    ensures Value(Hex(n)) == n
  {
    if n < 16 {
      assert [Digit(n)][..0] == [];
    } else {
      HexRoundTrip(n / 16);
      assert Hex(n)[..|Hex(n)| - 1] == Hex(n / 16);
    }
  }

  lemma {:induction false} LeadingZeros(k: nat, s: string)
    ensures Value(Zeros(k) + s) == Value(s)
    decreases k + |s|
  {
    var z := Zeros(k) + s;
    if s != [] {
      assert z[..|z| - 1] == Zeros(k) + s[..|s| - 1];
      LeadingZeros(k, s[..|s| - 1]);
    } else if k > 0 {
      assert z[..|z| - 1] == Zeros(k - 1) + s;
      LeadingZeros(k - 1, s);
    }
  }

  lemma PaddedRoundTrip(n: nat, width: nat)
    ensures Value(Padded(n, width)) == n
  {
    HexRoundTrip(n);
    LeadingZeros(if |Hex(n)| < width then width - |Hex(n)| else 0, Hex(n));
  }

  /** A number that needs its leading digit does not start with zero. */
  lemma {:induction false} NoLeadingZero(n: nat)
    requires n > 0
    ensures |Hex(n)| >= 1 && Hex(n)[0] != '0'
  {
    if n >= 16 { NoLeadingZero(n / 16); }
  }
}
