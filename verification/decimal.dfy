/** Base-10 rendering of integers, as JavaScript's `Number.prototype.toString`
    and template-literal interpolation produce it for integral values below
    10^21 in magnitude. */
module Decimal {

  function Pow10(k: nat): (r: nat)
    ensures r >= 1
  {
    if k == 0 then 1 else 10 * Pow10(k - 1)
  }

  function DigitChar(d: nat): (c: char)
    requires d < 10
  {
    "0123456789"[d]
  }

  predicate IsDigit(c: char)
  {
    '0' <= c <= '9'
  }

  function DigitValue(c: char): (d: nat)
    requires IsDigit(c)
  {
    (c as int - '0' as int) as nat
  }

  /** The decimal digits of `n`, most significant first, without leading zeros. */
  function NatToDecimal(n: nat): (s: string)
    ensures |s| >= 1
    ensures forall i :: 0 <= i < |s| ==> IsDigit(s[i])
  {
    if n < 10 then [DigitChar(n)] else NatToDecimal(n / 10) + [DigitChar(n % 10)]
  }

  /** The rendering of a signed integer: a leading `-` for negative values. */
  function IntToDecimal(t: int): (s: string)
  {
    if t < 0 then "-" + NatToDecimal(-t) else NatToDecimal(t)
  }

  /** Reads a non-empty string of digits back as a number. */
  function ParseDecimal(s: string): (n: nat)
    requires |s| >= 1
    requires forall i :: 0 <= i < |s| ==> IsDigit(s[i])
  {
    if |s| == 1 then DigitValue(s[0])
    else 10 * ParseDecimal(s[..|s| - 1]) + DigitValue(s[|s| - 1])
  }

  /** Parsing the rendering recovers the number, so the rendering is injective. */
  lemma {:induction false} DecimalRoundTrip(n: nat)
    ensures ParseDecimal(NatToDecimal(n)) == n
  {
    var s := NatToDecimal(n);
    if n >= 10 {
      DecimalRoundTrip(n / 10);
      assert s[..|s| - 1] == NatToDecimal(n / 10);
    }
  }

  lemma {:induction false} Pow10Monotone(j: nat, k: nat)
    requires j <= k
    ensures Pow10(j) <= Pow10(k)
  {
    if j < k {
      Pow10Monotone(j, k - 1);
    }
  }

  /** A rendering of length k is a number in [10^(k-1), 10^k), except that
      zero is the one-character string "0". */
  lemma {:induction false} DecimalLengthBounds(n: nat)
    ensures n < Pow10(|NatToDecimal(n)|)
    ensures n == 0 || Pow10(|NatToDecimal(n)| - 1) <= n
  {
    if n >= 10 {
      DecimalLengthBounds(n / 10);
    }
  }

  /** The rendering of a natural number has exactly `k` characters iff the
      number lies in [10^(k-1), 10^k) (or is 0, for `k` = 1). */
  lemma DecimalLength(n: nat, k: nat)
    requires k >= 1
    ensures |NatToDecimal(n)| == k <==> (Pow10(k - 1) <= n || (k == 1 && n == 0)) && n < Pow10(k)
  {
    var len := |NatToDecimal(n)|;
    DecimalLengthBounds(n);
    if len < k {
      Pow10Monotone(len, k - 1);
    } else if len > k {
      Pow10Monotone(k, len - 1);
    }
  }

  /** The case the VWAP anchor heuristic relies on: ten characters means
      10^9 <= n < 10^10. */
  lemma TenDigits(n: nat)
    ensures |NatToDecimal(n)| == 10 <==> 1000000000 <= n < 10000000000
  {
    DecimalLength(n, 10);
    assert Pow10(9) == 1000000000 && Pow10(10) == 10000000000;
  }
}
