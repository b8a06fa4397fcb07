/**
 * Decimal rendering of unsigned integers, as std::to_string produces it for an
 * unsigned argument: the digits of the value, most significant first, without
 * sign or leading zeros, and "0" for zero.
 */
module Decimal {

  predicate IsDigit(c: char) { '0' <= c <= '9' }

  predicate AllDigits(s: string) { forall i :: 0 <= i < |s| ==> IsDigit(s[i]) }

  function DigitChar(d: nat): (c: char)
    requires d < 10
    ensures IsDigit(c) && c as int - '0' as int == d
  {
    ('0' as int + d) as char
  }

  /** std::to_string of an unsigned value. */
  function ToDecimal(n: nat): (s: string)
    ensures |s| >= 1 && AllDigits(s)
    ensures (|s| > 1 ==> s[0] != '0')
    decreases n
  {
    if n < 10 then [DigitChar(n)] else ToDecimal(n / 10) + [DigitChar(n % 10)]
  }

  /** Reads a string of decimal digits back as a number. */
  function ParseDecimal(s: string): nat
    requires AllDigits(s)
  {
    if s == [] then 0 else ParseDecimal(s[..|s| - 1]) * 10 + (s[|s| - 1] as int - '0' as int)
  }

  lemma {:induction false} ParseToDecimal(n: nat)
    ensures ParseDecimal(ToDecimal(n)) == n
    decreases n
  {
    if n >= 10 {
      var s := ToDecimal(n);
      assert s[..|s| - 1] == ToDecimal(n / 10);
      ParseToDecimal(n / 10);
    }
  }

  /** Distinct numbers render differently. */
  lemma ToDecimalInjective(m: nat, n: nat)
    requires ToDecimal(m) == ToDecimal(n)
    ensures m == n
  {
    ParseToDecimal(m);
    ParseToDecimal(n);
  }

  lemma ConcatIndex(a: string, b: string)
    ensures forall i :: 0 <= i < |a| ==> (a + b)[i] == a[i]
    ensures |b| > 0 ==> (a + b)[|a|] == b[0]
  {
  }

  /**
   * A run of digits followed by a non-digit splits uniquely: the renderings
   * below are read back field by field with this.
   */
  lemma DigitRunSplit(a: string, b: string, a2: string, b2: string)
    requires AllDigits(a) && AllDigits(a2)
    requires |b| > 0 && !IsDigit(b[0]) && |b2| > 0 && !IsDigit(b2[0])
    requires a + b == a2 + b2
    ensures a == a2 && b == b2
  {
    if |a| < |a2| {
      ConcatIndex(a, b);
      ConcatIndex(a2, b2);
      assert false;
    } else if |a2| < |a| {
      ConcatIndex(a, b);
      ConcatIndex(a2, b2);
      assert false;
    }
    assert a == (a + b)[..|a|];
    assert b == (a + b)[|a|..];
  }

  /** The same split after a common prefix. */
  lemma PrefixedDigitRunSplit(p: string, a: string, b: string, a2: string, b2: string)
    requires AllDigits(a) && AllDigits(a2)
    requires |b| > 0 && !IsDigit(b[0]) && |b2| > 0 && !IsDigit(b2[0])
    requires p + a + b == p + a2 + b2
    ensures a == a2 && b == b2
  {
    assert (p + a + b)[|p|..] == a + b;
    assert (p + a2 + b2)[|p|..] == a2 + b2;
    DigitRunSplit(a, b, a2, b2);
  }
}
