/** Integer-to-text conversion as JavaScript performs it for integral numbers:
    `n.toString(16).toUpperCase()` and the decimal form used by template strings. */
module Numerals {

  const DigitChars: string := "0123456789ABCDEF"

  predicate ValidBase(base: nat) { 2 <= base <= 16 }

  /** The value of a digit character in `base`, if it is one. */
  function DigitValue(c: char, base: nat): (v: int)
    requires ValidBase(base)
    ensures -1 <= v < base
    ensures v >= 0 ==> DigitChars[v] == c
  {
    if '0' <= c <= '9' && (c as int) - ('0' as int) < base then (c as int) - ('0' as int)
    else if 'A' <= c <= 'F' && (c as int) - ('A' as int) + 10 < base then (c as int) - ('A' as int) + 10
    else -1
  }

  lemma DivModBase(n: nat, base: nat)
    requires ValidBase(base) && n >= base
    ensures n == (n / base) * base + n % base
    ensures 0 <= n % base < base
    ensures 1 <= n / base < n
  {
    var q, r := n / base, n % base;
    assert n == q * base + r;
    assert q * base >= q * 2 by {
      assert q * base - q * 2 == q * (base - 2);
    }
  }

  /** The digits of `n` in `base`, most significant first, without leading zeros. */
  function NatToBase(n: nat, base: nat): (s: string)
    requires ValidBase(base)
    ensures |s| >= 1
    ensures forall i :: 0 <= i < |s| ==> DigitValue(s[i], base) >= 0
    ensures |s| > 1 ==> s[0] != '0'
    decreases n
  {
    if n < base then
      DigitValueOfDigitChar(n, base);
      [DigitChars[n]]
    else
      DivModBase(n, base);
      DigitValueOfDigitChar(n % base, base);
      NatToBase(n / base, base) + [DigitChars[n % base]]
  }

  /** Reads a string of digits back as a number (the inverse of NatToBase). */
  function BaseToNat(s: string, base: nat): nat
    requires ValidBase(base)
    requires forall i :: 0 <= i < |s| ==> DigitValue(s[i], base) >= 0
    decreases |s|
  {
    if s == [] then 0
    else BaseToNat(s[..|s| - 1], base) * base + DigitValue(s[|s| - 1], base)
  }

  lemma DigitValueOfDigitChar(d: nat, base: nat)
    requires ValidBase(base) && d < base
    ensures DigitValue(DigitChars[d], base) == d
  {
  }

  /** Printing a number and reading it back gives the number. */
  lemma {:induction false} BaseRoundTrip(n: nat, base: nat)
    requires ValidBase(base)
    ensures BaseToNat(NatToBase(n, base), base) == n
    decreases n
  {
    if n < base {
      DigitValueOfDigitChar(n, base);
    } else {
      DivModBase(n, base);
      var q, r := n / base, n % base;
      BaseRoundTrip(q, base);
      var s := NatToBase(n, base);
      assert s == NatToBase(q, base) + [DigitChars[r]];
      assert s[..|s| - 1] == NatToBase(q, base);
      DigitValueOfDigitChar(r, base);
      assert BaseToNat(s, base) == BaseToNat(NatToBase(q, base), base) * base + r;
    }
  }

  /** Distinct numbers print differently. */
  lemma NatToBaseInjective(m: nat, n: nat, base: nat)
    requires ValidBase(base)
    requires NatToBase(m, base) == NatToBase(n, base)
    ensures m == n
  {
    BaseRoundTrip(m, base);
    BaseRoundTrip(n, base);
  }

  /** Every character is a digit of `base`. */
  predicate IsDigits(s: string, base: nat)
    requires ValidBase(base)
  {
    forall i :: 0 <= i < |s| ==> DigitValue(s[i], base) >= 0
  }

  /** `n.toString(base)` for an integral number, with upper-case letters: a
      minus sign for negative numbers, then the digits of the magnitude,
      which read back as that magnitude. */
  function IntToBase(n: int, base: nat): (s: string)
    requires ValidBase(base)
    ensures |s| >= 1
    ensures s[0] == '-' <==> n < 0
    ensures n >= 0 ==> IsDigits(s, base) && BaseToNat(s, base) == n
    ensures n < 0 ==> IsDigits(s[1..], base) && BaseToNat(s[1..], base) == -n
  {
    var m: nat := if n < 0 then -n else n;
    BaseRoundTrip(m, base);
    var digits := NatToBase(m, base);
    assert DigitValue(digits[0], base) >= 0;
    if n < 0 then
      var s := "-" + digits;
      assert s[1..] == digits;
      s
    else digits
  }

  /** The decimal text of an integral number, as template strings print it. */
  function IntToDecimal(n: int): (s: string)
    ensures |s| >= 1
  {
    IntToBase(n, 10)
  }

  /** `n.toString(16).toUpperCase()` for an integral number. */
  function IntToHexUpper(n: int): (s: string)
    ensures |s| >= 1
  {
    IntToBase(n, 16)
  }

  /** Distinct integers print differently in any base. */
  lemma IntToBaseInjective(m: int, n: int, base: nat)
    requires ValidBase(base)
    requires IntToBase(m, base) == IntToBase(n, base)
    ensures m == n
  {
    var s := IntToBase(m, base);
    if m < 0 {
      assert n < 0;
      assert BaseToNat(s[1..], base) == -m == -n;
    } else {
      assert n >= 0;
    }
  }

  /** Every character of a printed hexadecimal id is a digit or an upper-case
      letter A-F, apart from a leading minus sign. */
  lemma HexIsUpperCase(n: int)
    ensures var s := IntToHexUpper(n);
      forall i :: 0 <= i < |s| ==> ('0' <= s[i] <= '9' || 'A' <= s[i] <= 'F' || (i == 0 && n < 0 && s[i] == '-'))
  {
    var s := IntToHexUpper(n);
    forall i | 0 <= i < |s| ensures '0' <= s[i] <= '9' || 'A' <= s[i] <= 'F' || (i == 0 && n < 0 && s[i] == '-') {
      if n < 0 && i > 0 {
        assert s[i] == s[1..][i - 1];
        assert DigitValue(s[1..][i - 1], 16) >= 0;
      } else if n >= 0 {
        assert DigitValue(s[i], 16) >= 0;
      }
    }
  }
}
