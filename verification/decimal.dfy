/** Swift's string interpolation of integers, `"\(n)"`: base-ten digits, a minus sign when negative. */
module Decimal {

  predicate IsDigit(c: char) {
    '0' <= c <= '9'
  }

  function DigitChar(d: nat): (c: char)
    requires d < 10
    ensures IsDigit(c)
  {
    "0123456789"[d]
  }

  function DigitValue(c: char): (d: nat)
    requires IsDigit(c)
    ensures d < 10
  {
    (c as int) - ('0' as int)
  }

  function Pow10(k: nat): (r: nat)
    ensures r >= 1
  {
    if k == 0 then 1 else 10 * Pow10(k - 1)
  }

  /** The decimal digits of `n`, most significant first, without leading zeros. */
  function FromNat(n: nat): (r: string)
    ensures |r| >= 1
    ensures forall i :: 0 <= i < |r| ==> IsDigit(r[i])
    ensures r[0] == '0' <==> n == 0
    ensures |r| > 1 ==> r[0] != '0'
  {
    if n < 10 then [DigitChar(n)]
    else FromNat(n / 10) + [DigitChar(n % 10)]
  }

  /** Reads a string of decimal digits back as a number. */
  function ToNat(s: string): nat
    requires forall i :: 0 <= i < |s| ==> IsDigit(s[i])
  {
    if |s| == 0 then 0
    else 10 * ToNat(s[..|s| - 1]) + DigitValue(s[|s| - 1])
  }

  /** `s` is the way Swift writes `n`: digits only, reading back as `n`, and no leading
      zero unless `n` is zero itself. */
  predicate Spells(s: string, n: nat) {
    && |s| >= 1
    && (forall i :: 0 <= i < |s| ==> IsDigit(s[i]))
    && ToNat(s) == n
    && (|s| > 1 ==> s[0] != '0')
  }

  /** `"\(i)"` for a Swift `Int`: the digits of its magnitude, after a minus sign when negative. */
  function FromInt(i: int): (r: string)
    ensures |r| >= 1
    ensures r[0] == '-' <==> i < 0
    ensures i >= 0 ==> Spells(r, i)
    ensures i < 0 ==> Spells(r[1..], -i)
  {
    FromNatSpells(if i < 0 then -i else i);
    if i < 0 then "-" + FromNat(-i) else FromNat(i)
  }

  /** Reading the digits of `n` gives back `n`. */
  lemma {:induction false} ToNatFromNat(n: nat)
    ensures ToNat(FromNat(n)) == n
  {
    var r := FromNat(n);
    if n >= 10 {
      ToNatFromNat(n / 10);
      assert r[..|r| - 1] == FromNat(n / 10);
      assert DigitValue(r[|r| - 1]) == n % 10;
    } else {
      assert DigitValue(r[0]) == n;
    }
  }

  /** A number in [10^k, 10^(k+1)) is written with exactly k+1 digits. */
  lemma {:induction false} FromNatWidth(n: nat, k: nat)
    requires Pow10(k) <= n < Pow10(k + 1)
    ensures |FromNat(n)| == k + 1
  {
    if k > 0 {
      assert Pow10(k - 1) <= n / 10 < Pow10(k);
      FromNatWidth(n / 10, k - 1);
    }
  }

  /** `FromNat` writes numbers the way Swift does. */
  lemma FromNatSpells(n: nat)
    ensures Spells(FromNat(n), n)
  {
    ToNatFromNat(n);
  }

  /** A digit character is the character of its value. */
  lemma DigitRoundTrip(c: char)
    requires IsDigit(c)
    ensures DigitChar(DigitValue(c)) == c
  {
  }

  /** Digits reading as zero are all zeros. */
  lemma {:induction false} ToNatZero(s: string)
    requires forall i :: 0 <= i < |s| ==> IsDigit(s[i])
    requires ToNat(s) == 0
    ensures forall i :: 0 <= i < |s| ==> s[i] == '0'
  {
    if |s| > 0 {
      ToNatZero(s[..|s| - 1]);
      forall i | 0 <= i < |s| ensures s[i] == '0' {
        if i < |s| - 1 { assert s[..|s| - 1][i] == s[i]; }
      }
    }
  }

  /** Only `FromNat(n)` spells `n`, so the written form of a number is unique. */
  lemma {:induction false} SpellsIsFromNat(s: string, n: nat)
    requires Spells(s, n)
    ensures s == FromNat(n)
    decreases |s|
  {
    var d := s[|s| - 1];
    if |s| == 1 {
      assert ToNat(s[..0]) == 0;
      assert n == DigitValue(d);
      DigitRoundTrip(d);
      assert s == [d];
    } else {
      var p := s[..|s| - 1];
      assert p[0] == s[0];
      var m := ToNat(p);
      assert n == 10 * m + DigitValue(d);
      assert m != 0 by {
        if m == 0 { ToNatZero(p); }
      }
      assert Spells(p, m);
      SpellsIsFromNat(p, m);
      assert n / 10 == m && n % 10 == DigitValue(d);
      DigitRoundTrip(d);
      assert s == p + [d];
    }
  }

  /** Decimal text is injective: different numbers are written differently. */
  lemma FromNatInjective(m: nat, n: nat)
    requires FromNat(m) == FromNat(n)
    ensures m == n
  {
    ToNatFromNat(m);
    ToNatFromNat(n);
  }
}
