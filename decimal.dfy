/** Decimal rendering of natural numbers as JavaScript's `String(n)` gives it,
    `padStart` with a fill character, and the inverse reading of a digit
    string, with the round trips between them. */
module Decimal {

  predicate IsDigit(c: char) {
    '0' <= c <= '9'
  }

  predicate AllDigits(s: string) {
    forall i :: 0 <= i < |s| ==> IsDigit(s[i])
  }

  function DigitChar(d: nat): (c: char)
    requires d < 10
    ensures IsDigit(c)
  {
    ('0' as int + d) as char
  }

  function DigitValue(c: char): (d: nat)
    requires IsDigit(c)
    ensures d < 10
  {
    c as int - '0' as int
  }

  function Pow10(k: nat): (p: nat)
    ensures p >= 1
  {
    if k == 0 then 1 else 10 * Pow10(k - 1)
  }

  /** `String(n)` for a non-negative integer: the digits of n, most significant
      first, with no leading zero unless n is 0 itself. */
  function NatToString(n: nat): (s: string)
    ensures |s| >= 1 && AllDigits(s)
    ensures s[0] == '0' <==> n == 0
    decreases n
  {
    if n < 10 then [DigitChar(n)] else NatToString(n / 10) + [DigitChar(n % 10)]
  }

  /** The number a string of digits denotes (leading zeros allowed). */
  function Value(s: string): nat
    requires AllDigits(s)
  {
    if s == [] then 0 else Value(s[..|s| - 1]) * 10 + DigitValue(s[|s| - 1])
  }

  function Repeat(c: char, k: nat): (s: string)
    ensures |s| == k && forall i :: 0 <= i < k ==> s[i] == c
  {
    if k == 0 then [] else [c] + Repeat(c, k - 1)
  }

  /** `s.padStart(width, fill)` for a one-character fill. */
  function PadStart(s: string, width: nat, fill: char): string
  {
    if |s| >= width then s else Repeat(fill, width - |s|) + s
  }

  /** Padding gives `s` itself when it is already that wide, otherwise `s`
      behind enough fill characters to reach the width. */
  lemma PadStartShape(s: string, width: nat, fill: char)
    ensures var r := PadStart(s, width, fill);
      && |r| == (if |s| >= width then |s| else width)
      && r[|r| - |s|..] == s
      && forall i :: 0 <= i < |r| - |s| ==> r[i] == fill
  {
  }

  /** Reading back what `String(n)` wrote gives n. */
  lemma {:induction false} ValueOfNatToString(n: nat)
    ensures Value(NatToString(n)) == n
    decreases n
  {
    if n >= 10 {
      var s := NatToString(n);
      ValueOfNatToString(n / 10);
      assert s[..|s| - 1] == NatToString(n / 10);
      assert s[|s| - 1] == DigitChar(n % 10);
    }
  }

  lemma {:induction false} ValueOfZeros(k: nat)
    ensures Value(Repeat('0', k)) == 0
  {
    if k > 0 {
      var z := Repeat('0', k);
      assert z[..k - 1] == Repeat('0', k - 1);
      ValueOfZeros(k - 1);
    }
  }

  /** Leading zeros do not change the value of a digit string. */
  lemma {:induction false} ValueIgnoresLeadingZeros(k: nat, s: string)
    requires AllDigits(s)
    ensures AllDigits(Repeat('0', k) + s)
    ensures Value(Repeat('0', k) + s) == Value(s)
    decreases |s|
  {
    var z := Repeat('0', k);
    if s == [] {
      assert z + s == z;
      ValueOfZeros(k);
    } else {
      var t := z + s;
      assert t[..|t| - 1] == z + s[..|s| - 1];
      assert t[|t| - 1] == s[|s| - 1];
      ValueIgnoresLeadingZeros(k, s[..|s| - 1]);
    }
  }

  /** A number below 10^k is written with at most k digits, one at or above it
      with more than k. */
  lemma {:induction false} NatToStringLength(n: nat, k: nat)
    requires k >= 1
    ensures |NatToString(n)| <= k <==> n < Pow10(k)
    decreases n
  {
    if n >= 10 {
      if k == 1 {
        assert |NatToString(n)| >= 2 by {
          assert |NatToString(n)| == |NatToString(n / 10)| + 1;
        }
      } else {
        NatToStringLength(n / 10, k - 1);
        assert n / 10 < Pow10(k - 1) <==> n < Pow10(k);
      }
    }
  }

  /** Zero-padding `String(n)` to a width gives a digit string of exactly that
      width (when n fits) that still reads back as n. */
  lemma PaddedValue(n: nat, width: nat)
    ensures AllDigits(PadStart(NatToString(n), width, '0'))
    ensures Value(PadStart(NatToString(n), width, '0')) == n
    ensures |PadStart(NatToString(n), width, '0')| >= width
    ensures width >= 1 && n < Pow10(width) ==> |PadStart(NatToString(n), width, '0')| == width
  {
    var s := NatToString(n);
    ValueOfNatToString(n);
    if |s| < width {
      ValueIgnoresLeadingZeros(width - |s|, s);
    }
    if width >= 1 {
      NatToStringLength(n, width);
    }
  }

  /** A padded field keeps exactly its width when the number has no more
      digits than that; otherwise it is longer. */
  lemma PaddedLength(n: nat, width: nat)
    requires width >= 1
    ensures |PadStart(NatToString(n), width, '0')| == width <==> n < Pow10(width)
  {
    PaddedValue(n, width);
    NatToStringLength(n, width);
  }

  lemma SmallPowers()
    ensures Pow10(2) == 100 && Pow10(3) == 1000
  {
    assert Pow10(1) == 10;
  }
}
