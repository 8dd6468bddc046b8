/**
 * The two printf conversions createxdmf writes integers with: `%d` and
 * `%07d` (at least seven characters, padded with zeros after the sign).
 * A decimal reader is defined beside them so that both can be shown to
 * lose nothing.
 */
module Format {

  /** The character of decimal digit d. */
  function DigitChar(d: int): (ch: char)
    requires 0 <= d < 10
    ensures '0' <= ch <= '9'
    ensures ch as int - '0' as int == d
  {
    ('0' as int + d) as char
  }

  predicate IsDigits(s: string)
  {
    forall i | 0 <= i < |s| :: '0' <= s[i] <= '9'
  }

  /** The decimal digits of x, most significant first, with no leading zero. */
  function Digits(x: nat): (s: string)
    ensures |s| >= 1 && IsDigits(s)
    ensures x > 0 ==> s[0] != '0'
    decreases x
  {
    if x < 10 then [DigitChar(x)] else Digits(x / 10) + [DigitChar(x % 10)]
  }

  /** The value of a string of decimal digits; the empty string reads as 0. */
  function DigitsValue(s: string): nat
    requires IsDigits(s)
    decreases |s|
  {
    if s == [] then 0
    else DigitsValue(s[..|s| - 1]) * 10 + (s[|s| - 1] as int - '0' as int)
  }

  function Zeros(k: nat): (s: string)
    ensures |s| == k && IsDigits(s)
    ensures forall i | 0 <= i < k :: s[i] == '0'
  {
    if k == 0 then [] else Zeros(k - 1) + ['0']
  }

  /** s preceded by enough zeros to make it at least w characters wide. */
  function ZeroPad(s: string, w: nat): (r: string)
    ensures |r| == if |s| >= w then |s| else w
  {
    if |s| >= w then s else Zeros(w - |s|) + s
  }

  /** printf("%d", x). */
  function FormatD(x: int): (s: string)
    ensures |s| >= 1
    ensures s[0] == '-' <==> x < 0
  {
    if x >= 0 then Digits(x) else "-" + Digits(-x)
  }

  /** printf("%07d", x): the sign, if any, counts towards the width of seven. */
  function Format07(x: int): (s: string)
    ensures |s| >= 7
    ensures s[0] == '-' <==> x < 0
  {
    if x >= 0 then ZeroPad(Digits(x), 7) else "-" + ZeroPad(Digits(-x), 6)
  }

  /** Reading an optionally signed decimal integer. */
  function ParseInt(s: string): int
    requires IsDigits(s) || (|s| >= 1 && s[0] == '-' && IsDigits(s[1..]))
  {
    if |s| >= 1 && s[0] == '-' then -(DigitsValue(s[1..]) as int) else DigitsValue(s)
  }

  function Pow10(k: nat): (p: nat)
    ensures p >= 1
  {
    if k == 0 then 1 else 10 * Pow10(k - 1)
  }

  // ---------------------------------------------------------------------
  // Properties
  // ---------------------------------------------------------------------

  /** Reading back the digits of x gives x. */
  lemma {:induction false} DigitsRoundTrip(x: nat)
    ensures DigitsValue(Digits(x)) == x
    decreases x
  {
    var s := Digits(x);
    if x >= 10 {
      DigitsRoundTrip(x / 10);
      assert s[..|s| - 1] == Digits(x / 10);
    }
  }

  /** Leading zeros do not change the value read. */
  lemma {:induction false} LeadingZeros(k: nat, s: string)
    requires IsDigits(s)
    ensures IsDigits(Zeros(k) + s)
    ensures DigitsValue(Zeros(k) + s) == DigitsValue(s)
    decreases |s| + k
  {
    var z := Zeros(k) + s;
    if s == [] {
      assert z == Zeros(k);
      if k > 0 {
        assert z[..|z| - 1] == Zeros(k - 1);
        LeadingZeros(k - 1, []);
        assert Zeros(k - 1) + [] == Zeros(k - 1);
      }
    } else {
      assert z[..|z| - 1] == Zeros(k) + s[..|s| - 1];
      LeadingZeros(k, s[..|s| - 1]);
    }
  }

  /** x has at most k digits exactly when it is below 10^k. */
  lemma {:induction false} DigitsLength(x: nat, k: nat)
    requires k >= 1
    ensures |Digits(x)| <= k <==> x < Pow10(k)
    decreases x
  {
    if x >= 10 {
      if k == 1 {
        assert |Digits(x)| >= 2 by {
          assert |Digits(x)| == |Digits(x / 10)| + 1;
        }
      } else {
        DigitsLength(x / 10, k - 1);
        assert |Digits(x)| == |Digits(x / 10)| + 1;
      }
    }
  }

  /** Zero-padding the digits of a keeps them digits and keeps their value. */
  lemma PaddedDigits(a: nat, w: nat)
    ensures |ZeroPad(Digits(a), w)| >= 1 && IsDigits(ZeroPad(Digits(a), w))
    ensures DigitsValue(ZeroPad(Digits(a), w)) == a
  {
    var d := Digits(a);
    DigitsRoundTrip(a);
    if |d| < w {
      LeadingZeros(w - |d|, d);
    }
  }

  /** %07d loses nothing: the value is read back from the text. */
  lemma Format07RoundTrip(x: int)
    ensures IsDigits(Format07(x)) || (Format07(x)[0] == '-' && IsDigits(Format07(x)[1..]))
    ensures ParseInt(Format07(x)) == x
  {
    if x < 0 {
      PaddedDigits(-x, 6);
      SignedValue(ZeroPad(Digits(-x), 6));
    } else {
      PaddedDigits(x, 7);
    }
  }

  /** A minus sign before digits negates their value. */
  lemma SignedValue(p: string)
    requires |p| >= 1 && IsDigits(p)
    ensures ("-" + p)[0] == '-' && ("-" + p)[1..] == p
    ensures ParseInt("-" + p) == -(DigitsValue(p) as int)
  {
    assert ("-" + p)[1..] == p;
  }

  /** Distinct steps get distinct %07d names. */
  lemma Format07Injective(x: int, y: int)
    requires x != y
    ensures Format07(x) != Format07(y)
  {
    Format07RoundTrip(x);
    Format07RoundTrip(y);
  }

  /** %07d is exactly seven characters wide for -999999 <= x <= 9999999 and wider otherwise. */
  lemma Format07Width(x: int)
    ensures |Format07(x)| >= 7
    ensures |Format07(x)| == 7 <==> -(Pow10(6) as int) < x < Pow10(7)
  {
    if x >= 0 {
      DigitsLength(x, 7);
    } else {
      DigitsLength(-x, 6);
    }
  }

  /** %07d of a non-negative step is all digits. */
  lemma Format07Digits(x: int)
    requires x >= 0
    ensures IsDigits(Format07(x))
  {
    PaddedDigits(x, 7);
  }

  /** %d loses nothing either. */
  lemma FormatDRoundTrip(x: int)
    ensures IsDigits(FormatD(x)) || (FormatD(x)[0] == '-' && IsDigits(FormatD(x)[1..]))
    ensures ParseInt(FormatD(x)) == x
  {
    if x >= 0 {
      DigitsRoundTrip(x);
      assert FormatD(x)[0] != '-';
    } else {
      DigitsRoundTrip(-x);
      assert FormatD(x)[1..] == Digits(-x);
    }
  }
}
