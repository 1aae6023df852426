/** What decimal numerals are worth, apart from how they are read and written. */
module Numerals {
  import opened CacheKeys

  function Pow(base: nat, exponent: nat): nat {
    if exponent == 0 then 1 else base * Pow(base, exponent - 1)
  }

  const DIGITS := "0123456789"

  lemma DigitsAreTheirPlace(d: nat)
    requires d < 10
    ensures IsDigit(DIGITS[d]) && ToNat([DIGITS[d]]) == d
  {
    assert [DIGITS[d]][..0] == "";
  }

  /** Exactly the strings of one or more of the ten digits may follow `asOfSequence=`. */
  lemma DecimalIff(s: string)
    ensures IsDecimal(s) <==> s != "" && forall i :: 0 <= i < |s| ==> s[i] in DIGITS
  {
    forall c: char ensures IsDigit(c) <==> c in DIGITS {
      if IsDigit(c) { assert DIGITS[c as int - '0' as int] == c; }
    }
  }

  /** Positional notation: digits to the left count for ten times as much per place. */
  lemma {:induction false} NumeralsJoin(s: string, t: string)
    requires AllDigits(s) && AllDigits(t)
    ensures AllDigits(s + t) && ToNat(s + t) == ToNat(s) * Pow(10, |t|) + ToNat(t)
  {
    if t == "" {
      assert s + t == s;
    } else {
      var n := |t| - 1;
      NumeralsJoin(s, t[..n]);
      assert (s + t)[..|s + t| - 1] == s + t[..n];
      assert ToNat(s) * Pow(10, |t|) == 10 * (ToNat(s) * Pow(10, n));
    }
  }

  /** A number is written with at most d digits exactly when it is less than ten to the d. */
  lemma {:induction false} LengthIsMagnitude(n: nat, d: nat)
    requires d >= 1
    ensures |ToString(n)| <= d <==> n < Pow(10, d)
  {
    if n >= 10 {
      if d == 1 {
        assert Pow(10, 1) == 10 * Pow(10, 0);
      } else {
        LengthIsMagnitude(n / 10, d - 1);
      }
    } else {
      PowGrows(d);
    }
  }

  lemma {:induction false} PowGrows(d: nat)
    requires d >= 1
    ensures Pow(10, d) >= 10
  {
    if d > 1 { PowGrows(d - 1); }
  }

  lemma {:induction false} NoLeadingZero(n: nat)
    ensures n > 0 ==> ToString(n)[0] != '0'
    ensures n == 0 ==> ToString(n) == "0"
  {
    if n >= 10 { NoLeadingZero(n / 10); }
  }

  /** Writing undoes reading for every numeral without a leading zero. */
  lemma {:induction false} NumeralsReadBack(s: string)
    requires IsDecimal(s) && (s == "0" || s[0] != '0')
    ensures ToString(ToNat(s)) == s
  {
    var n := |s| - 1;
    var last := s[n] as int - '0' as int;
    if n == 0 {
      assert s[..0] == "" && s == [s[0]];
    } else {
      NumeralsReadBack(s[..n]);
      assert s == s[..n] + [s[n]];
      NonzeroNumeral(s[..n]);
      assert ToNat(s) / 10 == ToNat(s[..n]) && ToNat(s) % 10 == last;
    }
  }

  lemma {:induction false} NonzeroNumeral(s: string)
    requires IsDecimal(s) && s[0] != '0'
    ensures ToNat(s) >= 1
  {
    if |s| > 1 {
      NonzeroNumeral(s[..|s| - 1]);
    } else {
      assert s[..0] == "";
    }
  }

  lemma Ten()
    ensures IsDecimal("10") && ToNat("10") == 10 && ToString(10) == "10"
    ensures IsDecimal("0") && ToNat("0") == 0
  {
    DigitsAreTheirPlace(1);
    DigitsAreTheirPlace(0);
    assert "10" == "1" + "0";
    NumeralsJoin("1", "0");
    assert Pow(10, 1) == 10 * Pow(10, 0);
    NumeralsReadBack("10");
  }
}
