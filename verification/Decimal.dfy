/** Decimal numerals: natural numbers as strings of digits, and back. */
module Decimal {
  predicate IsDigit(c: char) { '0' <= c <= '9' }

  ghost predicate AreDigits(s: string) {
    forall i :: 0 <= i < |s| ==> IsDigit(s[i])
  }

  /** How many digits the text starts with. */
  function DigitsLength(s: string): (n: nat)
    ensures n <= |s|
  {
    if s != "" && IsDigit(s[0]) then 1 + DigitsLength(s[1..]) else 0
  }

  function DigitValue(c: char): nat {
    if IsDigit(c) then c as int - '0' as int else 0
  }

  function DigitChar(d: nat): (c: char)
    requires d < 10
    ensures IsDigit(c) && DigitValue(c) == d
  {
    '0' + d as char
  }

  function Pow10(k: nat): (p: nat)
    ensures p > 0
  {
    if k == 0 then 1 else 10 * Pow10(k - 1)
  }

  /** The number a numeral stands for. */
  function ValueOf(digits: string): nat {
    if digits == "" then 0 else 10 * ValueOf(digits[..|digits| - 1]) + DigitValue(digits[|digits| - 1])
  }

  function Signed(negative: bool, magnitude: nat): int {
    if negative then -(magnitude as int) else magnitude
  }

  /** The numeral of a number, without leading zeros. */
  function Numeral(n: nat): (s: string)
    ensures s != ""
  {
    if n < 10 then [DigitChar(n)] else Numeral(n / 10) + [DigitChar(n % 10)]
  }

  /** `^(0|[1-9]\d*)$` */
  predicate IsCanonical(s: string) {
    s == "0" || (s != "" && s[0] != '0' && DigitsLength(s) == |s|)
  }

  lemma {:induction false} AllDigits(s: string)
    ensures DigitsLength(s) == |s| <==> AreDigits(s)
  {
    if s != "" {
      AllDigits(s[1..]);
      assert AreDigits(s) <==> IsDigit(s[0]) && AreDigits(s[1..]);
    }
  }

  lemma {:induction false} DigitsRun(digits: string, rest: string)
    requires AreDigits(digits) && (rest == "" || !IsDigit(rest[0]))
    ensures DigitsLength(digits + rest) == |digits|
  {
    if digits != "" {
      DigitsRun(digits[1..], rest);
      assert (digits + rest)[1..] == digits[1..] + rest;
    } else {
      assert digits + rest == rest;
    }
  }

  lemma ValuePushes(s: string, c: char)
    ensures ValueOf(s + [c]) == 10 * ValueOf(s) + DigitValue(c)
  {
    assert (s + [c])[..|s|] == s;
  }

  lemma {:induction false} NumeralRoundTrips(n: nat)
    ensures ValueOf(Numeral(n)) == n && AreDigits(Numeral(n)) && IsCanonical(Numeral(n))
  {
    if n < 10 {
      assert Numeral(n)[..0] == "";
    } else {
      NumeralRoundTrips(n / 10);
      ValuePushes(Numeral(n / 10), DigitChar(n % 10));
      AllDigits(Numeral(n));
      assert Numeral(n)[0] == Numeral(n / 10)[0];
      NonZeroNumeral(n / 10);
    }
  }

  lemma NonZeroNumeral(n: nat)
    requires n > 0 && ValueOf(Numeral(n)) == n && IsCanonical(Numeral(n))
    ensures Numeral(n)[0] != '0'
  {
    assert "0"[..0] == "" && ValueOf("0") == 0;
  }

  /** Only its own numeral reads as a number and is canonical. */
  lemma {:induction false} CanonicalIsNumeral(s: string)
    requires IsCanonical(s)
    ensures Numeral(ValueOf(s)) == s
  {
    AllDigits(s);
    var n := |s| - 1;
    assert s == s[..n] + [s[n]];
    ValuePushes(s[..n], s[n]);
    if n == 0 {
      assert s[..0] == "" && ValueOf(s) == DigitValue(s[0]);
    } else {
      AllDigits(s[..n]);
      assert s[..n][0] == s[0];
      CanonicalIsNumeral(s[..n]);
      LeadingDigit(s[..n]);
    }
  }

  lemma {:induction false} LeadingDigit(s: string)
    requires s != "" && s[0] != '0' && AreDigits(s)
    ensures ValueOf(s) >= 1
  {
    var n := |s| - 1;
    if n > 0 { LeadingDigit(s[..n]); } else { assert s[..0] == ""; }
  }

  lemma {:induction false} ValueJoins(s: string, t: string)
    ensures ValueOf(s + t) == ValueOf(s) * Pow10(|t|) + ValueOf(t)
  {
    var n := |t| - 1;
    if t == "" {
      assert s + t == s;
    } else {
      ValueJoins(s, t[..n]);
      assert s + t == (s + t[..n]) + [t[n]];
      ValuePushes(s + t[..n], t[n]);
      TimesTen(ValueOf(s), Pow10(n));
    }
  }

  lemma TimesTen(a: nat, p: nat)
    ensures 10 * (a * p) == a * (10 * p)
  {}

  lemma {:induction false} ValueBelow(s: string)
    ensures ValueOf(s) < Pow10(|s|)
  {
    if s != "" { ValueBelow(s[..|s| - 1]); }
  }

  function Zeros(k: nat): (s: string)
    ensures |s| == k && forall i :: 0 <= i < k ==> s[i] == '0'
  {
    seq(k, _ => '0')
  }

  lemma {:induction false} ZerosAreNothing(k: nat)
    ensures ValueOf(Zeros(k)) == 0
  {
    if k > 0 {
      ZerosAreNothing(k - 1);
      assert Zeros(k)[..k - 1] == Zeros(k - 1);
    }
  }

  lemma {:induction false} NumeralLength(n: nat, k: nat)
    requires k > 0
    ensures n < Pow10(k) <==> |Numeral(n)| <= k
  {
    if n >= 10 && k > 1 {
      NumeralLength(n / 10, k - 1);
    } else if n >= 10 {
      assert Pow10(1) == 10;
    } else {
      assert Pow10(k) >= 10 by { assert Pow10(k - 1) >= 1; }
    }
  }
}
