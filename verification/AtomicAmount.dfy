/** Amounts as decimal strings and as integers of the atomic unit. */
module AtomicAmount {
  import opened Common
  import opened Decimal

  const ASI_DECIMALS := 8

  /** What both `trim` and `\s` take for white space. */
  predicate IsSpace(c: char) {
    var n := c as int;
    || 0x09 <= n <= 0x0D || n == 0x20 || n == 0xA0 || n == 0x1680 || 0x2000 <= n <= 0x200A
    || n == 0x2028 || n == 0x2029 || n == 0x202F || n == 0x205F || n == 0x3000 || n == 0xFEFF
  }

  predicate IsSeparator(c: char) { c == ',' || IsSpace(c) }

  function TrimStart(s: string): string {
    if s != "" && IsSpace(s[0]) then TrimStart(s[1..]) else s
  }

  function TrimEnd(s: string): string {
    if s != "" && IsSpace(s[|s| - 1]) then TrimEnd(s[..|s| - 1]) else s
  }

  function Trim(s: string): string { TrimEnd(TrimStart(s)) }

  function WithoutSeparators(s: string): string {
    if s == "" then "" else (if IsSeparator(s[0]) then "" else [s[0]]) + WithoutSeparators(s[1..])
  }

  /** `^\d+(?:\.\d+)?$` */
  predicate IsAmount(s: string) {
    var n := DigitsLength(s);
    n > 0 && (n == |s| || (s[n] == '.' && n + 1 < |s| && DigitsLength(s[n + 1..]) == |s| - n - 1))
  }

  function IntegerPart(s: string): string { s[..DigitsLength(s)] }

  function FractionPart(s: string): string {
    var n := DigitsLength(s);
    if n < |s| then s[n + 1..] else ""
  }

  /** A fraction cut or padded to so many digits. */
  function Fixed(fraction: string, decimals: nat): (f: string)
    ensures |f| == decimals
  {
    if |fraction| > decimals then fraction[..decimals] else fraction + Zeros(decimals - |fraction|)
  }

  datatype AmountError = EmptyAmount | InvalidFormat

  function Combined(whole: nat, fraction: nat): nat {
    whole * Pow10(ASI_DECIMALS) + fraction
  }

  function Magnitude(amount: string, decimals: nat): nat {
    Combined(ValueOf(IntegerPart(amount)), ValueOf(Fixed(FractionPart(amount), decimals)))
  }

  /** The amount a string stands for: trimmed, its sign taken off, then its
      separators removed. */
  function Parsed(amount: string, decimals: nat): Result<int, AmountError> {
    var s := Trim(amount);
    if s == "" then Err(EmptyAmount)
    else
      var negative := s[0] == '-';
      var digits := WithoutSeparators(if negative then s[1..] else s);
      if !IsAmount(digits) then Err(InvalidFormat) else Ok(Signed(negative, Magnitude(digits, decimals)))
  }

  method ToAtomicAmount(amount: string, decimals: nat) returns (r: Result<int, AmountError>)
    ensures r == Parsed(amount, decimals)
  {
    hide ValueOf, Combined, IsAmount, Trim, WithoutSeparators, IntegerPart, FractionPart;
    var amountString := Trim(amount);
    if amountString == "" { return Err(EmptyAmount); }
    var isNegative := false;
    if amountString[0] == '-' {
      isNegative := true;
      amountString := amountString[1..];
    }
    amountString := WithoutSeparators(amountString);
    if !IsAmount(amountString) { return Err(InvalidFormat); }
    var fraction := FractionPart(amountString);
    if |fraction| > decimals { fraction := fraction[..decimals]; }
    fraction := fraction + Zeros(decimals - |fraction|);
    assert fraction == Fixed(FractionPart(amountString), decimals);
    var result := Combined(ValueOf(IntegerPart(amountString)), ValueOf(fraction));
    return Ok(Signed(isNegative, result));
  }

  // ---- Formatting ----

  /** Left-padded with zeros. */
  function Padded(s: string, width: nat): string {
    if |s| < width then Zeros(width - |s|) + s else s
  }

  /** `(\.\d*?[1-9])0+$` and `\.0+$`, on the fraction: trailing zeros go. */
  function TrimZeros(fraction: string): string {
    if fraction != "" && fraction[|fraction| - 1] == '0' then TrimZeros(fraction[..|fraction| - 1]) else fraction
  }

  function Abs(x: int): nat { if x < 0 then -x else x }

  function Quotient(n: nat, p: nat): nat
    requires p > 0
  {
    n / p
  }

  function Remainder(n: nat, p: nat): nat
    requires p > 0
  {
    n % p
  }

  function FractionText(r: nat, decimals: nat): string { TrimZeros(Padded(Numeral(r), decimals)) }

  function AmountText(integer: string, fraction: string): string {
    integer + (if fraction == "" then "" else "." + fraction)
  }

  function SignText(negative: bool): string { if negative then "-" else "" }

  function FromAtomicAmount(x: int, decimals: nat): string {
    var p := Pow10(decimals);
    SignText(x < 0) + AmountText(Numeral(Quotient(Abs(x), p)), FractionText(Remainder(Abs(x), p), decimals))
  }

  // ---- Strings the parser takes as they are ----

  predicate IsPlain(c: char) { !IsSpace(c) && !IsSeparator(c) }

  lemma PlainIsTrimmed(s: string)
    requires forall i :: 0 <= i < |s| ==> IsPlain(s[i])
    ensures Trim(s) == s
  {}

  lemma {:induction false} PlainHasNoSeparators(s: string)
    requires forall i :: 0 <= i < |s| ==> IsPlain(s[i])
    ensures WithoutSeparators(s) == s
  {
    if s != "" {
      PlainHasNoSeparators(s[1..]);
      assert s == [s[0]] + s[1..];
    }
  }

  /** Digits, and digits after a point, are read as they stand. */
  lemma ReadsAmount(integer: string, fraction: string)
    requires AreDigits(integer) && integer != "" && AreDigits(fraction)
    ensures var s := AmountText(integer, fraction);
            IsAmount(s) && IntegerPart(s) == integer && FractionPart(s) == fraction
  {
    var tail := if fraction == "" then "" else "." + fraction;
    DigitsRun(integer, tail);
    AllDigits(fraction);
    var s := integer + tail;
    assert s[..|integer|] == integer;
    if fraction != "" { assert s[|integer| + 1..] == fraction; }
  }

  lemma AmountTextIsPlain(integer: string, fraction: string)
    requires AreDigits(integer) && integer != "" && AreDigits(fraction)
    ensures var s := AmountText(integer, fraction);
            s != "" && IsDigit(s[0]) && forall i :: 0 <= i < |s| ==> IsPlain(s[i])
  {}

  lemma ParsesSigned(negative: bool, integer: string, fraction: string, decimals: nat)
    requires AreDigits(integer) && integer != "" && AreDigits(fraction)
    ensures Parsed(SignText(negative) + AmountText(integer, fraction), decimals)
            == Ok(Signed(negative, Combined(ValueOf(integer), ValueOf(Fixed(fraction, decimals)))))
  {
    var text := AmountText(integer, fraction);
    AmountTextIsPlain(integer, fraction);
    ReadsAmount(integer, fraction);
    ParsesPlain(negative, text, decimals);
    hide *;
    MagnitudeOf(text, integer, fraction, decimals);
  }

  lemma MagnitudeOf(text: string, integer: string, fraction: string, decimals: nat)
    requires IntegerPart(text) == integer && FractionPart(text) == fraction
    ensures Magnitude(text, decimals) == Combined(ValueOf(integer), ValueOf(Fixed(fraction, decimals)))
  {
    hide Combined, ValueOf, Fixed, IntegerPart, FractionPart;
  }

  lemma ParsesPlain(negative: bool, text: string, decimals: nat)
    requires text != "" && IsDigit(text[0]) && (forall i :: 0 <= i < |text| ==> IsPlain(text[i])) && IsAmount(text)
    ensures Parsed(SignText(negative) + text, decimals) == Ok(Signed(negative, Magnitude(text, decimals)))
  {
    hide IsAmount, Magnitude, Trim, WithoutSeparators;
    var s := SignText(negative) + text;
    assert forall i :: 0 <= i < |s| ==> IsPlain(s[i]);
    PlainIsTrimmed(s);
    PlainHasNoSeparators(text);
    assert if negative then s[0] == '-' && s[1..] == text else s == text;
  }

  // ---- Format ----

  lemma {:induction false} TrimmedEndsInNonZero(fraction: string)
    requires AreDigits(fraction)
    ensures var t := TrimZeros(fraction); t == "" || t[|t| - 1] != '0'
  {
    if fraction != "" && fraction[|fraction| - 1] == '0' { TrimmedEndsInNonZero(fraction[..|fraction| - 1]); }
  }

  /** No two spellings: a canonical whole part, and a fraction only if there is one,
      of at most `decimals` digits and not ending in zero. */
  ghost predicate IsShortest(integer: string, fraction: string, decimals: nat) {
    && IsCanonical(integer) && AreDigits(fraction) && |fraction| <= decimals
    && (fraction == "" || fraction[|fraction| - 1] != '0')
  }

  lemma FormatIsShortest(x: int, decimals: nat)
    ensures exists integer, fraction ::
              FromAtomicAmount(x, decimals) == SignText(x < 0) + AmountText(integer, fraction) && IsShortest(integer, fraction, decimals)
  {
    hide Quotient, Remainder, Pow10, Numeral, FractionText, AmountText, IsShortest;
    var p := Pow10(decimals);
    var q, r := Quotient(Abs(x), p), Remainder(Abs(x), p);
    DivisionSplits(Abs(x), p);
    PartsAreShortest(q, r, decimals);
    assert FromAtomicAmount(x, decimals) == SignText(x < 0) + AmountText(Numeral(q), FractionText(r, decimals));
  }

  lemma PartsAreShortest(q: nat, r: nat, decimals: nat)
    requires r < Pow10(decimals)
    ensures IsShortest(Numeral(q), FractionText(r, decimals), decimals)
  {
    NumeralRoundTrips(q);
    PaddedIsDigits(r, decimals);
    FractionComesBack(r, decimals);
    var padded := Padded(Numeral(r), decimals);
    TrimmedEndsInNonZero(padded);
    if decimals == 0 {
      assert "0"[..0] == "" && TrimZeros("0") == "";
    } else {
      TrimmedZerosComeBack(padded, decimals);
    }
    hide Padded, TrimZeros, Numeral, Fixed, ValueOf, Pow10;
  }

  // ---- Round trip ----

  lemma {:induction false} TrimmedZerosComeBack(fraction: string, decimals: nat)
    requires AreDigits(fraction) && |fraction| <= decimals
    ensures |TrimZeros(fraction)| <= |fraction| && AreDigits(TrimZeros(fraction))
    ensures Fixed(TrimZeros(fraction), decimals) == Fixed(fraction, decimals)
  {
    var n := |fraction| - 1;
    if fraction != "" && fraction[n] == '0' {
      TrimmedZerosComeBack(fraction[..n], decimals);
      assert Fixed(fraction[..n], decimals) == Fixed(fraction, decimals);
    }
  }

  lemma PaddedIsDigits(n: nat, width: nat)
    requires n < Pow10(width)
    ensures width > 0 ==> |Padded(Numeral(n), width)| == width
    ensures AreDigits(Padded(Numeral(n), width)) && ValueOf(Padded(Numeral(n), width)) == n
  {
    NumeralRoundTrips(n);
    if width > 0 { NumeralLength(n, width); }
    hide Numeral, Pow10, IsCanonical;
    if |Numeral(n)| < width {
      ZerosInFront(width - |Numeral(n)|, Numeral(n));
      hide ValueOf;
    }
  }

  lemma ZerosInFront(k: nat, s: string)
    ensures ValueOf(Zeros(k) + s) == ValueOf(s)
  {
    ValueJoins(Zeros(k), s);
    ZerosAreNothing(k);
  }

  /** The fraction written for a remainder reads as that remainder again. */
  lemma FractionComesBack(r: nat, decimals: nat)
    requires r < Pow10(decimals)
    ensures AreDigits(FractionText(r, decimals)) && ValueOf(Fixed(FractionText(r, decimals), decimals)) == r
  {
    PaddedIsDigits(r, decimals);
    if decimals == 0 {
      assert "0"[..0] == "" && TrimZeros("0") == "" && Fixed("", 0) == "";
    } else {
      var padded := Padded(Numeral(r), decimals);
      TrimmedZerosComeBack(padded, decimals);
      assert padded + Zeros(0) == padded;
      hide Padded, TrimZeros, ValueOf, Pow10;
    }
  }

  lemma DivisionSplits(n: nat, p: nat)
    requires p > 0
    ensures n == Quotient(n, p) * p + Remainder(n, p) && Remainder(n, p) < p
  {}

  /** What parsing a formatted amount gives: the integer part is always scaled by
      10^8, whatever the decimals. */
  lemma ParsesFormatted(x: int, decimals: nat)
    ensures var p := Pow10(decimals);
            Parsed(FromAtomicAmount(x, decimals), decimals)
            == Ok(Signed(x < 0, Combined(Quotient(Abs(x), p), Remainder(Abs(x), p))))
  {
    hide Parsed, Quotient, Remainder, Pow10, Numeral, FractionText, AmountText, Fixed, ValueOf, IsCanonical, Combined;
    var p := Pow10(decimals);
    var q, r := Quotient(Abs(x), p), Remainder(Abs(x), p);
    DivisionSplits(Abs(x), p);
    NumeralRoundTrips(q);
    FractionComesBack(r, decimals);
    ParsesSigned(x < 0, Numeral(q), FractionText(r, decimals), decimals);
  }

  /** An amount survives formatting and parsing exactly when 8 decimals are asked
      for, or it has no whole part. */
  lemma RoundTripsIff(x: int, decimals: nat)
    ensures Parsed(FromAtomicAmount(x, decimals), decimals) == Ok(x) <==> decimals == ASI_DECIMALS || Abs(x) < Pow10(decimals)
  {
    hide Parsed, FromAtomicAmount, Pow10, Quotient, Remainder;
    var p := Pow10(decimals);
    var q, r := Quotient(Abs(x), p), Remainder(Abs(x), p);
    ParsesFormatted(x, decimals);
    DivisionSplits(Abs(x), p);
    PowersDiffer(decimals, ASI_DECIMALS);
    SameScale(q, p, Pow10(ASI_DECIMALS));
    WholeIffLarge(Abs(x), q, p, r);
  }

  lemma SameScale(q: nat, a: nat, b: nat)
    ensures q * a == q * b <==> q == 0 || a == b
  {
    if q != 0 && a != b {
      var d := b - a;
      assert q * b == q * a + q * d;
      assert q * d != 0;
    }
  }

  lemma WholeIffLarge(n: nat, q: nat, p: nat, r: nat)
    requires n == q * p + r && r < p
    ensures q == 0 <==> n < p
  {
    if q > 0 { assert q * p >= p; }
  }

  lemma {:induction false} PowersDiffer(j: nat, k: nat)
    ensures Pow10(j) == Pow10(k) <==> j == k
  {
    if j > 0 && k > 0 { PowersDiffer(j - 1, k - 1); }
  }

  /** The amount the client formats, with 8 decimals, always survives. */
  lemma EightDecimalsRoundTrip(x: int)
    ensures Parsed(FromAtomicAmount(x, ASI_DECIMALS), ASI_DECIMALS) == Ok(x)
  {
    RoundTripsIff(x, ASI_DECIMALS);
  }

  lemma EveryAmountRoundTripsIff(decimals: nat)
    ensures (forall x :: Parsed(FromAtomicAmount(x, decimals), decimals) == Ok(x)) <==> decimals == ASI_DECIMALS
  {
    forall x ensures Parsed(FromAtomicAmount(x, decimals), decimals) == Ok(x) <==>
                     decimals == ASI_DECIMALS || Abs(x) < Pow10(decimals) {
      RoundTripsIff(x, decimals);
    }
    hide Parsed, FromAtomicAmount;
    assert Abs(Pow10(decimals)) == Pow10(decimals);
    assert decimals != ASI_DECIMALS ==>
      Parsed(FromAtomicAmount(Pow10(decimals), decimals), decimals) != Ok(Pow10(decimals));
  }

  // ---- Truncation ----

  /** With 8 decimals, `integer.fraction` is read as that number times 10^8, rounded
      toward zero: fraction digits past the eighth are dropped. */
  lemma TruncatesTowardZero(negative: bool, integer: string, fraction: string)
    requires AreDigits(integer) && integer != "" && AreDigits(fraction)
    ensures exists magnitude: nat ::
              && Parsed(SignText(negative) + AmountText(integer, fraction), ASI_DECIMALS) == Ok(Signed(negative, magnitude))
              && IsFloorOfScaled(magnitude, ValueOf(integer + fraction), |fraction|)
  {
    var magnitude := Combined(ValueOf(integer), ValueOf(Fixed(fraction, ASI_DECIMALS)));
    ParsesSigned(negative, integer, fraction, ASI_DECIMALS);
    hide Parsed, AmountText, ValueOf, Fixed, Combined, IsFloorOfScaled, SignText, AreDigits;
    CombinedIsFloor(integer, fraction);
    assert IsFloorOfScaled(magnitude, ValueOf(integer + fraction), |fraction|);
  }

  /** magnitude / 10^8 <= digits / 10^places < (magnitude + 1) / 10^8 */
  ghost predicate IsFloorOfScaled(magnitude: nat, digits: nat, places: nat) {
    magnitude * Pow10(places) <= digits * Pow10(ASI_DECIMALS) < (magnitude + 1) * Pow10(places)
  }

  lemma CombinedIsFloor(integer: string, fraction: string)
    ensures IsFloorOfScaled(Combined(ValueOf(integer), ValueOf(Fixed(fraction, ASI_DECIMALS))), ValueOf(integer + fraction), |fraction|)
  {
    MagnitudeIsFloor(integer, fraction, ASI_DECIMALS);
    hide Pow10, ValueOf, Fixed;
  }

  lemma MagnitudeIsFloor(integer: string, fraction: string, decimals: nat)
    ensures var magnitude := ValueOf(integer) * Pow10(decimals) + ValueOf(Fixed(fraction, decimals));
            magnitude * Pow10(|fraction|) <= ValueOf(integer + fraction) * Pow10(decimals) < (magnitude + 1) * Pow10(|fraction|)
  {
    var i, f, g := ValueOf(integer), ValueOf(fraction), ValueOf(Fixed(fraction, decimals));
    var p, q := Pow10(|fraction|), Pow10(decimals);
    ValueJoins(integer, fraction);
    FixedIsFloor(fraction, decimals);
    hide Pow10, ValueOf, Fixed;
    Distributes(i, f, g, p, q);
  }

  lemma Distributes(i: nat, f: nat, g: nat, p: nat, q: nat)
    requires g * p <= f * q < (g + 1) * p
    ensures (i * q + g) * p <= (i * p + f) * q < (i * q + g + 1) * p
  {
    assert (i * q + g) * p == i * q * p + g * p;
    assert (i * p + f) * q == i * p * q + f * q;
    assert (i * q + g + 1) * p == i * q * p + (g + 1) * p;
    assert i * q * p == i * p * q;
  }

  lemma FixedIsFloor(fraction: string, decimals: nat)
    ensures ValueOf(Fixed(fraction, decimals)) * Pow10(|fraction|) <= ValueOf(fraction) * Pow10(decimals)
            < (ValueOf(Fixed(fraction, decimals)) + 1) * Pow10(|fraction|)
  {
    hide ValueOf, Pow10;
    if |fraction| > decimals {
      assert fraction == fraction[..decimals] + fraction[decimals..];
      CutDigits(fraction[..decimals], fraction[decimals..]);
    } else {
      PaddedDigits(fraction, decimals - |fraction|);
    }
  }

  lemma CutDigits(kept: string, cut: string)
    ensures ValueOf(kept) * Pow10(|kept + cut|) <= ValueOf(kept + cut) * Pow10(|kept|) < (ValueOf(kept) + 1) * Pow10(|kept + cut|)
  {
    ValueJoins(kept, cut);
    ValueBelow(cut);
    Pow10Adds(|cut|, |kept|);
    hide ValueOf, Pow10;
    CutIsFloor(ValueOf(kept), ValueOf(cut), Pow10(|cut|), Pow10(|kept|));
  }

  lemma PaddedDigits(fraction: string, k: nat)
    ensures ValueOf(fraction + Zeros(k)) * Pow10(|fraction|) <= ValueOf(fraction) * Pow10(|fraction| + k)
            < (ValueOf(fraction + Zeros(k)) + 1) * Pow10(|fraction|)
  {
    hide ValueOf, Pow10;
    var f, z, p := ValueOf(fraction), Pow10(k), Pow10(|fraction|);
    ValueJoins(fraction, Zeros(k));
    ZerosAreNothing(k);
    assert ValueOf(fraction + Zeros(k)) == f * z;
    Pow10Adds(k, |fraction|);
    assert Pow10(|fraction| + k) == z * p;
    PadIsExact(f, z, p);
  }

  lemma {:induction false} Pow10Adds(j: nat, k: nat)
    ensures Pow10(j + k) == Pow10(j) * Pow10(k)
  {
    if j > 0 {
      Pow10Adds(j - 1, k);
      TenTimes(Pow10(j - 1), Pow10(k));
      assert Pow10(j + k) == 10 * Pow10(j + k - 1);
    }
  }

  lemma TenTimes(a: nat, b: nat)
    ensures 10 * (a * b) == 10 * a * b
  {}

  lemma CutIsFloor(kept: nat, cut: nat, c: nat, d: nat)
    requires cut < c && d > 0
    ensures kept * (c * d) <= (kept * c + cut) * d < (kept + 1) * (c * d)
  {
    assert (kept * c + cut) * d == kept * (c * d) + cut * d;
    assert (kept + 1) * (c * d) == kept * (c * d) + c * d;
    assert cut * d < c * d;
  }

  lemma PadIsExact(f: nat, k: nat, p: nat)
    requires p > 0
    ensures f * k * p <= f * (k * p) < (f * k + 1) * p
  {
    assert f * k * p == f * (k * p);
    assert (f * k + 1) * p == f * k * p + p;
  }
}
