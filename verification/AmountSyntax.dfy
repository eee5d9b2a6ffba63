/** Which texts the amount parser accepts, and what each of them means, said without
    the parser's own steps. */
module AmountSyntax {
  import opened Common
  import opened Decimal
  import opened AtomicAmount

  ghost predicate AllSpaces(s: string) {
    forall i :: 0 <= i < |s| ==> IsSpace(s[i])
  }

  ghost predicate AllSeparators(s: string) {
    forall i :: 0 <= i < |s| ==> IsSeparator(s[i])
  }

  /** The characters of `left` with the gaps before, between and behind them. */
  ghost function Spread(gaps: seq<string>, left: string): string
    requires |gaps| == |left| + 1
  {
    gaps[0] + if left == "" then "" else [left[0]] + Spread(gaps[1..], left[1..])
  }

  ghost predicate AreGaps(gaps: seq<string>, left: string) {
    |gaps| == |left| + 1 && forall i :: 0 <= i < |gaps| ==> AllSeparators(gaps[i])
  }

  /** `s` is `left`, which has no commas and spaces, with commas and spaces put in. */
  ghost predicate Leaves(s: string, left: string) {
    && (forall i :: 0 <= i < |left| ==> !IsSeparator(left[i]))
    && exists gaps :: AreGaps(gaps, left) && s == Spread(gaps, left)
  }

  /** `s` writes this amount: spaces, a minus sign or none, and then its digits, with
      commas and spaces anywhere among them. */
  ghost predicate Writes(s: string, negative: bool, integer: string, fraction: string) {
    && AreDigits(integer) && integer != "" && AreDigits(fraction)
    && exists lead, body :: IsWriting(s, negative, integer, fraction, lead, body)
  }

  ghost predicate IsWriting(s: string, negative: bool, integer: string, fraction: string, lead: string, body: string) {
    AllSpaces(lead) && s == lead + (SignText(negative) + body) && Leaves(body, AmountText(integer, fraction))
  }

  ghost predicate IsWritten(s: string) {
    exists negative, integer, fraction :: Writes(s, negative, integer, fraction)
  }

  // ---- Taking out separators ----

  lemma {:induction false} SeparatorsGo(s: string) returns (gaps: seq<string>)
    ensures forall i :: 0 <= i < |WithoutSeparators(s)| ==> !IsSeparator(WithoutSeparators(s)[i])
    ensures AreGaps(gaps, WithoutSeparators(s)) && s == Spread(gaps, WithoutSeparators(s))
  {
    gaps := [""];
    if s != "" {
      var rest := SeparatorsGo(s[1..]);
      var left := WithoutSeparators(s[1..]);
      SeparatorsUnfold(s);
      hide WithoutSeparators, IsSeparator;
      if IsSeparator(s[0]) {
        gaps := [[s[0]] + rest[0]] + rest[1..];
        assert gaps[1..] == rest[1..] && "" + left == left;
      } else {
        gaps := [""] + rest;
        assert gaps[1..] == rest && ([s[0]] + left)[1..] == left;
        assert "" + ([s[0]] + Spread(rest, left)) == s;
      }
    }
  }

  lemma SeparatorsUnfold(s: string)
    requires s != ""
    ensures WithoutSeparators(s) == (if IsSeparator(s[0]) then "" else [s[0]]) + WithoutSeparators(s[1..])
  {}

  lemma {:induction false} OnlyOneIsLeft(gaps: seq<string>, left: string)
    requires AreGaps(gaps, left) && forall i :: 0 <= i < |left| ==> !IsSeparator(left[i])
    ensures WithoutSeparators(Spread(gaps, left)) == left
  {
    hide WithoutSeparators, IsSeparator;
    GapsLeaveNothing(gaps[0]);
    if left == "" {
      assert gaps[0] + "" == gaps[0];
    } else {
      var rest := Spread(gaps[1..], left[1..]);
      OnlyOneIsLeft(gaps[1..], left[1..]);
      SeparatorsGoFromBoth(gaps[0], [left[0]] + rest);
      SeparatorsUnfold([left[0]] + rest);
      assert ([left[0]] + rest)[1..] == rest && [left[0]] + left[1..] == left;
    }
  }

  lemma {:induction false} GapsLeaveNothing(s: string)
    requires AllSeparators(s)
    ensures WithoutSeparators(s) == ""
  {
    if s != "" { GapsLeaveNothing(s[1..]); }
  }

  lemma LeavesIff(s: string, left: string)
    ensures Leaves(s, left) <==> left == WithoutSeparators(s)
  {
    var gaps := SeparatorsGo(s);
    if Leaves(s, left) {
      var g :| AreGaps(g, left) && s == Spread(g, left);
      OnlyOneIsLeft(g, left);
    }
  }

  lemma {:induction false} SeparatorsGoFromBoth(a: string, b: string)
    ensures WithoutSeparators(a + b) == WithoutSeparators(a) + WithoutSeparators(b)
  {
    hide WithoutSeparators, IsSeparator;
    if a == "" {
      assert a + b == b && WithoutSeparators(a) == "" by { SpacesLeaveNothing(a); }
    } else {
      SeparatorsGoFromBoth(a[1..], b);
      assert (a + b)[1..] == a[1..] + b;
      SeparatorsUnfold(a);
      SeparatorsUnfold(a + b);
    }
  }

  lemma {:induction false} SpacesLeaveNothing(s: string)
    requires AllSpaces(s)
    ensures WithoutSeparators(s) == ""
  {
    if s != "" { SpacesLeaveNothing(s[1..]); }
  }

  lemma {:induction false} OthersStay(s: string, k: nat)
    requires k < |s| && !IsSeparator(s[k])
    ensures s[k] in WithoutSeparators(s)
  {
    if k > 0 { OthersStay(s[1..], k - 1); }
  }

  // ---- Trimming ----

  lemma {:induction false} TrimsStart(s: string) returns (i: nat)
    ensures i <= |s| && TrimStart(s) == s[i..] && AllSpaces(s[..i]) && (i < |s| ==> !IsSpace(s[i]))
  {
    i := 0;
    if s != "" && IsSpace(s[0]) {
      i := TrimsStart(s[1..]);
      assert s[1..][i..] == s[i + 1..];
      forall k | 0 <= k < i + 1 ensures IsSpace(s[k]) {
        if k > 0 { assert s[k] == s[1..][..i][k - 1]; }
      }
      i := i + 1;
    }
  }

  lemma {:induction false} TrimsEnd(s: string) returns (j: nat)
    ensures j <= |s| && TrimEnd(s) == s[..j] && AllSpaces(s[j..]) && (j > 0 ==> !IsSpace(s[j - 1]))
  {
    j := |s|;
    if s != "" && IsSpace(s[|s| - 1]) {
      j := TrimsEnd(s[..|s| - 1]);
      assert s[..|s| - 1][..j] == s[..j];
      forall k | j <= k < |s| ensures IsSpace(s[k]) {
        if k < |s| - 1 { assert s[k] == s[..|s| - 1][j..][k - j]; }
      }
    }
  }

  /** Trimming cuts the spaces at both ends and nothing else. */
  lemma Trims(s: string) returns (i: nat, j: nat)
    ensures i <= j <= |s| && Trim(s) == s[i..j] && AllSpaces(s[..i]) && AllSpaces(s[j..])
    ensures i < j ==> !IsSpace(s[i])
  {
    i := TrimsStart(s);
    var n := TrimsEnd(s[i..]);
    j := i + n;
    assert s[i..][..n] == s[i..j] && s[i..][n..] == s[j..];
  }

  // ---- What is accepted ----

  lemma AmountSplits(s: string)
    requires IsAmount(s)
    ensures AreDigits(IntegerPart(s)) && IntegerPart(s) != "" && AreDigits(FractionPart(s))
    ensures s == AmountText(IntegerPart(s), FractionPart(s))
  {
    var n := DigitsLength(s);
    DigitsArePrefix(s);
    if n < |s| {
      AllDigits(s[n + 1..]);
      assert s == s[..n] + ("." + s[n + 1..]);
    } else {
      assert s == s[..n];
    }
  }

  lemma {:induction false} DigitsArePrefix(s: string)
    ensures AreDigits(s[..DigitsLength(s)])
  {
    if s != "" && IsDigit(s[0]) {
      DigitsArePrefix(s[1..]);
      assert s[..DigitsLength(s)] == [s[0]] + s[1..][..DigitsLength(s[1..])];
    }
  }

  lemma ReadsBody(s: string, negative: bool, rest: string, integer: string, fraction: string, decimals: nat)
    requires Trim(s) == SignText(negative) + rest && Trim(s) != "" && (!negative ==> Trim(s)[0] != '-')
    requires WithoutSeparators(rest) == AmountText(integer, fraction)
    requires AreDigits(integer) && integer != "" && AreDigits(fraction)
    ensures Parsed(s, decimals) == Ok(Signed(negative, Combined(ValueOf(integer), ValueOf(Fixed(fraction, decimals)))))
  {
    hide Trim, WithoutSeparators, AmountText, IsAmount, Combined, ValueOf, Fixed, IntegerPart, FractionPart;
    ReadsAmount(integer, fraction);
    MagnitudeOf(AmountText(integer, fraction), integer, fraction, decimals);
    hide Magnitude;
    assert if negative then Trim(s)[0] == '-' && Trim(s)[1..] == rest else Trim(s) == rest;
  }

  lemma AmountTextHasNoSign(integer: string, fraction: string)
    requires AreDigits(integer) && AreDigits(fraction)
    ensures '-' !in AmountText(integer, fraction)
  {}

  /** Whatever commas and spaces it has, a written amount is read as its number. */
  lemma ReadsWritten(s: string, negative: bool, integer: string, fraction: string, decimals: nat)
    requires Writes(s, negative, integer, fraction)
    ensures Parsed(s, decimals) == Ok(Signed(negative, Combined(ValueOf(integer), ValueOf(Fixed(fraction, decimals)))))
  {
    hide Parsed, Trim, WithoutSeparators, AmountText, Combined, ValueOf, Fixed, Leaves;
    var lead, body :| IsWriting(s, negative, integer, fraction, lead, body);
    var text := AmountText(integer, fraction);
    LeavesIff(body, text);
    var i, j := Trims(s);
    if negative {
      SignedTrims(s, lead, body, i, j);
      ReadsBody(s, true, s[i + 1..j], integer, fraction, decimals);
    } else {
      UnsignedTrims(s, lead, body, i, j);
      AmountTextIsPlain(integer, fraction);
      AmountTextHasNoSign(integer, fraction);
      SpacesLeaveNothing("");
      if s[i..j] != "" && s[i..j][0] == '-' { OthersStay(s[i..j], 0); }
      ReadsBody(s, false, s[i..j], integer, fraction, decimals);
    }
  }

  lemma SignedTrims(s: string, lead: string, body: string, i: nat, j: nat)
    requires AllSpaces(lead) && s == lead + ("-" + body) && i <= j <= |s| && AllSpaces(s[..i]) && AllSpaces(s[j..])
    requires i < j ==> !IsSpace(s[i])
    ensures i < j && s[i..j] == "-" + s[i + 1..j] && WithoutSeparators(s[i + 1..j]) == WithoutSeparators(body)
  {
    hide WithoutSeparators;
    assert s[|lead|] == '-' && s[..|lead|] == lead;
    SpacesEndBefore(s, i, j, |lead|);
    assert forall x :: 0 <= x < |lead| ==> s[x] == lead[x];
    assert body == s[|lead| + 1..] == s[i + 1..j] + s[j..];
    hide AllSpaces;
    SpacesLeaveNothing(s[j..]);
    SeparatorsGoFromBoth(s[i + 1..j], s[j..]);
  }

  lemma SpacesEndBefore(s: string, i: nat, j: nat, k: nat)
    requires i <= j <= |s| && AllSpaces(s[..i]) && AllSpaces(s[j..]) && k < |s| && !IsSpace(s[k])
    ensures i <= k < j
  {
    assert forall x :: 0 <= x < i ==> s[..i][x] == s[x];
    assert forall x :: j <= x < |s| ==> s[j..][x - j] == s[x];
  }

  lemma UnsignedTrims(s: string, lead: string, body: string, i: nat, j: nat)
    requires AllSpaces(lead) && s == lead + ("" + body) && i <= j <= |s| && AllSpaces(s[..i]) && AllSpaces(s[j..])
    ensures WithoutSeparators(s[i..j]) == WithoutSeparators(body)
  {
    hide WithoutSeparators, AllSpaces;
    assert s == lead + body;
    SpacesLeaveNothing(lead);
    SeparatorsGoFromBoth(lead, body);
    assert "" + WithoutSeparators(body) == WithoutSeparators(body);
    assert "" + (WithoutSeparators(s[i..j]) + "") == WithoutSeparators(s[i..j]);
    SpacesLeaveNothing(s[..i]);
    SpacesLeaveNothing(s[j..]);
    assert s == s[..i] + (s[i..j] + s[j..]);
    SeparatorsGoFromBoth(s[..i], s[i..j] + s[j..]);
    SeparatorsGoFromBoth(s[i..j], s[j..]);
  }

  lemma AcceptedIsWritten(s: string, decimals: nat)
    requires Parsed(s, decimals).Ok?
    ensures IsWritten(s)
  {
    hide WithoutSeparators, IsAmount, Magnitude, IntegerPart, FractionPart, AmountText, Trim, Leaves;
    var i, j := Trims(s);
    var negative := s[i] == '-';
    var start := if negative then i + 1 else i;
    var rest := s[start..j];
    assert Trim(s)[1..] == s[i + 1..j];
    var text := WithoutSeparators(rest);
    AmountSplits(text);
    SpacesLeaveNothing(s[j..]);
    SeparatorsGoFromBoth(rest, s[j..]);
    assert rest + s[j..] == s[start..];
    LeavesIff(s[start..], text);
    assert s == s[..i] + (SignText(negative) + s[start..]);
    assert IsWriting(s, negative, IntegerPart(text), FractionPart(text), s[..i], s[start..]);
    assert Writes(s, negative, IntegerPart(text), FractionPart(text));
  }

  /** A text is accepted exactly if it writes an amount; spaces alone are empty, and
      anything else is malformed. */
  lemma AcceptsExactlyTheWritten(s: string, decimals: nat)
    ensures Parsed(s, decimals).Ok? <==> IsWritten(s)
    ensures Parsed(s, decimals) == Err(EmptyAmount) <==> AllSpaces(s)
  {
    if Parsed(s, decimals).Ok? { AcceptedIsWritten(s, decimals); }
    if negative, integer, fraction :| Writes(s, negative, integer, fraction) {
      ReadsWritten(s, negative, integer, fraction, decimals);
    }
    EmptyIsSpaces(s, decimals);
  }

  lemma EmptyIsSpaces(s: string, decimals: nat)
    ensures Parsed(s, decimals) == Err(EmptyAmount) <==> AllSpaces(s)
  {
    hide WithoutSeparators, IsAmount, Magnitude, Trim;
    var i, j := Trims(s);
    if i == j { assert s == s[..i] + s[j..]; }
  }

  // ---- Separators anywhere ----

  /** Where a comma is not ignored: before everything else, in front of the minus sign
      or of nothing. */
  ghost predicate Spoils(a: string, c: char, b: string) {
    !IsSpace(c) && AllSpaces(a) && (AllSpaces(b) || exists i :: StartsWithSign(b, i))
  }

  ghost predicate StartsWithSign(b: string, i: int) {
    0 <= i < |b| && b[i] == '-' && AllSpaces(b[..i])
  }

  lemma BodyInserted(x: string, c: char, y: string)
    requires IsSeparator(c)
    ensures WithoutSeparators(x + ([c] + y)) == WithoutSeparators(x + y)
  {
    SeparatorsGoFromBoth(x, [c] + y);
    SeparatorsGoFromBoth(x, y);
    SeparatorsGoFromBoth([c], y);
    assert [c][1..] == "";
  }

  lemma InsertionWrites(a: string, c: char, b: string, negative: bool, integer: string, fraction: string)
    requires IsSeparator(c) && Writes(a + b, negative, integer, fraction) && !Spoils(a, c, b)
    ensures Writes(a + ([c] + b), negative, integer, fraction)
  {
    hide AmountText, IsWriting, Spoils;
    var lead, body :| IsWriting(a + b, negative, integer, fraction, lead, body);
    if |a| >= |lead| + |SignText(negative)| {
      InsertedInBody(a, c, b, negative, integer, fraction, lead, body);
    } else if IsSpace(c) {
      InsertedInLead(a, c, b, negative, integer, fraction, lead, body);
    } else {
      CommaInLead(a, c, b, negative, integer, fraction, lead, body);
    }
  }

  lemma InsertedInBody(a: string, c: char, b: string, negative: bool, integer: string, fraction: string, lead: string, body: string)
    requires IsSeparator(c) && IsWriting(a + b, negative, integer, fraction, lead, body) && |a| >= |lead| + |SignText(negative)|
    ensures exists body' :: IsWriting(a + ([c] + b), negative, integer, fraction, lead, body')
  {
    hide AmountText, Leaves, WithoutSeparators, AllSpaces, SignText;
    var text, sign := AmountText(integer, fraction), SignText(negative);
    var x := a[|lead| + |sign|..];
    CutsAgree(a, b, lead + sign, body);
    assert lead + (sign + body) == lead + sign + body;
    LeavesIff(body, text);
    BodyInserted(x, c, b);
    LeavesIff(x + ([c] + b), text);
    assert a + ([c] + b) == lead + (sign + (x + ([c] + b)));
    assert IsWriting(a + ([c] + b), negative, integer, fraction, lead, x + ([c] + b));
  }

  /** Two ways to cut one text, the first cut behind the second. */
  lemma CutsAgree(a: string, b: string, front: string, back: string)
    requires a + b == front + back && |a| >= |front|
    ensures a == front + a[|front|..] && back == a[|front|..] + b
  {
    assert a == (a + b)[..|a|] && b == (a + b)[|a|..];
    assert front == (front + back)[..|front|] && back == (front + back)[|front|..];
    assert a[..|front|] == front;
  }

  lemma InsertedInLead(a: string, c: char, b: string, negative: bool, integer: string, fraction: string, lead: string, body: string)
    requires IsSpace(c) && IsWriting(a + b, negative, integer, fraction, lead, body) && |a| <= |lead|
    ensures exists lead' :: IsWriting(a + ([c] + b), negative, integer, fraction, lead', body)
  {
    hide AmountText, Leaves, SignText;
    var sign := SignText(negative);
    CutsAgree(lead, sign + body, a, b);
    var lead' := a + ([c] + lead[|a|..]);
    assert a + ([c] + b) == lead' + (sign + body);
    assert IsWriting(a + ([c] + b), negative, integer, fraction, lead', body);
  }

  lemma CommaInLead(a: string, c: char, b: string, negative: bool, integer: string, fraction: string, lead: string, body: string)
    requires IsSeparator(c) && IsWriting(a + b, negative, integer, fraction, lead, body) && |a| <= |lead|
    requires !IsSpace(c) && !Spoils(a, c, b)
    ensures IsWriting(a + ([c] + b), negative, integer, fraction, a, [c] + b)
  {
    hide AmountText, Leaves;
    var text, sign := AmountText(integer, fraction), SignText(negative);
    CutsAgree(lead, sign + body, a, b);
    var y := lead[|a|..];
    assert AllSpaces(a) && AllSpaces(y);
    if negative { SignSpoils(a, c, b, y, body); }
    hide WithoutSeparators, AllSpaces, Spoils;
    LeavesIff(body, text);
    assert b == y + body;
    SpacesLeaveNothing(y);
    SeparatorsGoFromBoth(y, body);
    BodyInserted("", c, b);
    assert "" + ([c] + b) == [c] + b && "" + b == b && "" + text == text;
    LeavesIff([c] + b, text);
    assert a + ([c] + b) == a + ("" + ([c] + b));
  }

  lemma SignSpoils(a: string, c: char, b: string, y: string, rest: string)
    requires !IsSpace(c) && AllSpaces(a) && AllSpaces(y) && b == y + ("-" + rest)
    ensures Spoils(a, c, b)
  {
    assert b[..|y|] == y && b[|y|] == '-';
    assert StartsWithSign(b, |y|);
  }

  lemma RemovalWrites(a: string, c: char, b: string, negative: bool, integer: string, fraction: string)
    requires IsSeparator(c) && Writes(a + ([c] + b), negative, integer, fraction)
    ensures Writes(a + b, negative, integer, fraction)
  {
    hide AmountText, IsWriting;
    var lead, body :| IsWriting(a + ([c] + b), negative, integer, fraction, lead, body);
    if |a| < |lead| {
      RemovedFromLead(a, c, b, negative, integer, fraction, lead, body);
    } else {
      RemovedFromBody(a, c, b, negative, integer, fraction, lead, body);
    }
  }

  lemma RemovedFromLead(a: string, c: char, b: string, negative: bool, integer: string, fraction: string, lead: string, body: string)
    requires IsWriting(a + ([c] + b), negative, integer, fraction, lead, body) && |a| < |lead|
    ensures exists lead' :: IsWriting(a + b, negative, integer, fraction, lead', body)
  {
    hide AmountText, Leaves, SignText;
    var sign := SignText(negative);
    assert a + [c] + b == a + ([c] + b);
    CutsAgree(lead, sign + body, a + [c], b);
    var lead' := a + lead[|a| + 1..];
    assert forall i :: 0 <= i < |lead'| ==> lead'[i] == lead[if i < |a| then i else i + 1];
    assert a + b == lead' + (sign + body);
    assert IsWriting(a + b, negative, integer, fraction, lead', body);
  }

  lemma RemovedFromBody(a: string, c: char, b: string, negative: bool, integer: string, fraction: string, lead: string, body: string)
    requires IsSeparator(c) && IsWriting(a + ([c] + b), negative, integer, fraction, lead, body) && |a| >= |lead|
    ensures exists body' :: IsWriting(a + b, negative, integer, fraction, lead, body')
  {
    hide AmountText, Leaves;
    var text, sign := AmountText(integer, fraction), SignText(negative);
    assert (a + ([c] + b))[|a|] == c;
    if negative { assert (a + ([c] + b))[|lead|] == (lead + (sign + body))[|lead|] == '-'; }
    assert |a| >= |lead + sign|;
    hide SignText, WithoutSeparators, AllSpaces;
    var x := a[|lead + sign|..];
    BodyCut(a, c, b, lead, sign, body, x);
    LeavesIff(body, text);
    BodyInserted(x, c, b);
    LeavesIff(x + b, text);
    assert IsWriting(a + b, negative, integer, fraction, lead, x + b);
  }

  lemma BodyCut(a: string, c: char, b: string, lead: string, sign: string, body: string, x: string)
    requires a + ([c] + b) == lead + (sign + body) && |a| >= |lead + sign| && x == a[|lead + sign|..]
    ensures body == x + ([c] + b) && a + b == lead + (sign + (x + b))
  {
    assert lead + sign + body == lead + (sign + body);
    CutsAgree(a, [c] + b, lead + sign, body);
    assert lead + sign + x + b == lead + (sign + (x + b));
  }

  // Where a comma spoils.

  /** A minus sign in a written amount has only spaces before it. */
  lemma SignIsFirst(s: string, negative: bool, integer: string, fraction: string, k: nat)
    requires Writes(s, negative, integer, fraction) && k < |s| && s[k] == '-'
    ensures AllSpaces(s[..k])
  {
    hide AmountText, Leaves, WithoutSeparators;
    var lead, body :| IsWriting(s, negative, integer, fraction, lead, body);
    var p := |lead| + |SignText(negative)|;
    LeavesIff(body, AmountText(integer, fraction));
    AmountTextHasNoSign(integer, fraction);
    assert k >= |lead|;
    assert s[p..] == body;
    if k >= p {
      assert body[k - p] == '-';
      OthersStay(body, k - p);
    }
  }

  lemma WritesSomething(s: string, negative: bool, integer: string, fraction: string)
    requires Writes(s, negative, integer, fraction)
    ensures WithoutSeparators(s) != ""
  {
    hide AmountText, Leaves, WithoutSeparators;
    var lead, body :| IsWriting(s, negative, integer, fraction, lead, body);
    LeavesIff(body, AmountText(integer, fraction));
    AmountTextIsPlain(integer, fraction);
    SeparatorsGoFromBoth(lead, SignText(negative) + body);
    SeparatorsGoFromBoth(SignText(negative), body);
  }

  lemma SpoiledIsNotWritten(a: string, c: char, b: string, negative: bool, integer: string, fraction: string)
    requires IsSeparator(c) && Spoils(a, c, b)
    ensures !Writes(a + ([c] + b), negative, integer, fraction)
  {
    hide Writes;
    var s := a + ([c] + b);
    assert s[..|a|] == a && s[|a|] == c && s[|a| + 1..] == b;
    if Writes(s, negative, integer, fraction) {
      if AllSpaces(b) {
        OnlySeparators(s, |a|);
        WritesSomething(s, negative, integer, fraction);
      } else {
        var i :| StartsWithSign(b, i);
        assert s[|a| + 1 + i] == b[i];
        assert s[..|a| + 1 + i][|a|] == c;
        SignIsFirst(s, negative, integer, fraction, |a| + 1 + i);
      }
    }
  }

  lemma OnlySeparators(s: string, k: nat)
    requires k < |s| && IsSeparator(s[k]) && AllSpaces(s[..k]) && AllSpaces(s[k + 1..])
    ensures WithoutSeparators(s) == ""
  {
    SpacesLeaveNothing(s[..k]);
    SpacesLeaveNothing(s[k + 1..]);
    BodyInserted(s[..k], s[k], s[k + 1..]);
    assert s == s[..k] + ([s[k]] + s[k + 1..]);
    SeparatorsGoFromBoth(s[..k], s[k + 1..]);
  }

  /** A comma or space put in anywhere changes nothing, except that a comma before
      everything else, in front of the minus sign or of nothing, is malformed. */
  lemma SeparatorsAreIgnored(a: string, c: char, b: string, decimals: nat)
    requires IsSeparator(c)
    ensures Parsed(a + ([c] + b), decimals) == if Spoils(a, c, b) then Err(InvalidFormat) else Parsed(a + b, decimals)
  {
    var s, t := a + ([c] + b), a + b;
    InsertionKeepsSpaces(a, c, b);
    AcceptsExactlyTheWritten(s, decimals);
    AcceptsExactlyTheWritten(t, decimals);
    hide Parsed, Writes, AllSpaces, Spoils;
    forall negative, integer, fraction | Writes(s, negative, integer, fraction)
      ensures Writes(t, negative, integer, fraction) && !Spoils(a, c, b) && Parsed(s, decimals) == Parsed(t, decimals)
    {
      if Spoils(a, c, b) { SpoiledIsNotWritten(a, c, b, negative, integer, fraction); }
      RemovalWrites(a, c, b, negative, integer, fraction);
      ReadsWritten(s, negative, integer, fraction, decimals);
      ReadsWritten(t, negative, integer, fraction, decimals);
    }
    if !Spoils(a, c, b) {
      forall negative, integer, fraction | Writes(t, negative, integer, fraction) ensures Writes(s, negative, integer, fraction) {
        InsertionWrites(a, c, b, negative, integer, fraction);
      }
    }
  }

  lemma InsertionKeepsSpaces(a: string, c: char, b: string)
    requires IsSeparator(c)
    ensures AllSpaces(a + ([c] + b)) <==> AllSpaces(a + b) && IsSpace(c)
    ensures !IsSpace(c) && AllSpaces(a + b) ==> Spoils(a, c, b)
  {
    var s := a + ([c] + b);
    assert forall i :: 0 <= i < |a + b| ==> (a + b)[i] == s[if i < |a| then i else i + 1];
    assert s[|a|] == c;
    assert AllSpaces(a + b) ==> AllSpaces(a) && AllSpaces(b) by {
      assert forall i :: 0 <= i < |a| ==> a[i] == (a + b)[i];
      assert forall i :: 0 <= i < |b| ==> b[i] == (a + b)[|a| + i];
    }
  }
}
