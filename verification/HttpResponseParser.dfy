/** Quoting the integers of a response that a double cannot hold exactly. */
module HttpResponseParser {
  import opened Common
  import opened Decimal
  import opened JsonTextScanner
  import opened JsonText

  const MAX_SAFE_INTEGER: int := 0x1F_FFFF_FFFF_FFFF

  function Unsigned(token: string): string {
    if token != "" && token[0] == '-' then token[1..] else token
  }

  /** `^-?\d+$` */
  predicate IsInteger(token: string) {
    Unsigned(token) != "" && DigitsLength(Unsigned(token)) == |Unsigned(token)|
  }

  function IntegerValue(token: string): int {
    Signed(token != "" && token[0] == '-', ValueOf(Unsigned(token)))
  }

  predicate IsSafeInteger(n: int) { -MAX_SAFE_INTEGER <= n <= MAX_SAFE_INTEGER }

  function QuoteUnsafeInteger(token: string): string {
    if !IsInteger(token) || IsSafeInteger(IntegerValue(token)) then token else "\"" + token + "\""
  }

  /** `Number(token)` rounds to a double. Any rounding that is monotone and exact up
      to 2^53 in magnitude, as IEEE 754 double rounding is, agrees on safety. */
  ghost predicate RoundsLikeDouble(round: int -> int) {
    && (forall m, n :: m <= n ==> round(m) <= round(n))
    && (forall n :: -MAX_SAFE_INTEGER - 1 <= n <= MAX_SAFE_INTEGER + 1 ==> round(n) == n)
  }

  lemma RoundingKeepsSafety(round: int -> int, n: int)
    requires RoundsLikeDouble(round)
    ensures IsSafeInteger(round(n)) <==> IsSafeInteger(n)
  {
    if n > MAX_SAFE_INTEGER {
      assert round(MAX_SAFE_INTEGER + 1) <= round(n);
    } else if n < -MAX_SAFE_INTEGER {
      assert round(n) <= round(-MAX_SAFE_INTEGER - 1);
    }
  }

  // ---- The same on values ----

  predicate IsUnsafe(n: NumberLiteral) {
    n.fraction == "" && n.exponent.None? && ValueOf(n.integer) > MAX_SAFE_INTEGER
  }

  /** The literal's text as the characters of a string. */
  function AsChars(text: string): seq<StringChar> {
    seq(|text|, i requires 0 <= i < |text| => Plain(text[i]))
  }

  function QuotedValue(v: Value): Value {
    match v
    case Number(number) => if IsUnsafe(number) then String(AsChars(number.Text())) else v
    case Array(elements) => Array(QuotedElements(elements))
    case Object(members) => Object(QuotedMembers(members))
    case _ => v
  }

  function Quoted(j: Json): Json {
    j.(value := QuotedValue(j.value))
  }

  function QuotedElements(e: Elements): Elements {
    match e
    case LastElement(json) => LastElement(Quoted(json))
    case NextElement(json, rest) => NextElement(Quoted(json), QuotedElements(rest))
  }

  function QuotedMember(m: Member): Member {
    m.(json := Quoted(m.json))
  }

  function QuotedMembers(ms: Members): Members {
    match ms
    case LastMember(member) => LastMember(QuotedMember(member))
    case NextMember(member, rest) => NextMember(QuotedMember(member), QuotedMembers(rest))
  }

  /** The parser's test is the literal's own: no fraction, no exponent. */
  lemma IntegerLiterals(n: NumberLiteral)
    requires n.Valid()
    ensures IsInteger(n.Text()) <==> n.fraction == "" && n.exponent.None?
    ensures n.fraction == "" && n.exponent.None? ==>
              IntegerValue(n.Text()) == Signed(n.negative, ValueOf(n.integer))
  {
    var tail := n.FractionText() + n.ExponentText();
    var unsigned := n.integer + tail;
    assert n.Text() == n.MinusText() + unsigned;
    assert n.integer[0] == unsigned[0] && IsDigit(n.integer[0]);
    assert Unsigned(n.Text()) == unsigned;
    AllDigits(unsigned);
    if n.fraction == "" && n.exponent.None? {
      assert tail == "" && unsigned == n.integer;
    } else {
      assert tail != "" && !IsDigit(tail[0]) && unsigned[|n.integer|] == tail[0];
    }
  }

  /** The parser quotes exactly the integers of magnitude above 2^53 - 1. */
  lemma QuotesTheUnsafe(n: NumberLiteral)
    requires n.Valid()
    ensures QuoteUnsafeInteger(n.Text()) == if IsUnsafe(n) then "\"" + n.Text() + "\"" else n.Text()
  {
    IntegerLiterals(n);
  }

  lemma {:induction false} AsCharsText(text: string)
    ensures CharsText(AsChars(text)) == text
  {
    if text != "" {
      AsCharsText(text[1..]);
      assert AsChars(text)[1..] == AsChars(text[1..]);
      assert text == [text[0]] + text[1..];
    }
  }

  // ---- The scanner on a JSON text ----

  lemma PlainPieces()
    ensures All("null", IsPlainChar) && All("true", IsPlainChar) && All("false", IsPlainChar)
    ensures All("[", IsPlainChar) && All("]", IsPlainChar) && All("{", IsPlainChar) && All("}", IsPlainChar)
    ensures All(",", IsPlainChar) && All(":", IsPlainChar)
    ensures forall s :: All(s, IsWhitespace) ==> All(s, IsPlainChar)
  {}

  lemma ScanNumberValue(n: NumberLiteral, rest: string)
    requires n.Valid() && Stops(rest)
    ensures Scan(PrintValue(Number(n), rest), QuoteUnsafeInteger) == PrintValue(QuotedValue(Number(n)), Scan(rest, QuoteUnsafeInteger))
  {
    hide Scan, NumberLiteral.Text, NumberLiteral.Valid, QuoteUnsafeInteger, AsChars, CharsText, IsUnsafe, Stops;
    ScanNumber(n, rest, QuoteUnsafeInteger);
    QuotesTheUnsafe(n);
    AsCharsText(n.Text());
    RejoinString(n.Text(), Scan(rest, QuoteUnsafeInteger));
    assert "\"" + n.Text() + "\"" == "\"" + (n.Text() + "\"");
  }

  lemma ScanSpaced(before: string, space: string, after: string, rest: string)
    requires All(before, IsPlainChar) && All(space, IsWhitespace) && All(after, IsPlainChar)
    ensures Scan(before + (space + (after + rest)), QuoteUnsafeInteger)
            == before + (space + (after + Scan(rest, QuoteUnsafeInteger)))
  {
    hide Scan, QuoteUnsafeInteger;
    PlainPieces();
    ScanCopies(before, space + (after + rest), QuoteUnsafeInteger);
    ScanCopies(space, after + rest, QuoteUnsafeInteger);
    ScanCopies(after, rest, QuoteUnsafeInteger);
  }

  lemma {:induction false} ScanValue(v: Value, rest: string)
    requires ValidValue(v) && Stops(rest)
    ensures Scan(PrintValue(v, rest), QuoteUnsafeInteger) == PrintValue(QuotedValue(v), Scan(rest, QuoteUnsafeInteger))
    decreases v, 0
  {
    hide Scan, QuoteUnsafeInteger;
    PlainPieces();
    match v
    case Null => ScanCopies("null", rest, QuoteUnsafeInteger);
    case True => ScanCopies("true", rest, QuoteUnsafeInteger);
    case False => ScanCopies("false", rest, QuoteUnsafeInteger);
    case Number(number) => ScanNumberValue(number, rest);
    case String(chars) => ScanString(chars, rest, QuoteUnsafeInteger);
    case EmptyArray(space) => ScanSpaced("[", space, "]", rest);
    case Array(elements) =>
      ScanCopies("[", PrintElements(elements, rest), QuoteUnsafeInteger);
      ScanElements(elements, rest);
    case EmptyObject(space) => ScanSpaced("{", space, "}", rest);
    case Object(members) =>
      ScanCopies("{", PrintMembers(members, rest), QuoteUnsafeInteger);
      ScanMembers(members, rest);
  }

  /** For every well-formed JSON text: scanning it is printing the same value with
      exactly the unsafe integers as strings; nothing else changes. */
  lemma {:induction false} ScanJson(j: Json, rest: string)
    requires Valid(j) && Stops(rest)
    ensures Scan(Print(j, rest), QuoteUnsafeInteger) == Print(Quoted(j), Scan(rest, QuoteUnsafeInteger))
    decreases j, 0
  {
    hide Scan, QuoteUnsafeInteger;
    PlainPieces();
    StopsAfterSpace(j.after, rest);
    ScanCopies(j.before, PrintValue(j.value, j.after + rest), QuoteUnsafeInteger);
    ScanValue(j.value, j.after + rest);
    ScanCopies(j.after, rest, QuoteUnsafeInteger);
  }

  lemma StopsAfterSpace(space: string, rest: string)
    requires All(space, IsWhitespace) && Stops(rest)
    ensures Stops(space + rest)
  {
    if space != "" { assert (space + rest)[0] == space[0]; } else { assert space + rest == rest; }
  }

  lemma {:induction false} ScanElements(e: Elements, rest: string)
    requires ValidElements(e)
    ensures Scan(PrintElements(e, rest), QuoteUnsafeInteger) == PrintElements(QuotedElements(e), Scan(rest, QuoteUnsafeInteger))
    decreases e, 0
  {
    hide Scan, QuoteUnsafeInteger;
    PlainPieces();
    match e
    case LastElement(json) =>
      ScanJson(json, "]" + rest);
      ScanCopies("]", rest, QuoteUnsafeInteger);
    case NextElement(json, more) =>
      ScanJson(json, "," + PrintElements(more, rest));
      ScanCopies(",", PrintElements(more, rest), QuoteUnsafeInteger);
      ScanElements(more, rest);
  }

  lemma {:induction false} ScanMember(m: Member, rest: string)
    requires All(m.before, IsWhitespace) && ValidChars(m.name) && All(m.after, IsWhitespace) && Valid(m.json) && Stops(rest)
    ensures Scan(PrintMember(m, rest), QuoteUnsafeInteger) == PrintMember(QuotedMember(m), Scan(rest, QuoteUnsafeInteger))
    decreases m, 0
  {
    hide Scan, QuoteUnsafeInteger;
    PlainPieces();
    var value := Print(m.json, rest);
    ScanCopies(m.before, PrintString(m.name, m.after + (":" + value)), QuoteUnsafeInteger);
    ScanString(m.name, m.after + (":" + value), QuoteUnsafeInteger);
    ScanCopies(m.after, ":" + value, QuoteUnsafeInteger);
    ScanCopies(":", value, QuoteUnsafeInteger);
    ScanJson(m.json, rest);
  }

  lemma {:induction false} ScanMembers(ms: Members, rest: string)
    requires ValidMembers(ms)
    ensures Scan(PrintMembers(ms, rest), QuoteUnsafeInteger) == PrintMembers(QuotedMembers(ms), Scan(rest, QuoteUnsafeInteger))
    decreases ms, 0
  {
    hide Scan, QuoteUnsafeInteger;
    PlainPieces();
    match ms
    case LastMember(member) =>
      ScanMember(member, "}" + rest);
      ScanCopies("}", rest, QuoteUnsafeInteger);
    case NextMember(member, more) =>
      ScanMember(member, "," + PrintMembers(more, rest));
      ScanCopies(",", PrintMembers(more, rest), QuoteUnsafeInteger);
      ScanMembers(more, rest);
  }

  // ---- What quoting gives ----

  ghost predicate AllSafe(j: Json) { AllSafeValue(j.value) }

  ghost predicate AllSafeValue(v: Value) {
    match v
    case Number(number) => !IsUnsafe(number)
    case Array(elements) => AllSafeElements(elements)
    case Object(members) => AllSafeMembers(members)
    case _ => true
  }

  ghost predicate AllSafeElements(e: Elements) {
    AllSafe(e.json) && (e.NextElement? ==> AllSafeElements(e.rest))
  }

  ghost predicate AllSafeMembers(ms: Members) {
    AllSafe(ms.member.json) && (ms.NextMember? ==> AllSafeMembers(ms.rest))
  }

  /** The quoted text is well-formed JSON with no unsafe integer left, and it is the
      original exactly when there was none. */
  lemma {:induction false} QuotedIsSafe(j: Json)
    requires Valid(j)
    ensures Valid(Quoted(j)) && AllSafe(Quoted(j)) && (Quoted(j) == j <==> AllSafe(j))
    decreases j, 0
  {
    match j.value
    case Number(number) => LiteralsArePlain(number);
    case Array(elements) => QuotedElementsAreSafe(elements);
    case Object(members) => QuotedMembersAreSafe(members);
    case _ =>
  }

  predicate IsNumberChar(c: char) { IsDigit(c) || c in "+-.eE" }

  lemma AllJoins(a: string, b: string, p: char -> bool)
    requires All(a, p) && All(b, p)
    ensures All(a + b, p)
  {}

  lemma LiteralsArePlain(n: NumberLiteral)
    requires n.Valid()
    ensures ValidChars(AsChars(n.Text()))
  {
    assert All(n.MinusText(), IsNumberChar) && All(n.integer, IsNumberChar);
    assert All(n.fraction, IsNumberChar);
    AllJoins(".", n.fraction, IsNumberChar);
    if n.exponent.Some? {
      var e := n.exponent.value;
      AllJoins([e.mark], e.sign, IsNumberChar);
      assert All(e.digits, IsNumberChar);
      AllJoins([e.mark] + e.sign, e.digits, IsNumberChar);
    }
    AllJoins(n.FractionText(), n.ExponentText(), IsNumberChar);
    AllJoins(n.integer, n.FractionText() + n.ExponentText(), IsNumberChar);
    AllJoins(n.MinusText(), n.integer + (n.FractionText() + n.ExponentText()), IsNumberChar);
    hide *;
    NumberCharsArePlain(n.Text());
  }

  lemma NumberCharsArePlain(text: string)
    requires All(text, IsNumberChar)
    ensures ValidChars(AsChars(text))
  {
    forall i | 0 <= i < |text| ensures AsChars(text)[i].Valid() {
      assert IsNumberChar(text[i]);
    }
  }

  lemma {:induction false} QuotedElementsAreSafe(e: Elements)
    requires ValidElements(e)
    ensures ValidElements(QuotedElements(e)) && AllSafeElements(QuotedElements(e)) && (QuotedElements(e) == e <==> AllSafeElements(e))
    decreases e, 0
  {
    QuotedIsSafe(e.json);
    if e.NextElement? { QuotedElementsAreSafe(e.rest); }
  }

  lemma {:induction false} QuotedMembersAreSafe(ms: Members)
    requires ValidMembers(ms)
    ensures ValidMembers(QuotedMembers(ms)) && AllSafeMembers(QuotedMembers(ms)) && (QuotedMembers(ms) == ms <==> AllSafeMembers(ms))
    decreases ms, 0
  {
    QuotedIsSafe(ms.member.json);
    if ms.NextMember? { QuotedMembersAreSafe(ms.rest); }
  }

  /** The text handed to the JSON parser. Of a well-formed response it is the same
      text with exactly its unsafe integers in quotes. */
  method QuoteBigIntegers(data: string) returns (quoted: string)
    ensures forall j :: Valid(j) && data == Print(j, "") ==> quoted == Print(Quoted(j), "")
  {
    quoted := ReplaceNumbersOutsideStrings(data, QuoteUnsafeInteger);
    forall j | Valid(j) && data == Print(j, "") ensures quoted == Print(Quoted(j), "") {
      ScanJson(j, "");
    }
  }
}
