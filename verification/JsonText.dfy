/** JSON texts as sections 2 to 7 of RFC 8259 give them: every value with the exact
    characters that spell it, whitespace included. */
module JsonText {
  import opened Common
  import opened Decimal
  import opened JsonTextScanner

  predicate IsWhitespace(c: char) { c == ' ' || c == '\t' || c == '\n' || c == '\r' }

  predicate IsHex(c: char) { IsDigit(c) || 'a' <= c <= 'f' || 'A' <= c <= 'F' }

  ghost predicate All(s: string, p: char -> bool) {
    forall i :: 0 <= i < |s| ==> p(s[i])
  }

  // ---- Section 7: strings ----

  datatype StringChar = Plain(c: char) | Escaped(c: char) | Unicode(hex: string) {
    function Text(): string {
      match this
      case Plain(c) => [c]
      case Escaped(c) => ['\\', c]
      case Unicode(hex) => "\\u" + hex
    }

    ghost predicate Valid() {
      match this
      case Plain(c) => c >= ' ' && c != '"' && c != '\\'
      case Escaped(c) => c in "\"\\/bfnrt"
      case Unicode(hex) => |hex| == 4 && All(hex, IsHex)
    }
  }

  function CharsText(chars: seq<StringChar>): string {
    if chars == [] then "" else chars[0].Text() + CharsText(chars[1..])
  }

  // ---- Section 6: numbers ----

  datatype Exponent = Exponent(mark: char, sign: string, digits: string) {
    function Text(): string { [mark] + sign + digits }

    ghost predicate Valid() {
      (mark == 'e' || mark == 'E') && (sign == "" || sign == "+" || sign == "-") && digits != "" && AreDigits(digits)
    }
  }

  /** An absent fraction is empty. */
  datatype NumberLiteral = NumberLiteral(negative: bool, integer: string, fraction: string, exponent: Option<Exponent>) {
    function MinusText(): string { if negative then "-" else "" }

    function FractionText(): string { if fraction == "" then "" else "." + fraction }

    function ExponentText(): string { if exponent.Some? then exponent.value.Text() else "" }

    function Text(): string {
      MinusText() + (integer + (FractionText() + ExponentText()))
    }

    ghost predicate Valid() {
      && integer != "" && AreDigits(integer) && (|integer| > 1 ==> integer[0] != '0')
      && AreDigits(fraction)
      && (exponent.Some? ==> exponent.value.Valid())
    }
  }

  // ---- Sections 2 to 5: values ----

  /** A value between whitespace. */
  datatype Json = Json(before: string, value: Value, after: string)

  datatype Value =
    | Null | True | False
    | Number(number: NumberLiteral)
    | String(chars: seq<StringChar>)
    | EmptyArray(space: string)
    | Array(elements: Elements)
    | EmptyObject(space: string)
    | Object(members: Members)

  datatype Elements = LastElement(json: Json) | NextElement(json: Json, rest: Elements)

  /** A name between whitespace, and its value. */
  datatype Member = Member(before: string, name: seq<StringChar>, after: string, json: Json)

  datatype Members = LastMember(member: Member) | NextMember(member: Member, rest: Members)

  /** The text of a value, followed by `rest`. */
  function Print(j: Json, rest: string): string {
    j.before + PrintValue(j.value, j.after + rest)
  }

  function PrintString(chars: seq<StringChar>, rest: string): string {
    "\"" + (CharsText(chars) + ("\"" + rest))
  }

  function PrintValue(v: Value, rest: string): string {
    match v
    case Null => "null" + rest
    case True => "true" + rest
    case False => "false" + rest
    case Number(number) => number.Text() + rest
    case String(chars) => PrintString(chars, rest)
    case EmptyArray(space) => "[" + (space + ("]" + rest))
    case Array(elements) => "[" + PrintElements(elements, rest)
    case EmptyObject(space) => "{" + (space + ("}" + rest))
    case Object(members) => "{" + PrintMembers(members, rest)
  }

  function PrintElements(e: Elements, rest: string): string {
    match e
    case LastElement(json) => Print(json, "]" + rest)
    case NextElement(json, more) => Print(json, "," + PrintElements(more, rest))
  }

  function PrintMember(m: Member, rest: string): string {
    m.before + PrintString(m.name, m.after + (":" + Print(m.json, rest)))
  }

  function PrintMembers(ms: Members, rest: string): string {
    match ms
    case LastMember(member) => PrintMember(member, "}" + rest)
    case NextMember(member, more) => PrintMember(member, "," + PrintMembers(more, rest))
  }

  ghost predicate ValidChars(chars: seq<StringChar>) {
    forall i :: 0 <= i < |chars| ==> chars[i].Valid()
  }

  ghost predicate Valid(j: Json) {
    All(j.before, IsWhitespace) && All(j.after, IsWhitespace) && ValidValue(j.value)
  }

  ghost predicate ValidValue(v: Value) {
    match v
    case Number(number) => number.Valid()
    case String(chars) => ValidChars(chars)
    case EmptyArray(space) => All(space, IsWhitespace)
    case Array(elements) => ValidElements(elements)
    case EmptyObject(space) => All(space, IsWhitespace)
    case Object(members) => ValidMembers(members)
    case _ => true
  }

  ghost predicate ValidElements(e: Elements) {
    Valid(e.json) && (e.NextElement? ==> ValidElements(e.rest))
  }

  ghost predicate ValidMembers(ms: Members) {
    var m := ms.member;
    && All(m.before, IsWhitespace) && ValidChars(m.name) && All(m.after, IsWhitespace) && Valid(m.json)
    && (ms.NextMember? ==> ValidMembers(ms.rest))
  }

  // ---- What the scanner sees ----

  /** After a number comes none of the characters that could go on with it. */
  predicate Stops(rest: string) {
    rest == "" || (!IsDigit(rest[0]) && rest[0] != '.' && rest[0] != 'e' && rest[0] != 'E')
  }

  predicate IsPlainChar(c: char) { c != '"' && c != '-' && !IsDigit(c) }

  lemma DropFirst(a: string, b: string)
    ensures (a + b)[|a|..] == b && |a + b| == |a| + |b|
  {}

  lemma FractionRun(n: NumberLiteral, rest: string)
    requires n.Valid() && Stops(rest)
    ensures FractionLength(n.FractionText() + (n.ExponentText() + rest)) == |n.FractionText()|
  {
    var tail := n.ExponentText() + rest;
    assert tail == "" || (!IsDigit(tail[0]) && tail[0] != '.');
    hide NumberLiteral.ExponentText;
    if n.fraction == "" {
      assert n.FractionText() + tail == tail;
    } else {
      DigitsRun(n.fraction, tail);
      DropFirst(".", n.fraction + tail);
      assert n.FractionText() + tail == "." + (n.fraction + tail);
    }
  }

  lemma ExponentRun(n: NumberLiteral, rest: string)
    requires n.Valid() && Stops(rest)
    ensures ExponentLength(n.ExponentText() + rest) == |n.ExponentText()|
  {
    if n.exponent.Some? {
      var e := n.exponent.value;
      var s := n.ExponentText() + rest;
      assert s[1..] == e.sign + (e.digits + rest);
      assert SignLength(s[1..]) == |e.sign|;
      assert s[1 + |e.sign|..] == e.digits + rest;
      DigitsRun(e.digits, rest);
    } else {
      assert n.ExponentText() + rest == rest;
    }
  }

  lemma TextThen(n: NumberLiteral, rest: string)
    ensures n.Text() + rest == n.MinusText() + (n.integer + (n.FractionText() + (n.ExponentText() + rest)))
  {
    hide NumberLiteral.MinusText, NumberLiteral.FractionText, NumberLiteral.ExponentText;
    Reassociate4(n.MinusText(), n.integer, n.FractionText(), n.ExponentText(), rest);
  }

  lemma Reassociate4(a: string, b: string, c: string, d: string, e: string)
    ensures a + (b + (c + d)) + e == a + (b + (c + (d + e)))
  {}

  lemma NumberLengthOf(minus: string, integer: string, fraction: string, exponent: string, rest: string)
    requires MinusLength(minus + (integer + (fraction + (exponent + rest)))) == |minus|
    requires DigitsLength(integer + (fraction + (exponent + rest))) == |integer| > 0
    requires FractionLength(fraction + (exponent + rest)) == |fraction|
    requires ExponentLength(exponent + rest) == |exponent|
    ensures NumberLength(minus + (integer + (fraction + (exponent + rest)))) == |minus| + |integer| + |fraction| + |exponent|
  {
    hide MinusLength, DigitsLength, FractionLength, ExponentLength;
    DropFirst(minus, integer + (fraction + (exponent + rest)));
    DropFirst(integer, fraction + (exponent + rest));
    DropFirst(fraction, exponent + rest);
  }

  /** The scanner's number is the literal of the grammar. */
  lemma NumberRun(n: NumberLiteral, rest: string)
    requires n.Valid() && Stops(rest)
    ensures NumberLength(n.Text() + rest) == |n.Text()|
  {
    var minus, fraction, exponent := n.MinusText(), n.FractionText(), n.ExponentText();
    var afterInteger := fraction + (exponent + rest);
    TextThen(n, rest);
    IntegerRun(n, rest);
    FractionRun(n, rest);
    ExponentRun(n, rest);
    hide *;
    NumberLengthOf(minus, n.integer, fraction, exponent, rest);
    TextLength(n);
  }

  lemma TextLength(n: NumberLiteral)
    ensures |n.Text()| == |n.MinusText()| + |n.integer| + |n.FractionText()| + |n.ExponentText()|
  {}

  lemma IntegerRun(n: NumberLiteral, rest: string)
    requires n.Valid() && Stops(rest)
    ensures MinusLength(n.MinusText() + (n.integer + (n.FractionText() + (n.ExponentText() + rest)))) == |n.MinusText()|
    ensures DigitsLength(n.integer + (n.FractionText() + (n.ExponentText() + rest))) == |n.integer| > 0
  {
    var afterInteger := n.FractionText() + (n.ExponentText() + rest);
    assert afterInteger == "" || !IsDigit(afterInteger[0]);
    DigitsRun(n.integer, afterInteger);
    assert (n.integer + afterInteger)[0] == n.integer[0];
    hide DigitsLength, NumberLiteral.FractionText, NumberLiteral.ExponentText;
  }

  lemma {:induction false} CharsRun(chars: seq<StringChar>, rest: string)
    requires ValidChars(chars)
    ensures StringLength(CharsText(chars) + ("\"" + rest)) == |CharsText(chars)| + 1
  {
    var tail := "\"" + rest;
    if chars == [] {
      assert CharsText(chars) + tail == tail;
    } else {
      CharsRun(chars[1..], rest);
      var more := CharsText(chars[1..]) + tail;
      assert CharsText(chars) + tail == chars[0].Text() + more;
      CharRun(chars[0], more);
    }
  }

  lemma CharRun(c: StringChar, more: string)
    requires c.Valid()
    ensures StringLength(c.Text() + more) == |c.Text()| + StringLength(more)
  {
    var s := c.Text() + more;
    match c
    case Plain(_) => assert s[1..] == more;
    case Escaped(_) => assert s[2..] == more;
    case Unicode(hex) =>
      assert s[2..] == hex + more;
      HexRun(hex, more);
  }

  lemma {:induction false} HexRun(hex: string, more: string)
    requires All(hex, IsHex)
    ensures StringLength(hex + more) == |hex| + StringLength(more)
  {
    if hex == "" {
      assert hex + more == more;
    } else {
      HexRun(hex[1..], more);
      assert (hex + more)[1..] == hex[1..] + more;
    }
  }

  lemma CutString(body: string, rest: string)
    ensures var s := "\"" + (body + ("\"" + rest));
            s[1..] == body + ("\"" + rest) && s[..2 + |body|] == "\"" + (body + "\"") && s[2 + |body|..] == rest
  {}

  lemma RejoinString(body: string, rest: string)
    ensures "\"" + (body + "\"") + rest == "\"" + (body + ("\"" + rest))
  {}

  lemma ScanString(chars: seq<StringChar>, rest: string, replace: string -> string)
    requires ValidChars(chars)
    ensures Scan(PrintString(chars, rest), replace) == PrintString(chars, Scan(rest, replace))
  {
    hide Scan, StringLength, CharsText, NumberLength, ValidChars;
    CharsRun(chars, rest);
    CutString(CharsText(chars), rest);
    assert TokenLength(PrintString(chars, rest)) == 2 + |CharsText(chars)|;
    ScanToken(PrintString(chars, rest), replace);
    RejoinString(CharsText(chars), Scan(rest, replace));
  }

  lemma ScanNumber(n: NumberLiteral, rest: string, replace: string -> string)
    requires n.Valid() && Stops(rest)
    ensures Scan(n.Text() + rest, replace) == replace(n.Text()) + Scan(rest, replace)
  {
    NumberRun(n, rest);
    NumberStarts(n, rest);
    hide NumberLength, Scan, NumberLiteral.Text, NumberLiteral.Valid;
    assert TokenLength(n.Text() + rest) == |n.Text()|;
    ScanToken(n.Text() + rest, replace);
    assert (n.Text() + rest)[..|n.Text()|] == n.Text() && (n.Text() + rest)[|n.Text()|..] == rest;
  }

  lemma NumberStarts(n: NumberLiteral, rest: string)
    requires n.Valid()
    ensures |n.Text()| > 0 && (n.Text() + rest)[0] != '"'
  {}

  lemma PlainMatchesNothing(s: string)
    requires s != "" && IsPlainChar(s[0])
    ensures MatchLength(s) == 0
  {}

  lemma {:induction false} ScanCopies(text: string, rest: string, replace: string -> string)
    requires All(text, IsPlainChar)
    ensures Scan(text + rest, replace) == text + Scan(rest, replace)
  {
    hide Scan, MatchLength;
    if text == "" {
      assert text + rest == rest && text + Scan(rest, replace) == Scan(rest, replace);
    } else {
      ScanCopies(text[1..], rest, replace);
      DropFirst(text[..1], text[1..] + rest);
      assert text + rest == text[..1] + (text[1..] + rest);
      PlainMatchesNothing(text + rest);
      ScanPlain(text + rest, replace);
      assert [text[0]] + (text[1..] + Scan(rest, replace)) == text + Scan(rest, replace);
    }
  }
}
