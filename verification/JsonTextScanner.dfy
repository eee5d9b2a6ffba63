/** The scanner that rewrites the numbers of a JSON text outside its strings. */
module JsonTextScanner {
  import opened Common
  import opened Decimal

  // ---- What the regular expression matches at the start of a text ----

  /** `(?:\.\d+)?` */
  function FractionLength(s: string): (n: nat)
    ensures n <= |s|
  {
    if s != "" && s[0] == '.' && DigitsLength(s[1..]) > 0 then 1 + DigitsLength(s[1..]) else 0
  }

  function SignLength(s: string): (n: nat)
    ensures n <= |s|
  {
    if s != "" && (s[0] == '+' || s[0] == '-') then 1 else 0
  }

  /** `(?:[eE][+-]?\d+)?` */
  function ExponentLength(s: string): (n: nat)
    ensures n <= |s|
  {
    if s != "" && (s[0] == 'e' || s[0] == 'E') then
      var sign := 1 + SignLength(s[1..]);
      var digits := DigitsLength(s[sign..]);
      if digits > 0 then sign + digits else 0
    else 0
  }

  function MinusLength(s: string): (n: nat)
    ensures n <= |s|
  {
    if s != "" && s[0] == '-' then 1 else 0
  }

  /** The length of the number at the start of the text; 0 when there is none. */
  function NumberLength(s: string): (n: nat)
    ensures n <= |s|
  {
    var afterMinus := s[MinusLength(s)..];
    var integer := DigitsLength(afterMinus);
    if integer == 0 then 0
    else
      var afterInteger := afterMinus[integer..];
      var fraction := FractionLength(afterInteger);
      MinusLength(s) + integer + fraction + ExponentLength(afterInteger[fraction..])
  }

  /** The length of the rest of a string literal, its closing quote included. */
  function StringLength(s: string): (n: nat)
    ensures n <= |s|
  {
    if s == "" then 0
    else if s[0] == '\\' then (if |s| == 1 then 1 else 2 + StringLength(s[2..]))
    else if s[0] == '"' then 1
    else 1 + StringLength(s[1..])
  }

  /** The whole text with every number outside a string replaced. */
  function Scan(s: string, replace: string -> string): string
    decreases |s|
  {
    if s == "" then ""
    else if s[0] == '"' then
      var n := 1 + StringLength(s[1..]);
      s[..n] + Scan(s[n..], replace)
    else
      var n := NumberLength(s);
      if n > 0 then replace(s[..n]) + Scan(s[n..], replace)
      else [s[0]] + Scan(s[1..], replace)
  }

  /** Any text, well formed or not, is copied but for the numbers that are replaced. */
  lemma {:induction false} ScanKeepsTheRest(s: string, replace: string -> string)
    requires forall t :: replace(t) == t
    ensures Scan(s, replace) == s
    decreases |s|
  {
    hide NumberLength, StringLength, Scan;
    if s == "" {
      ScanUnfolds(s, replace, 0);
    } else {
      var n := if s[0] == '"' then 1 + StringLength(s[1..]) else if NumberLength(s) > 0 then NumberLength(s) else 1;
      ScanKeepsTheRest(s[n..], replace);
      ScanUnfolds(s, replace, n);
      assert s == s[..n] + s[n..];
    }
  }

  lemma ScanUnfolds(s: string, replace: string -> string, n: nat)
    requires s != "" ==> n == if s[0] == '"' then 1 + StringLength(s[1..]) else if NumberLength(s) > 0 then NumberLength(s) else 1
    ensures s == "" ==> Scan(s, replace) == ""
    ensures s != "" ==>
              Scan(s, replace)
              == (if s[0] != '"' && NumberLength(s) > 0 then replace(s[..n]) else s[..n]) + Scan(s[n..], replace)
  {
    hide NumberLength, StringLength;
  }

  // ---- The loops ----

  method FindStringEnd(json: string, openingQuoteIndex: nat) returns (end: nat)
    requires openingQuoteIndex < |json|
    ensures end == openingQuoteIndex + 1 + StringLength(json[openingQuoteIndex + 1..])
    ensures openingQuoteIndex < end <= |json|
  {
    var index := openingQuoteIndex + 1;
    while index < |json|
      invariant openingQuoteIndex < index <= |json| + 1
      invariant index <= |json| ==> index + StringLength(json[index..]) == openingQuoteIndex + 1 + StringLength(json[openingQuoteIndex + 1..])
      invariant index == |json| + 1 ==> |json| == openingQuoteIndex + 1 + StringLength(json[openingQuoteIndex + 1..])
    {
      assert json[index..][1..] == json[index + 1..];
      if json[index] == '\\' {
        if index + 2 <= |json| { assert json[index..][2..] == json[index + 2..]; }
        index := index + 2;
        continue;
      }
      if json[index] == '"' { return index + 1; }
      index := index + 1;
    }
    return |json|;
  }

  datatype Match = Match(index: nat, length: nat)

  /** The leftmost match from `lastIndex` on: a quote, or a number. */
  function MatchLength(s: string): (n: nat)
    ensures n <= |s|
  {
    if s != "" && s[0] == '"' then 1 else NumberLength(s)
  }

  ghost predicate NoMatch(json: string, lo: int, hi: int) {
    forall i :: 0 <= lo <= i < hi <= |json| ==> MatchLength(json[i..]) == 0
  }

  ghost predicate IsNextMatch(json: string, lastIndex: nat, found: Option<Match>) {
    if found.None? then NoMatch(json, lastIndex, |json|)
    else
      var m := found.value;
      && lastIndex <= m.index < m.index + m.length <= |json|
      && m.length == MatchLength(json[m.index..])
      && NoMatch(json, lastIndex, m.index)
  }

  method Exec(json: string, lastIndex: nat) returns (found: Option<Match>)
    requires lastIndex <= |json|
    ensures IsNextMatch(json, lastIndex, found)
  {
    for i := lastIndex to |json|
      invariant NoMatch(json, lastIndex, i)
    {
      if MatchLength(json[i..]) > 0 { return Some(Match(i, MatchLength(json[i..]))); }
    }
    return None;
  }

  lemma ScanPlain(s: string, replace: string -> string)
    requires s != "" && MatchLength(s) == 0
    ensures Scan(s, replace) == [s[0]] + Scan(s[1..], replace)
  {}

  /** Up to the next match the scan copies. */
  lemma {:induction false} CopiesUntilMatch(json: string, lo: int, hi: int, replace: string -> string)
    requires 0 <= lo <= hi <= |json| && NoMatch(json, lo, hi)
    ensures Scan(json[lo..], replace) == json[lo..hi] + Scan(json[hi..], replace)
    decreases hi - lo
  {
    hide Scan, MatchLength;
    if lo < hi {
      CopiesUntilMatch(json, lo + 1, hi, replace);
      ScanPlain(json[lo..], replace);
      assert json[lo..][1..] == json[lo + 1..];
      assert [json[lo]] + (json[lo + 1..hi] + Scan(json[hi..], replace)) == json[lo..hi] + Scan(json[hi..], replace);
    } else {
      assert json[lo..hi] + Scan(json[hi..], replace) == Scan(json[hi..], replace);
    }
  }

  function Join(parts: seq<string>): string {
    if parts == [] then "" else Join(parts[..|parts| - 1]) + parts[|parts| - 1]
  }

  lemma JoinPushes(parts: seq<string>, a: string, b: string)
    ensures Join(parts + [a]) == Join(parts) + a
    ensures Join(parts + [a, b]) == Join(parts) + a + b
  {
    assert (parts + [a])[..|parts|] == parts;
    assert (parts + [a, b])[..|parts| + 1] == parts + [a];
  }

  /** The token a match stands for, and where the next search starts. */
  function TokenEnd(json: string, i: nat): (end: nat)
    requires i < |json| && MatchLength(json[i..]) > 0
    ensures i < end <= |json|
  {
    if json[i] == '"' then i + 1 + StringLength(json[i + 1..]) else i + NumberLength(json[i..])
  }

  function Rewritten(json: string, i: nat, replace: string -> string): string
    requires i < |json| && MatchLength(json[i..]) > 0
  {
    var token := json[i..TokenEnd(json, i)];
    if json[i] == '"' then token else replace(token)
  }

  /** The length of a token at the start of a text. */
  function TokenLength(s: string): (n: nat)
    requires s != "" && MatchLength(s) > 0
    ensures 0 < n <= |s|
  {
    if s[0] == '"' then 1 + StringLength(s[1..]) else NumberLength(s)
  }

  lemma ScanToken(s: string, replace: string -> string)
    requires s != "" && MatchLength(s) > 0
    ensures var n := TokenLength(s);
            Scan(s, replace) == (if s[0] == '"' then s[..n] else replace(s[..n])) + Scan(s[n..], replace)
  {
    hide NumberLength, StringLength;
  }

  lemma TokenLengthIs(json: string, i: nat)
    requires i < |json| && MatchLength(json[i..]) > 0
    ensures TokenLength(json[i..]) == TokenEnd(json, i) - i
  {
    hide NumberLength, StringLength;
    CutFromHere(json, i, i + 1);
  }

  lemma ScanMatch(json: string, i: nat, replace: string -> string)
    requires i < |json| && MatchLength(json[i..]) > 0
    ensures Scan(json[i..], replace) == Rewritten(json, i, replace) + Scan(json[TokenEnd(json, i)..], replace)
  {
    hide Scan, NumberLength, StringLength, MatchLength, TokenLength, TokenEnd;
    TokenLengthIs(json, i);
    ScanToken(json[i..], replace);
    CutFromHere(json, i, TokenEnd(json, i));
  }

  lemma CutFromHere(json: string, i: nat, end: nat)
    requires i <= end <= |json|
    ensures json[i..][..end - i] == json[i..end] && json[i..][end - i..] == json[end..]
  {}

  /** One round of the loop: copy up to the match, rewrite it, go on behind it. */
  lemma ScanRound(json: string, lastIndex: nat, i: nat, replace: string -> string)
    requires lastIndex <= i < |json| && NoMatch(json, lastIndex, i) && MatchLength(json[i..]) > 0
    ensures Scan(json[lastIndex..], replace)
            == json[lastIndex..i] + Rewritten(json, i, replace) + Scan(json[TokenEnd(json, i)..], replace)
  {
    hide Scan, NoMatch, MatchLength, NumberLength, StringLength;
    CopiesUntilMatch(json, lastIndex, i, replace);
    ScanMatch(json, i, replace);
    Reassociate(json[lastIndex..i], Rewritten(json, i, replace), Scan(json[TokenEnd(json, i)..], replace));
  }

  /** What the rounds so far have rewritten: the parts, and what is still to copy. */
  ghost predicate IsWritten(json: string, parts: seq<string>, copied: nat, lastIndex: nat, out: string) {
    copied <= lastIndex <= |json| && (parts == [] ==> copied == 0) && out == Join(parts) + json[copied..lastIndex]
  }

  lemma OutGrows(json: string, out: string, lastIndex: nat, i: nat, replace: string -> string)
    requires lastIndex <= i < |json| && NoMatch(json, lastIndex, i) && MatchLength(json[i..]) > 0
    requires Scan(json, replace) == out + Scan(json[lastIndex..], replace)
    ensures Scan(json, replace)
            == out + (json[lastIndex..i] + Rewritten(json, i, replace)) + Scan(json[TokenEnd(json, i)..], replace)
  {
    hide Scan, NoMatch, MatchLength, TokenEnd, Rewritten;
    ScanRound(json, lastIndex, i, replace);
    Reassociate(out, json[lastIndex..i] + Rewritten(json, i, replace), Scan(json[TokenEnd(json, i)..], replace));
  }

  /** A round that keeps its token leaves it to be copied later. */
  lemma RoundKeeps(json: string, parts: seq<string>, copied: nat, before: nat, i: nat, end: nat, out: string)
    requires IsWritten(json, parts, copied, before, out) && before <= i <= end <= |json|
    ensures IsWritten(json, parts, copied, end, out + (json[before..i] + json[i..end]))
  {
    assert json[copied..before] + (json[before..i] + json[i..end]) == json[copied..end];
  }

  lemma RoundReplaces(json: string, parts: seq<string>, copied: nat, before: nat, i: nat, end: nat, out: string, replacement: string)
    requires IsWritten(json, parts, copied, before, out) && before <= i <= end <= |json|
    ensures IsWritten(json, parts + [json[copied..i], replacement], end, end, out + (json[before..i] + replacement))
  {
    JoinPushes(parts, json[copied..i], replacement);
    hide Join;
    assert json[copied..before] + json[before..i] == json[copied..i];
  }

  lemma Reassociate(a: string, b: string, c: string)
    ensures a + (b + c) == a + b + c
  {}

  method ReplaceNumbersOutsideStrings(json: string, replaceNumber: string -> string) returns (result: string)
    ensures result == Scan(json, replaceNumber)
  {
    hide Scan, MatchLength, NumberLength, StringLength, NoMatch, Join, IsWritten;
    var parts: seq<string> := [];
    var copiedUntil, lastIndex := 0, 0;
    ghost var out := "";
    NothingWritten(json, replaceNumber);
    var found := Exec(json, lastIndex);
    while found.Some?
      invariant 0 <= copiedUntil <= lastIndex <= |json| && IsNextMatch(json, lastIndex, found)
      invariant IsWritten(json, parts, copiedUntil, lastIndex, out)
      invariant Scan(json, replaceNumber) == out + Scan(json[lastIndex..], replaceNumber)
      decreases |json| - lastIndex
    {
      var m := found.value;
      var token := json[m.index..m.index + m.length];
      ghost var before := lastIndex;
      TokenOfMatch(json, m);
      OutGrows(json, out, before, m.index, replaceNumber);
      if token == "\"" {
        lastIndex := FindStringEnd(json, m.index);
        RoundKeeps(json, parts, copiedUntil, before, m.index, lastIndex, out);
      } else {
        lastIndex := m.index + m.length;
        var replacement := replaceNumber(token);
        if replacement == token {
          RoundKeeps(json, parts, copiedUntil, before, m.index, lastIndex, out);
        } else {
          RoundReplaces(json, parts, copiedUntil, before, m.index, lastIndex, out, replacement);
          parts := parts + [json[copiedUntil..m.index], replacement];
          copiedUntil := lastIndex;
        }
      }
      out := out + (json[before..m.index] + Rewritten(json, m.index, replaceNumber));
      found := Exec(json, lastIndex);
    }
    ScanTail(json, parts, copiedUntil, lastIndex, out, replaceNumber);
    if parts == [] { return json; }
    parts := parts + [json[copiedUntil..]];
    return Join(parts);
  }

  /** Behind the last match the rest is copied. */
  lemma ScanTail(json: string, parts: seq<string>, copied: nat, lastIndex: nat, out: string, replace: string -> string)
    requires lastIndex <= |json| && NoMatch(json, lastIndex, |json|) && IsWritten(json, parts, copied, lastIndex, out)
    requires Scan(json, replace) == out + Scan(json[lastIndex..], replace)
    ensures Scan(json, replace) == if parts == [] then json else Join(parts + [json[copied..]])
  {
    hide Scan, NoMatch;
    ScanRest(json, lastIndex, replace);
    assert json[copied..lastIndex] + json[lastIndex..] == json[copied..];
    JoinPushes(parts, json[copied..], "");
    hide Join;
    if parts == [] { assert Join(parts) == "" by { NothingWritten(json, replace); } }
  }

  lemma ScanRest(json: string, lastIndex: nat, replace: string -> string)
    requires lastIndex <= |json| && NoMatch(json, lastIndex, |json|)
    ensures Scan(json[lastIndex..], replace) == json[lastIndex..]
  {
    CopiesUntilMatch(json, lastIndex, |json|, replace);
    assert json[lastIndex..|json|] + "" == json[lastIndex..];
  }

  lemma NothingWritten(json: string, replace: string -> string)
    ensures Join([]) == "" && IsWritten(json, [], 0, 0, "") && Scan(json, replace) == "" + Scan(json[0..], replace)
  {
    assert json[0..] == json;
  }

  /** A one-quote match opens a string; any other is the number itself. */
  lemma TokenOfMatch(json: string, m: Match)
    requires m.index < m.index + m.length <= |json| && m.length == MatchLength(json[m.index..])
    ensures var token := json[m.index..m.index + m.length];
            && MatchLength(json[m.index..]) > 0
            && (token == "\"" <==> json[m.index] == '"')
            && (json[m.index] == '"' ==> TokenEnd(json, m.index) == m.index + 1 + StringLength(json[m.index + 1..]))
            && (json[m.index] != '"' ==> TokenEnd(json, m.index) == m.index + m.length)
  {}
}
