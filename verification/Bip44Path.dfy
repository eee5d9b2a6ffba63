/** Derivation paths: m / 44' / coin type' / account' / change / index. */
module Bip44Path {
  import opened Common
  import opened Decimal

  const MAX_COMPONENT_VALUE := 0x7FFF_FFFF

  datatype Path = Path(coinType: int, account: int, change: int, index: int) {
    predicate Valid() {
      && 0 <= coinType <= MAX_COMPONENT_VALUE && 0 <= account <= MAX_COMPONENT_VALUE
      && 0 <= change <= 1 && 0 <= index <= MAX_COMPONENT_VALUE
    }

    function ToRootPathString(): string
      requires Valid()
    {
      "m/44'/" + (Numeral(coinType) + ("'/" + (Numeral(account) + ("'/" + Numeral(change)))))
    }

    function ToString(): string
      requires Valid()
    {
      ToRootPathString() + ("/" + Numeral(index))
    }
  }

  datatype PathError =
    | NotRooted | WrongComponentCount | WrongPurpose | NotHardened | NotCanonical
    | CoinTypeOutOfRange | AccountOutOfRange | ChangeOutOfRange | IndexOutOfRange

  /** The constructor's bounds, checked in its order. */
  function Create(coinType: int, account: int, change: int, index: int): Result<Path, PathError> {
    if !(0 <= coinType <= MAX_COMPONENT_VALUE) then Err(CoinTypeOutOfRange)
    else if !(0 <= account <= MAX_COMPONENT_VALUE) then Err(AccountOutOfRange)
    else if !(0 <= change <= 1) then Err(ChangeOutOfRange)
    else if !(0 <= index <= MAX_COMPONENT_VALUE) then Err(IndexOutOfRange)
    else Ok(Path(coinType, account, change, index))
  }

  /** `split`: never empty, and no part holds the separator. */
  function Split(s: string, separator: char): (parts: seq<string>)
    ensures |parts| >= 1
  {
    if s == "" then [""]
    else
      var rest := Split(s[1..], separator);
      if s[0] == separator then [""] + rest else [[s[0]] + rest[0]] + rest[1..]
  }

  function Join(parts: seq<string>, separator: char): string {
    if parts == [] then "" else if |parts| == 1 then parts[0] else parts[0] + ([separator] + Join(parts[1..], separator))
  }

  predicate IsHardened(part: string) { part != "" && part[|part| - 1] == '\'' }

  function Unhardened(part: string): string
    requires IsHardened(part)
  {
    part[..|part| - 1]
  }

  function Parse(pathString: string): Result<Path, PathError> {
    var parts := Split(pathString, '/');
    if parts[0] != "m" then Err(NotRooted)
    else if |parts| != 6 then Err(WrongComponentCount)
    else if parts[1] != "44'" then Err(WrongPurpose)
    else if !IsHardened(parts[2]) || !IsHardened(parts[3]) then Err(NotHardened)
    else
      var coinType, account := Unhardened(parts[2]), Unhardened(parts[3]);
      if !IsCanonical(coinType) || !IsCanonical(account) || !IsCanonical(parts[4]) || !IsCanonical(parts[5]) then Err(NotCanonical)
      else Create(ValueOf(coinType), ValueOf(account), ValueOf(parts[4]), ValueOf(parts[5]))
  }

  predicate IsValid(pathString: string) { Parse(pathString).Ok? }

  // ---- Splitting and joining ----

  ghost predicate Lacks(s: string, separator: char) {
    forall i :: 0 <= i < |s| ==> s[i] != separator
  }

  lemma {:induction false} SplitJoins(s: string, separator: char)
    ensures Join(Split(s, separator), separator) == s
  {
    if s != "" {
      SplitJoins(s[1..], separator);
      var rest := Split(s[1..], separator);
      assert s == [s[0]] + s[1..];
      if s[0] == separator {
        assert ([""] + rest)[1..] == rest && "" + ([separator] + Join(rest, separator)) == s;
      } else {
        PrependJoins([s[0]], rest, separator);
      }
    }
  }

  lemma PrependJoins(a: string, parts: seq<string>, separator: char)
    requires parts != []
    ensures Join([a + parts[0]] + parts[1..], separator) == a + Join(parts, separator)
  {
    var joined := [a + parts[0]] + parts[1..];
    assert joined[1..] == parts[1..];
    if |parts| > 1 {
      var tail := [separator] + Join(parts[1..], separator);
      assert a + parts[0] + tail == a + (parts[0] + tail);
    }
  }

  lemma {:induction false} SplitFirst(a: string, rest: string, separator: char)
    requires Lacks(a, separator)
    ensures Split(a + ([separator] + rest), separator) == [a] + Split(rest, separator)
  {
    var s := a + ([separator] + rest);
    if a == "" {
      assert s == [separator] + rest && s[1..] == rest;
    } else {
      SplitFirst(a[1..], rest, separator);
      assert s[1..] == a[1..] + ([separator] + rest);
      assert [a[0]] + a[1..] == a;
      assert ([a[1..]] + Split(rest, separator))[1..] == Split(rest, separator);
    }
  }

  lemma {:induction false} SplitLast(a: string, separator: char)
    requires Lacks(a, separator)
    ensures Split(a, separator) == [a]
  {
    if a != "" {
      SplitLast(a[1..], separator);
      assert [a[0]] + a[1..] == a;
    }
  }

  lemma NumeralsLackSlash(n: nat)
    ensures Lacks(Numeral(n), '/') && Lacks(Numeral(n) + "'", '/')
  {
    NumeralRoundTrips(n);
  }

  function Parts(p: Path): seq<string>
    requires p.Valid()
  {
    ["m", "44'", Numeral(p.coinType) + "'", Numeral(p.account) + "'", Numeral(p.change), Numeral(p.index)]
  }

  lemma PathJoins(p: Path)
    requires p.Valid()
    ensures p.ToString() == "m" + ("/" + ("44'" + ("/" + (Numeral(p.coinType) + "'" + ("/" + (Numeral(p.account) + "'" + ("/"
                            + (Numeral(p.change) + ("/" + Numeral(p.index))))))))))
  {
    hide Numeral;
    var c, a, ch, i := Numeral(p.coinType), Numeral(p.account), Numeral(p.change), Numeral(p.index);
    assert "m" + ("/" + ("44'" + ("/" + (c + "'" + ("/" + (a + "'" + ("/" + (ch + ("/" + i))))))))) ==
           ("m/44'/" + (c + ("'/" + (a + ("'/" + ch))))) + ("/" + i);
  }

  lemma PathSplits(p: Path)
    requires p.Valid()
    ensures Split(p.ToString(), '/') == Parts(p)
  {
    PathJoins(p);
    NumeralsLackSlash(p.coinType);
    NumeralsLackSlash(p.account);
    NumeralsLackSlash(p.change);
    NumeralsLackSlash(p.index);
    hide Numeral, Split, Path.ToString;
    var c, a, ch, i := Numeral(p.coinType) + "'", Numeral(p.account) + "'", Numeral(p.change), Numeral(p.index);
    SplitLast(i, '/');
    SplitFirst(ch, i, '/');
    SplitFirst(a, ch + ("/" + i), '/');
    SplitFirst(c, a + ("/" + (ch + ("/" + i))), '/');
    SplitFirst("44'", c + ("/" + (a + ("/" + (ch + ("/" + i))))), '/');
    SplitFirst("m", "44'" + ("/" + (c + ("/" + (a + ("/" + (ch + ("/" + i))))))), '/');
  }

  // ---- Both directions ----

  /** Printing a path and parsing it gives the path. */
  lemma PrintedParses(p: Path)
    requires p.Valid()
    ensures Parse(p.ToString()) == Ok(p)
  {
    PathSplits(p);
    NumeralRoundTrips(p.coinType);
    NumeralRoundTrips(p.account);
    NumeralRoundTrips(p.change);
    NumeralRoundTrips(p.index);
    hide Numeral, Split, Path.ToString, ValueOf, IsCanonical;
    assert Unhardened(Numeral(p.coinType) + "'") == Numeral(p.coinType);
    assert Unhardened(Numeral(p.account) + "'") == Numeral(p.account);
  }

  /** Any accepted string is printed again as it was. */
  lemma ParsedPrints(pathString: string)
    requires Parse(pathString).Ok?
    ensures Parse(pathString).value.Valid() && Parse(pathString).value.ToString() == pathString
  {
    hide Numeral, Split, ValueOf, IsCanonical, Join;
    var parts := Split(pathString, '/');
    var p := Parse(pathString).value;
    CanonicalIsNumeral(Unhardened(parts[2]));
    CanonicalIsNumeral(Unhardened(parts[3]));
    CanonicalIsNumeral(parts[4]);
    CanonicalIsNumeral(parts[5]);
    assert Unhardened(parts[2]) + "'" == parts[2] && Unhardened(parts[3]) + "'" == parts[3];
    assert parts == Parts(p);
    SplitJoins(pathString, '/');
    hide Path.ToString;
    PathSplits(p);
    SplitJoins(p.ToString(), '/');
  }

  /** The accepted strings are exactly the printed valid paths. */
  lemma AcceptsExactlyThePrinted(pathString: string)
    ensures IsValid(pathString) <==> exists p: Path :: p.Valid() && p.ToString() == pathString
  {
    if IsValid(pathString) { ParsedPrints(pathString); }
    forall p: Path | p.Valid() && p.ToString() == pathString ensures IsValid(pathString) { PrintedParses(p); }
  }

  /** So they are these numerals in this form, without leading zeros: three below 2^31,
      and 0 or 1 for the change. */
  ghost predicate Spells(pathString: string, coinType: string, account: string, change: string, index: string) {
    && IsCanonical(coinType) && IsCanonical(account) && IsCanonical(change) && IsCanonical(index)
    && ValueOf(coinType) < 0x8000_0000 && ValueOf(account) < 0x8000_0000 && ValueOf(change) < 2 && ValueOf(index) < 0x8000_0000
    && pathString == "m/44'/" + (coinType + ("'/" + (account + ("'/" + (change + ("/" + index))))))
  }

  lemma AcceptsExactlyTheSpelled(pathString: string)
    ensures IsValid(pathString) <==> exists coinType, account, change, index :: Spells(pathString, coinType, account, change, index)
  {
    hide IsValid, Numeral, ValueOf, IsCanonical;
    AcceptsExactlyThePrinted(pathString);
    if p: Path :| p.Valid() && p.ToString() == pathString {
      NumeralRoundTrips(p.coinType);
      NumeralRoundTrips(p.account);
      NumeralRoundTrips(p.change);
      NumeralRoundTrips(p.index);
      assert Spells(pathString, Numeral(p.coinType), Numeral(p.account), Numeral(p.change), Numeral(p.index)) by {
        LastSlash(p);
      }
    }
    if coinType, account, change, index :| Spells(pathString, coinType, account, change, index) {
      CanonicalIsNumeral(coinType);
      CanonicalIsNumeral(account);
      CanonicalIsNumeral(change);
      CanonicalIsNumeral(index);
      var p := Path(ValueOf(coinType), ValueOf(account), ValueOf(change), ValueOf(index));
      LastSlash(p);
      assert p.Valid() && p.ToString() == pathString;
    }
  }

  lemma LastSlash(p: Path)
    requires p.Valid()
    ensures p.ToString() == "m/44'/" + (Numeral(p.coinType) + ("'/" + (Numeral(p.account) + ("'/" + (Numeral(p.change) + ("/" + Numeral(p.index)))))))
  {
    hide Numeral;
  }

  // ---- The path object ----

  class Bip44PathObject {
    var coinType: int
    var account: int
    var change: int
    var index: int

    ghost function State(): Path
      reads this
    {
      Path(coinType, account, change, index)
    }

    ghost predicate Valid()
      reads this
    {
      State().Valid()
    }

    constructor (p: Path)
      requires p.Valid()
      ensures State() == p && Valid()
    {
      coinType, account, change, index := p.coinType, p.account, p.change, p.index;
    }

    method SetCoinType(value: int) returns (ok: bool)
      requires Valid()
      modifies this`coinType
      ensures Valid() && ok == Create(value, old(account), old(change), old(index)).Ok?
      ensures State() == if ok then old(State()).(coinType := value) else old(State())
    {
      ok := 0 <= value <= MAX_COMPONENT_VALUE;
      if ok { coinType := value; }
    }

    method SetAccount(value: int) returns (ok: bool)
      requires Valid()
      modifies this`account
      ensures Valid() && ok == Create(old(coinType), value, old(change), old(index)).Ok?
      ensures State() == if ok then old(State()).(account := value) else old(State())
    {
      ok := 0 <= value <= MAX_COMPONENT_VALUE;
      if ok { account := value; }
    }

    method SetChange(value: int) returns (ok: bool)
      requires Valid()
      modifies this`change
      ensures Valid() && ok == Create(old(coinType), old(account), value, old(index)).Ok?
      ensures State() == if ok then old(State()).(change := value) else old(State())
    {
      ok := 0 <= value <= 1;
      if ok { change := value; }
    }

    method SetIndex(value: int) returns (ok: bool)
      requires Valid()
      modifies this`index
      ensures Valid() && ok == Create(old(coinType), old(account), old(change), value).Ok?
      ensures State() == if ok then old(State()).(index := value) else old(State())
    {
      ok := 0 <= value <= MAX_COMPONENT_VALUE;
      if ok { index := value; }
    }

    method ToPathString() returns (s: string)
      requires Valid()
      ensures Parse(s) == Ok(State())
    {
      PrintedParses(State());
      s := Path(coinType, account, change, index).ToString();
    }
  }
}
