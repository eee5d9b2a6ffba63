/** Merging two ordered lists and cutting a page out of one. */
module CollectionQuery {
  import opened Common

  function Min(a: nat, b: nat): nat { if a < b then a else b }

  /** An offset or limit past the end is cut at the end; no limit means all. */
  function Slice<T>(items: seq<T>, offset: nat, limit: Option<nat>): seq<T> {
    var end := if limit.None? then |items| else Min(offset + limit.value, |items|);
    items[Min(offset, end)..end]
  }

  /** A slice holds the items from its offset on, up to its limit. */
  lemma SliceHolds<T>(items: seq<T>, offset: nat, limit: Option<nat>, k: nat)
    ensures k < |Slice(items, offset, limit)| <==> offset + k < |items| && (limit.Some? ==> k < limit.value)
    ensures k < |Slice(items, offset, limit)| ==> Slice(items, offset, limit)[k] == items[offset + k]
  {}

  /** The merge: on a tie the primary item comes first. */
  function Merge<T>(primary: seq<T>, secondary: seq<T>, comparator: (T, T) -> int): seq<T> {
    if primary == [] then secondary
    else if secondary == [] then primary
    else if comparator(primary[0], secondary[0]) <= 0 then [primary[0]] + Merge(primary[1..], secondary, comparator)
    else [secondary[0]] + Merge(primary, secondary[1..], comparator)
  }

  method MergeSorted<T>(primary: seq<T>, secondary: seq<T>, comparator: (T, T) -> int) returns (merged: seq<T>)
    ensures merged == Merge(primary, secondary, comparator)
  {
    merged := [];
    var i, j := 0, 0;
    while i < |primary| && j < |secondary|
      invariant 0 <= i <= |primary| && 0 <= j <= |secondary|
      invariant Merge(primary, secondary, comparator) == merged + Merge(primary[i..], secondary[j..], comparator)
      decreases |primary| - i + |secondary| - j
    {
      MergeUnfolds(primary[i..], secondary[j..], comparator, merged);
      assert primary[i..][1..] == primary[i + 1..] && secondary[j..][1..] == secondary[j + 1..];
      if comparator(primary[i], secondary[j]) <= 0 {
        merged := merged + [primary[i]];
        i := i + 1;
      } else {
        merged := merged + [secondary[j]];
        j := j + 1;
      }
    }
    merged := merged + primary[i..] + secondary[j..];
  }

  lemma MergeUnfolds<T>(primary: seq<T>, secondary: seq<T>, comparator: (T, T) -> int, before: seq<T>)
    requires primary != [] && secondary != []
    ensures before + Merge(primary, secondary, comparator)
            == if comparator(primary[0], secondary[0]) <= 0
               then before + [primary[0]] + Merge(primary[1..], secondary, comparator)
               else before + [secondary[0]] + Merge(primary, secondary[1..], comparator)
  {}

  lemma {:induction false} MergeKeepsAll<T>(primary: seq<T>, secondary: seq<T>, comparator: (T, T) -> int)
    ensures multiset(Merge(primary, secondary, comparator)) == multiset(primary) + multiset(secondary)
    ensures |Merge(primary, secondary, comparator)| == |primary| + |secondary|
  {
    if primary != [] && secondary != [] {
      assert primary == [primary[0]] + primary[1..] && secondary == [secondary[0]] + secondary[1..];
      if comparator(primary[0], secondary[0]) <= 0 {
        MergeKeepsAll(primary[1..], secondary, comparator);
      } else {
        MergeKeepsAll(primary, secondary[1..], comparator);
      }
    }
  }

  /** The first `k` merged items need only the first `m >= k` primary ones. */
  lemma {:induction false} MergePrefix<T>(primary: seq<T>, secondary: seq<T>, comparator: (T, T) -> int, m: nat, k: nat)
    requires k <= m <= |primary|
    ensures k <= |Merge(primary, secondary, comparator)| && k <= |Merge(primary[..m], secondary, comparator)|
    ensures Merge(primary, secondary, comparator)[..k] == Merge(primary[..m], secondary, comparator)[..k]
  {
    MergeLength(primary, secondary, comparator);
    MergeLength(primary[..m], secondary, comparator);
    if k > 0 && secondary == [] {
      assert primary[..m][..k] == primary[..k];
    } else if k > 0 {
      var firstWins := comparator(primary[0], secondary[0]) <= 0;
      if firstWins {
        PrimaryFirst(primary, secondary, comparator);
        PrimaryFirst(primary[..m], secondary, comparator);
        assert primary[..m][1..] == primary[1..][..m - 1];
        MergePrefix(primary[1..], secondary, comparator, m - 1, k - 1);
        TakePrepended(primary[0], Merge(primary[1..], secondary, comparator), Merge(primary[1..][..m - 1], secondary, comparator), k);
      } else {
        SecondaryFirst(primary, secondary, comparator);
        SecondaryFirst(primary[..m], secondary, comparator);
        MergePrefix(primary, secondary[1..], comparator, m, k - 1);
        TakePrepended(secondary[0], Merge(primary, secondary[1..], comparator), Merge(primary[..m], secondary[1..], comparator), k);
      }
    }
  }

  lemma MergeLength<T>(primary: seq<T>, secondary: seq<T>, comparator: (T, T) -> int)
    ensures |Merge(primary, secondary, comparator)| == |primary| + |secondary|
  {
    MergeKeepsAll(primary, secondary, comparator);
  }

  lemma TakePrepended<T>(x: T, s: seq<T>, t: seq<T>, k: nat)
    requires 0 < k <= |s| + 1 && k <= |t| + 1 && s[..k - 1] == t[..k - 1]
    ensures ([x] + s)[..k] == ([x] + t)[..k]
  {
    assert ([x] + s)[..k] == [x] + s[..k - 1] && ([x] + t)[..k] == [x] + t[..k - 1];
  }

  /** The merge splits where both lists do: everything before the cut goes before
      everything after it. */
  lemma {:induction false} MergeSplits<T>(a: seq<T>, a': seq<T>, b: seq<T>, b': seq<T>, comparator: (T, T) -> int)
    requires forall x, y :: x in a && y in b' ==> comparator(x, y) <= 0
    requires forall x, y :: x in a' && y in b ==> comparator(x, y) > 0
    ensures Merge(a + a', b + b', comparator) == Merge(a, b, comparator) + Merge(a', b', comparator)
  {
    hide Merge;
    MergeWithNone(a, comparator);
    MergeWithNone(b, comparator);
    if a == [] && b == [] {
      assert a + a' == a' && b + b' == b' && [] + Merge(a', b', comparator) == Merge(a', b', comparator);
    } else if b != [] && (a == [] || comparator(a[0], b[0]) > 0) {
      assert (b + b')[1..] == b[1..] + b' && (b + b')[0] == b[0];
      MergeSplits(a, a', b[1..], b', comparator);
      SecondaryFirst(a + a', b + b', comparator);
      SecondaryFirst(a, b, comparator);
      Reassociate(b[0], Merge(a, b[1..], comparator), Merge(a', b', comparator));
    } else {
      assert (a + a')[1..] == a[1..] + a' && (a + a')[0] == a[0];
      MergeSplits(a[1..], a', b, b', comparator);
      PrimaryFirst(a + a', b + b', comparator);
      PrimaryFirst(a, b, comparator);
      Reassociate(a[0], Merge(a[1..], b, comparator), Merge(a', b', comparator));
    }
  }

  lemma MergeWithNone<T>(s: seq<T>, comparator: (T, T) -> int)
    ensures Merge(s, [], comparator) == s && Merge([], s, comparator) == s
  {}

  lemma Reassociate<T>(x: T, s: seq<T>, t: seq<T>)
    ensures [x] + (s + t) == [x] + s + t
  {}

  lemma PrimaryFirst<T>(a: seq<T>, b: seq<T>, comparator: (T, T) -> int)
    requires a != [] && (b != [] ==> comparator(a[0], b[0]) <= 0)
    ensures Merge(a, b, comparator) == [a[0]] + Merge(a[1..], b, comparator)
  {}

  lemma SecondaryFirst<T>(a: seq<T>, b: seq<T>, comparator: (T, T) -> int)
    requires b != [] && (a != [] ==> comparator(a[0], b[0]) > 0)
    ensures Merge(a, b, comparator) == [b[0]] + Merge(a, b[1..], comparator)
  {}
}
