/** A history page is computed from a window of the executed list, moved back and
    widened by the number of pending transactions, merged with the pending ones. */
module TransactionsHistory {
  import opened Common
  import opened StableSorting
  import opened CollectionQuery

  datatype Transaction = Transaction(id: string, networkId: string, timestamp: int)

  datatype Pagination = Pagination(offset: nat, limit: Option<nat>)

  const FirstPage := Pagination(0, None)

  datatype HistoryWindow = HistoryWindow(
    pendingTransactions: seq<Transaction>, executedPagination: Pagination, pageOffset: nat, pageLimit: Option<nat>)

  function CompareByTimestampDesc(first: Transaction, second: Transaction): int {
    second.timestamp - first.timestamp
  }

  function ByDateDesc(t: Transaction): int { -t.timestamp }

  function OnNetwork(transactions: seq<Transaction>, network: string): seq<Transaction> {
    if transactions == [] then []
    else (if transactions[0].networkId == network then [transactions[0]] else []) + OnNetwork(transactions[1..], network)
  }

  function SelectNetworkPending(pending: seq<Transaction>, network: string): seq<Transaction> {
    Sort(OnNetwork(pending, network), ByDateDesc)
  }

  function PaginatePendingTransactions(pending: seq<Transaction>, network: string, pagination: Option<Pagination>): seq<Transaction> {
    var p := if pagination.Some? then pagination.value else FirstPage;
    Slice(SelectNetworkPending(pending, network), p.offset, p.limit)
  }

  function GetExecutedOffset(pageOffset: nat, pendingCount: nat): nat {
    if pageOffset > pendingCount then pageOffset - pendingCount else 0
  }

  function CreateHistoryWindow(pending: seq<Transaction>, network: string, pagination: Option<Pagination>): HistoryWindow {
    var p := if pagination.Some? then pagination.value else FirstPage;
    var selected := SelectNetworkPending(pending, network);
    var limit := if p.limit.Some? then Some(p.limit.value + |selected|) else None;
    HistoryWindow(selected, Pagination(GetExecutedOffset(p.offset, |selected|), limit), p.offset, p.limit)
  }

  function Ids(transactions: seq<Transaction>): set<string> {
    set t | t in transactions :: t.id
  }

  function Without(transactions: seq<Transaction>, ids: set<string>): seq<Transaction> {
    if transactions == [] then []
    else (if transactions[0].id in ids then [] else [transactions[0]]) + Without(transactions[1..], ids)
  }

  /** How many are later than `time`. */
  function CountLater(transactions: seq<Transaction>, time: int): (n: nat)
    ensures n <= |transactions|
  {
    if transactions == [] then 0
    else (if transactions[0].timestamp > time then 1 else 0) + CountLater(transactions[1..], time)
  }

  function MergeHistoryPage(window: HistoryWindow, executed: seq<Transaction>): seq<Transaction> {
    var pending := Without(window.pendingTransactions, Ids(executed));
    var executedOffset := GetExecutedOffset(window.pageOffset, |window.pendingTransactions|);
    if executedOffset == 0 then
      Slice(Merge(executed, pending, CompareByTimestampDesc), window.pageOffset, window.pageLimit)
    else if executed == [] then []
    else
      var ahead := CountLater(pending, executed[0].timestamp);
      WithoutIsShorter(window.pendingTransactions, Ids(executed));
      Slice(Merge(executed, pending[ahead..], CompareByTimestampDesc), window.pageOffset - executedOffset - ahead, window.pageLimit)
  }

  ghost predicate NewestFirst(s: seq<Transaction>) {
    forall i, j :: 0 <= i < j < |s| ==> s[i].timestamp >= s[j].timestamp
  }

  /** The history a page is a page of: all executed, and the pending not among them. */
  function FullHistory(executed: seq<Transaction>, pending: seq<Transaction>): seq<Transaction> {
    Merge(executed, Without(pending, Ids(executed)), CompareByTimestampDesc)
  }

  /** The part of the executed list the source returns for a window. */
  function Fetched(executed: seq<Transaction>, window: HistoryWindow): seq<Transaction> {
    Slice(executed, window.executedPagination.offset, window.executedPagination.limit)
  }

  function HistoryPage(executed: seq<Transaction>, pending: seq<Transaction>, network: string, pagination: Option<Pagination>): seq<Transaction> {
    var window := CreateHistoryWindow(pending, network, pagination);
    MergeHistoryPage(window, Fetched(executed, window))
  }

  // ---- Filtering ----

  lemma {:induction false} WithoutIsShorter(s: seq<Transaction>, ids: set<string>)
    ensures |Without(s, ids)| <= |s|
  {
    if s != [] { WithoutIsShorter(s[1..], ids); }
  }

  lemma {:induction false} WithoutHolds(s: seq<Transaction>, ids: set<string>, t: Transaction)
    ensures t in Without(s, ids) <==> t in s && t.id !in ids
  {
    if s != [] {
      WithoutHolds(s[1..], ids, t);
      assert s == [s[0]] + s[1..];
    }
  }

  lemma {:induction false} WithoutStaysOrdered(s: seq<Transaction>, ids: set<string>)
    requires NewestFirst(s)
    ensures NewestFirst(Without(s, ids))
  {
    if s != [] {
      WithoutStaysOrdered(s[1..], ids);
      var rest := Without(s[1..], ids);
      forall j | 0 <= j < |rest| ensures s[0].timestamp >= rest[j].timestamp {
        WithoutHolds(s[1..], ids, rest[j]);
      }
    }
  }

  lemma {:induction false} WithoutAgrees(s: seq<Transaction>, ids: set<string>, ids': set<string>)
    requires forall t :: t in s ==> (t.id in ids <==> t.id in ids')
    ensures Without(s, ids) == Without(s, ids')
  {
    if s != [] { WithoutAgrees(s[1..], ids, ids'); }
  }

  lemma PendingAreNewestFirst(pending: seq<Transaction>, network: string)
    ensures NewestFirst(SelectNetworkPending(pending, network))
  {
    SortSorts(OnNetwork(pending, network), ByDateDesc);
    var s := SelectNetworkPending(pending, network);
    forall i, j | 0 <= i < j < |s| ensures s[i].timestamp >= s[j].timestamp {
      assert ByDateDesc(s[i]) <= ByDateDesc(s[j]);
    }
  }

  /** In an ordered list the later ones come first. */
  lemma {:induction false} LaterComeFirst(s: seq<Transaction>, time: int)
    requires NewestFirst(s)
    ensures forall t :: t in s[..CountLater(s, time)] ==> t.timestamp > time
    ensures forall t :: t in s[CountLater(s, time)..] ==> t.timestamp <= time
  {
    if s != [] {
      LaterComeFirst(s[1..], time);
      var n := CountLater(s[1..], time);
      if s[0].timestamp > time {
        assert s[..n + 1] == [s[0]] + s[1..][..n] && s[n + 1..] == s[1..][n..];
      } else {
        NoneLater(s, time);
      }
    }
  }

  lemma {:induction false} NoneLater(s: seq<Transaction>, time: int)
    requires NewestFirst(s) && s != [] && s[0].timestamp <= time
    ensures CountLater(s, time) == 0 && forall t :: t in s ==> t.timestamp <= time
  {
    if |s| > 1 { NoneLater(s[1..], time); }
    assert s == [s[0]] + s[1..];
  }

  // ---- Pages ----

  lemma SliceOfPrefix<T>(s: seq<T>, t: seq<T>, offset: nat, limit: nat)
    requires s == t || (offset + limit <= |s| && offset + limit <= |t| && s[..offset + limit] == t[..offset + limit])
    ensures Slice(s, offset, Some(limit)) == Slice(t, offset, Some(limit))
  {
    if s != t {
      assert s[..offset + limit][offset..] == s[offset..offset + limit];
      assert t[..offset + limit][offset..] == t[offset..offset + limit];
    }
  }

  /** Merging a long enough prefix of the executed list gives the same slice. */
  lemma PrefixSuffices(executed: seq<Transaction>, pending: seq<Transaction>, offset: nat, limit: Option<nat>, window: Option<nat>)
    requires limit.Some? <==> window.Some?
    requires limit.Some? ==> offset + limit.value <= window.value
    ensures Slice(Merge(Slice(executed, 0, window), pending, CompareByTimestampDesc), offset, limit)
            == Slice(Merge(executed, pending, CompareByTimestampDesc), offset, limit)
  {
    if limit.Some? && window.value < |executed| {
      MergePrefix(executed, pending, CompareByTimestampDesc, window.value, offset + limit.value);
      SliceOfPrefix(Merge(executed[..window.value], pending, CompareByTimestampDesc),
                    Merge(executed, pending, CompareByTimestampDesc), offset, limit.value);
    } else {
      assert Slice(executed, 0, window) == executed;
    }
  }

  lemma SliceOfSuffix<T>(a: seq<T>, b: seq<T>, offset: nat, limit: Option<nat>)
    requires |a| <= offset
    ensures Slice(a + b, offset, limit) == Slice(b, offset - |a|, limit)
  {}

  lemma SlicesNest<T>(s: seq<T>, offset: nat, limit: Option<nat>)
    requires offset <= |s|
    ensures Slice(s, offset, limit) == Slice(s[offset..], 0, limit)
  {}

  lemma CutOrders(s: seq<Transaction>, start: nat)
    requires NewestFirst(s) && start < |s|
    ensures forall t :: t in s[..start] ==> t.timestamp >= s[start].timestamp
    ensures forall t :: t in s[start..] ==> t.timestamp <= s[start].timestamp
  {}

  /** Cut both lists where the window starts: the pending later than its first
      transaction go before, with the executed ones it skips. */
  lemma WindowSplitsMerge(executed: seq<Transaction>, pending: seq<Transaction>, start: nat)
    requires NewestFirst(executed) && NewestFirst(pending) && start < |executed|
    ensures var ahead := CountLater(pending, executed[start].timestamp);
            Merge(executed, pending, CompareByTimestampDesc)
            == Merge(executed[..start], pending[..ahead], CompareByTimestampDesc)
               + Merge(executed[start..], pending[ahead..], CompareByTimestampDesc)
  {
    hide Merge, CountLater, NewestFirst;
    var time := executed[start].timestamp;
    var ahead := CountLater(pending, time);
    LaterComeFirst(pending, time);
    CutOrders(executed, start);
    assert executed == executed[..start] + executed[start..] && pending == pending[..ahead] + pending[ahead..];
    MergeSplits(executed[..start], executed[start..], pending[..ahead], pending[ahead..], CompareByTimestampDesc);
  }

  /** For any page, the shifted window gives exactly the slice of the whole merge,
      with the pending not seen in the window. */
  lemma PageOfWindow(executed: seq<Transaction>, window: HistoryWindow)
    requires NewestFirst(executed) && NewestFirst(window.pendingTransactions)
    requires var n := |window.pendingTransactions|;
             && window.executedPagination.offset == GetExecutedOffset(window.pageOffset, n)
             && window.executedPagination.limit == (if window.pageLimit.Some? then Some(window.pageLimit.value + n) else None)
    ensures var pending := Without(window.pendingTransactions, Ids(Fetched(executed, window)));
            MergeHistoryPage(window, Fetched(executed, window))
            == Slice(Merge(executed, pending, CompareByTimestampDesc), window.pageOffset, window.pageLimit)
  {
    hide Merge, NewestFirst, CountLater, Without, Ids;
    var fetched := Fetched(executed, window);
    var pending := Without(window.pendingTransactions, Ids(fetched));
    var start := window.executedPagination.offset;
    WithoutIsShorter(window.pendingTransactions, Ids(fetched));
    WithoutStaysOrdered(window.pendingTransactions, Ids(fetched));
    if start == 0 {
      PrefixSuffices(executed, pending, window.pageOffset, window.pageLimit, window.executedPagination.limit);
    } else if start < |executed| {
      PageOfShiftedWindow(executed, window, pending);
    } else {
      MergeLength(executed, pending, CompareByTimestampDesc);
    }
  }

  lemma PageOfShiftedWindow(executed: seq<Transaction>, window: HistoryWindow, pending: seq<Transaction>)
    requires NewestFirst(executed) && NewestFirst(pending) && |pending| <= |window.pendingTransactions| < window.pageOffset
    requires var n := |window.pendingTransactions|;
             && window.executedPagination.offset == window.pageOffset - n < |executed|
             && window.executedPagination.limit == (if window.pageLimit.Some? then Some(window.pageLimit.value + n) else None)
    requires pending == Without(window.pendingTransactions, Ids(Fetched(executed, window)))
    ensures MergeHistoryPage(window, Fetched(executed, window))
            == Slice(Merge(executed, pending, CompareByTimestampDesc), window.pageOffset, window.pageLimit)
  {
    hide Merge, CountLater, Slice, NewestFirst, Without, MergeHistoryPage, Ids;
    var start := window.executedPagination.offset;
    var ahead := CountLater(pending, executed[start].timestamp);
    SliceHead(executed, start, window.executedPagination.limit);
    FetchedPage(window, Fetched(executed, window), pending, executed[start], ahead);
    ShiftedSlice(executed, pending, start, ahead, |window.pendingTransactions|, window.pageLimit, window.executedPagination.limit);
  }

  /** `n` transactions past its start, the window has what the page needs. */
  lemma ShiftedSlice(executed: seq<Transaction>, pending: seq<Transaction>, start: nat, ahead: nat, n: nat, limit: Option<nat>, window: Option<nat>)
    requires NewestFirst(executed) && NewestFirst(pending) && start < |executed| && |pending| <= n
    requires ahead == CountLater(pending, executed[start].timestamp)
    requires window == if limit.Some? then Some(limit.value + n) else None
    ensures Slice(Merge(Slice(executed, start, window), pending[ahead..], CompareByTimestampDesc), n - ahead, limit)
            == Slice(Merge(executed, pending, CompareByTimestampDesc), start + n, limit)
  {
    hide NewestFirst, Merge, Slice, CountLater;
    SliceAfterStart(executed, pending, start, ahead, start + n, limit);
    SlicesNest(executed, start, window);
    PrefixSuffices(executed[start..], pending[ahead..], n - ahead, limit, window);
  }

  lemma SliceHead<T>(s: seq<T>, offset: nat, limit: Option<nat>)
    requires offset < |s|
    ensures if limit == Some(0) then Slice(s, offset, limit) == []
            else Slice(s, offset, limit) != [] && Slice(s, offset, limit)[0] == s[offset]
  {}

  lemma SliceAfterStart(executed: seq<Transaction>, pending: seq<Transaction>, start: nat, ahead: nat, offset: nat, limit: Option<nat>)
    requires NewestFirst(executed) && NewestFirst(pending) && start < |executed| && start + |pending| <= offset
    requires ahead == CountLater(pending, executed[start].timestamp)
    ensures Slice(Merge(executed, pending, CompareByTimestampDesc), offset, limit)
            == Slice(Merge(executed[start..], pending[ahead..], CompareByTimestampDesc), offset - start - ahead, limit)
  {
    hide Merge, CountLater, Slice, NewestFirst;
    var before := Merge(executed[..start], pending[..ahead], CompareByTimestampDesc);
    var after := Merge(executed[start..], pending[ahead..], CompareByTimestampDesc);
    WindowSplitsMerge(executed, pending, start);
    MergeLength(executed[..start], pending[..ahead], CompareByTimestampDesc);
    SliceOfSuffix(before, after, offset, limit);
  }

  /** A page of a shifted window, by the time its first transaction has, or would
      have if the window is empty because no transaction is asked for. */
  lemma FetchedPage(window: HistoryWindow, fetched: seq<Transaction>, pending: seq<Transaction>, first: Transaction, ahead: nat)
    requires |pending| <= |window.pendingTransactions| < window.pageOffset
    requires pending == Without(window.pendingTransactions, Ids(fetched)) && ahead == CountLater(pending, first.timestamp)
    requires if fetched != [] then fetched[0] == first else window.pageLimit == Some(0)
    ensures MergeHistoryPage(window, fetched)
            == Slice(Merge(fetched, pending[ahead..], CompareByTimestampDesc), |window.pendingTransactions| - ahead, window.pageLimit)
  {
    hide Merge, CountLater, Without;
  }

  /** No pending transaction is among the executed ones outside the fetched window. */
  ghost predicate SeenInWindow(executed: seq<Transaction>, window: HistoryWindow) {
    forall t, e :: t in window.pendingTransactions && e in executed && e.id == t.id ==> e.id in Ids(Fetched(executed, window))
  }

  /** A page is the slice of the full history, whatever the pending list, offset and
      limit, when no pending id is executed outside the window. */
  lemma PageIsSlice(executed: seq<Transaction>, pending: seq<Transaction>, network: string, pagination: Option<Pagination>)
    requires NewestFirst(executed) && SeenInWindow(executed, CreateHistoryWindow(pending, network, pagination))
    ensures var p := if pagination.Some? then pagination.value else FirstPage;
            HistoryPage(executed, pending, network, pagination)
            == Slice(FullHistory(executed, SelectNetworkPending(pending, network)), p.offset, p.limit)
  {
    var window := CreateHistoryWindow(pending, network, pagination);
    var fetched := Fetched(executed, window);
    PendingAreNewestFirst(pending, network);
    PageOfWindow(executed, window);
    forall t | t in window.pendingTransactions ensures t.id in Ids(fetched) <==> t.id in Ids(executed) {
      assert forall e :: e in fetched ==> e in executed;
      assert forall e :: e in executed && e.id == t.id ==> e.id in Ids(fetched);
    }
    WithoutAgrees(window.pendingTransactions, Ids(fetched), Ids(executed));
  }

  /** With nothing executed a history page is the page of the pending list alone. */
  lemma PendingPageIsHistoryPage(pending: seq<Transaction>, network: string, pagination: Option<Pagination>)
    ensures HistoryPage([], pending, network, pagination) == PaginatePendingTransactions(pending, network, pagination)
  {
    PageIsSlice([], pending, network, pagination);
    WithoutNone(SelectNetworkPending(pending, network), {});
    assert Ids([]) == {};
    hide HistoryPage, Slice;
  }

  /** Without the condition it fails: the pending copy of a transaction executed
      further down is shown as pending, and pushes the newest executed one out. */
  lemma UnseenPendingIsShown(e0: Transaction, e1: Transaction, e2: Transaction, p: Transaction)
    requires e0 == Transaction("a", "n", 9) && e1 == Transaction("b", "n", 8) && e2 == Transaction("c", "n", 7)
    requires p == Transaction("c", "n", 10)
    ensures HistoryPage([e0, e1, e2], [p], "n", Some(Pagination(0, Some(1)))) == [p]
    ensures Slice(FullHistory([e0, e1, e2], [p]), 0, Some(1)) == [e0]
  {
    var fetched := [e0, e1];
    assert [p][1..] == [] && OnNetwork([p], "n") == [p];
    SortOfSorted([p], ByDateDesc);
    assert SelectNetworkPending([p], "n") == [p];
    assert Fetched([e0, e1, e2], CreateHistoryWindow([p], "n", Some(Pagination(0, Some(1))))) == fetched;
    assert "c" !in Ids(fetched);
    assert e2 in [e0, e1, e2] && "c" in Ids([e0, e1, e2]);
    assert Without([p], Ids(fetched)) == [p] && Without([p], Ids([e0, e1, e2])) == [];
    assert [e0, e1, e2] != [] && Merge([e0, e1, e2], [], CompareByTimestampDesc) == [e0, e1, e2];
  }

  // ---- When a page differs from the history ----

  ghost predicate DistinctIds(s: seq<Transaction>) {
    forall i, j :: 0 <= i < j < |s| ==> s[i].id != s[j].id
  }

  /** The pending transaction at `j` is executed, though the window did not show it,
      and it is merged before the end of the page: after the pending ones before it
      and the executed ones no earlier than it. */
  ghost predicate ShownTooSoon(executed: seq<Transaction>, pending: seq<Transaction>, j: nat, p: Pagination) {
    j < |pending| && pending[j].id in Ids(executed)
    && (p.limit.Some? ==> j + CountLater(executed, pending[j].timestamp - 1) < p.offset + p.limit.value)
  }

  lemma WithoutUnfolds(s: seq<Transaction>, ids: set<string>)
    ensures s == [] ==> Without(s, ids) == []
    ensures s != [] && s[0].id in ids ==> Without(s, ids) == Without(s[1..], ids)
    ensures s != [] && s[0].id !in ids ==> Without(s, ids) == [s[0]] + Without(s[1..], ids)
  {}

  lemma {:induction false} WithoutSplits(a: seq<Transaction>, b: seq<Transaction>, ids: set<string>)
    ensures Without(a + b, ids) == Without(a, ids) + Without(b, ids)
  {
    hide Without;
    if a == [] {
      assert a + b == b && Without(a, ids) == [] by { WithoutUnfolds(a, ids); }
    } else {
      WithoutSplits(a[1..], b, ids);
      assert (a + b)[1..] == a[1..] + b;
      WithoutUnfolds(a, ids);
      WithoutUnfolds(a + b, ids);
    }
  }

  lemma {:induction false} LaterGrows(s: seq<Transaction>, time: int, time': int)
    requires time >= time'
    ensures CountLater(s, time) <= CountLater(s, time')
  {
    if s != [] { LaterGrows(s[1..], time, time'); }
  }

  lemma {:induction false} FirstIn(s: seq<Transaction>, ids: set<string>, k: nat) returns (j: nat)
    requires k < |s| && s[k].id in ids
    ensures j <= k && s[j].id in ids && forall i :: 0 <= i < j ==> s[i].id !in ids
  {
    if s[0].id in ids {
      j := 0;
    } else {
      j := FirstIn(s[1..], ids, k - 1);
      j := j + 1;
    }
  }

  /** Both merges agree up to the first pending transaction that should not show. */
  lemma CutAtUnseen(executed: seq<Transaction>, pending: seq<Transaction>, j: nat)
    requires NewestFirst(executed) && NewestFirst(pending) && j < |pending| && pending[j].id in Ids(executed)
    requires forall i :: 0 <= i < j ==> pending[i].id !in Ids(executed)
    ensures var n := CountLater(executed, pending[j].timestamp - 1);
            var before := Merge(executed[..n], pending[..j], CompareByTimestampDesc);
            && |before| == j + n
            && Merge(executed, pending, CompareByTimestampDesc)
               == before + ([pending[j]] + Merge(executed[n..], pending[j + 1..], CompareByTimestampDesc))
            && FullHistory(executed, pending)
               == before + Merge(executed[n..], Without(pending[j + 1..], Ids(executed)), CompareByTimestampDesc)
            && forall e :: e in executed[n..] ==> e.timestamp < pending[j].timestamp
  {
    hide Merge, Without, CountLater;
    var ids, n := Ids(executed), CountLater(executed, pending[j].timestamp - 1);
    var rest := Without(pending[j + 1..], ids);
    LaterComeFirst(executed, pending[j].timestamp - 1);
    MergeLength(executed[..n], pending[..j], CompareByTimestampDesc);
    assert executed == executed[..n] + executed[n..] && pending == pending[..j] + pending[j..];
    MergeSplits(executed[..n], executed[n..], pending[..j], pending[j..], CompareByTimestampDesc);
    SecondaryFirst(executed[n..], pending[j..], CompareByTimestampDesc);
    assert pending[j..][1..] == pending[j + 1..];
    WithoutSplits(pending[..j], pending[j..], ids);
    WithoutNone(pending[..j], ids);
    WithoutUnfolds(pending[j..], ids);
    assert Without(pending, ids) == pending[..j] + rest;
    forall t | t in rest ensures t in pending[j + 1..] { WithoutHolds(pending[j + 1..], ids, t); }
    MergeSplits(executed[..n], executed[n..], pending[..j], rest, CompareByTimestampDesc);
  }

  lemma MergeHolds(a: seq<Transaction>, b: seq<Transaction>, k: nat)
    requires k < |Merge(a, b, CompareByTimestampDesc)|
    ensures Merge(a, b, CompareByTimestampDesc)[k] in a || Merge(a, b, CompareByTimestampDesc)[k] in b
  {
    MergeKeepsAll(a, b, CompareByTimestampDesc);
    var t := Merge(a, b, CompareByTimestampDesc)[k];
    assert t in multiset(Merge(a, b, CompareByTimestampDesc));
  }

  lemma LeftOver(pending: seq<Transaction>, ids: set<string>)
    requires NewestFirst(pending)
    ensures NewestFirst(Without(pending, ids))
    ensures forall t :: t in Without(pending, ids) ==> t in pending && t.id !in ids
  {
    WithoutStaysOrdered(pending, ids);
    forall t | t in Without(pending, ids) ensures t in pending && t.id !in ids { WithoutHolds(pending, ids, t); }
  }

  ghost predicate Apart(s: seq<Transaction>, t: seq<Transaction>, i: nat, m: nat) {
    i < |s| && i < m < |t| ==> s[i] != t[m]
  }

  /** Leaving executed ones out of the pending list moves what is left forward only,
      and never onto its own copy. */
  lemma {:induction false} NoneRepeats(executed: seq<Transaction>, pending: seq<Transaction>, ids: set<string>, i: nat, m: nat)
    requires NewestFirst(executed) && NewestFirst(pending) && DistinctIds(executed) && DistinctIds(pending)
    requires Ids(executed) <= ids
    ensures Apart(Merge(executed, pending, CompareByTimestampDesc), Merge(executed, Without(pending, ids), CompareByTimestampDesc), i, m)
    decreases |executed| + |pending|
  {
    hide Merge, Without;
    var left := Without(pending, ids);
    if pending == [] {
      WithoutUnfolds(pending, ids);
      MergeWithNone(executed, CompareByTimestampDesc);
    } else if executed != [] && executed[0].timestamp >= pending[0].timestamp {
      LeftOver(pending, ids);
      PrimaryFirst(executed, pending, CompareByTimestampDesc);
      PrimaryFirst(executed, left, CompareByTimestampDesc);
      if 0 < i < m {
        NoneRepeats(executed[1..], pending, ids, i - 1, m - 1);
      } else if 0 == i < m < |Merge(executed, left, CompareByTimestampDesc)| {
        assert executed[0].id in ids;
        MergeHolds(executed[1..], left, m - 1);
      }
    } else {
      if i > 0 { NoneRepeats(executed, pending[1..], ids, i - 1, if pending[0].id in ids || m == 0 then m else m - 1); }
      PendingFirst(executed, pending, ids, i, m);
    }
  }

  lemma PendingFirst(executed: seq<Transaction>, pending: seq<Transaction>, ids: set<string>, i: nat, m: nat)
    requires NewestFirst(executed) && NewestFirst(pending) && DistinctIds(pending) && Ids(executed) <= ids
    requires pending != [] && (executed != [] ==> executed[0].timestamp < pending[0].timestamp)
    requires i > 0 ==> Apart(Merge(executed, pending[1..], CompareByTimestampDesc),
                             Merge(executed, Without(pending[1..], ids), CompareByTimestampDesc),
                             i - 1, if pending[0].id in ids || m == 0 then m else m - 1)
    ensures Apart(Merge(executed, pending, CompareByTimestampDesc), Merge(executed, Without(pending, ids), CompareByTimestampDesc), i, m)
  {
    hide Merge, Without;
    var rest := Without(pending[1..], ids);
    WithoutUnfolds(pending, ids);
    SecondaryFirst(executed, pending, CompareByTimestampDesc);
    if pending[0].id !in ids { SecondaryFirst(executed, [pending[0]] + rest, CompareByTimestampDesc); }
    var at := if pending[0].id in ids || m == 0 then m else m - 1;
    if at < |Merge(executed, rest, CompareByTimestampDesc)| { FirstIsAway(executed, pending, ids, at); }
    hide NewestFirst, DistinctIds, Ids;
  }

  /** A pending transaction later than all executed ones is not among what is left
      behind it. */
  lemma FirstIsAway(executed: seq<Transaction>, pending: seq<Transaction>, ids: set<string>, at: nat)
    requires NewestFirst(executed) && NewestFirst(pending) && DistinctIds(pending)
    requires pending != [] && (executed != [] ==> executed[0].timestamp < pending[0].timestamp)
    requires at < |Merge(executed, Without(pending[1..], ids), CompareByTimestampDesc)|
    ensures Merge(executed, Without(pending[1..], ids), CompareByTimestampDesc)[at] != pending[0]
  {
    hide Merge, Without;
    LeftOver(pending[1..], ids);
    MergeHolds(executed, Without(pending[1..], ids), at);
  }

  lemma PagesDiffer(before: seq<Transaction>, u: Transaction, s: seq<Transaction>, t: seq<Transaction>, p: Pagination)
    requires u !in t && forall i, m :: 0 <= i < m < |t| && i < |s| ==> s[i] != t[m]
    requires p.limit.Some? ==> |before| < p.offset + p.limit.value && p.limit.value > 0
    requires p.offset < |before| + 1 + |s|
    ensures Slice(before + ([u] + s), p.offset, p.limit) != Slice(before + t, p.offset, p.limit)
  {
    hide Slice;
    var x := if p.offset < |before| then |before| else p.offset;
    var one, other := before + ([u] + s), before + t;
    SliceAt(one, p, x);
    SliceAt(other, p, x);
    if x < |other| {
      var k := x - |before|;
      assert other[x] == t[k] && one[x] == if k == 0 then u else s[k - 1];
    }
  }

  lemma SliceAt(s: seq<Transaction>, p: Pagination, x: nat)
    requires p.offset <= x && (p.limit.Some? ==> x < p.offset + p.limit.value)
    ensures x - p.offset < |Slice(s, p.offset, p.limit)| <==> x < |s|
    ensures x < |s| ==> Slice(s, p.offset, p.limit)[x - p.offset] == s[x]
  {}

  lemma MergePagesDifferIff(executed: seq<Transaction>, pending: seq<Transaction>, p: Pagination)
    requires NewestFirst(executed) && NewestFirst(pending) && DistinctIds(executed) && DistinctIds(pending)
    ensures Slice(Merge(executed, pending, CompareByTimestampDesc), p.offset, p.limit)
            != Slice(FullHistory(executed, pending), p.offset, p.limit)
            <==> p.offset < |executed| + |pending| && p.limit != Some(0) && exists j: nat :: ShownTooSoon(executed, pending, j, p)
  {
    hide Merge, Without, CountLater, NewestFirst, DistinctIds, Slice, FullHistory;
    var ids := Ids(executed);
    if k: nat :| k < |pending| && pending[k].id in ids {
      var j := FirstIn(pending, ids, k);
      CutAtUnseen(executed, pending, j);
      PagesDifferAt(executed, pending, j, p);
      if k': nat :| ShownTooSoon(executed, pending, k', p) {
        TooSoonAtFirst(executed, pending, j, k', p);
      }
    } else {
      assert forall t :: t in pending ==> t.id !in ids;
      WithoutNone(pending, ids);
      assert FullHistory(executed, pending) == Merge(executed, pending, CompareByTimestampDesc) by { HistoryOfUnexecuted(executed, pending); }
    }
  }

  lemma HistoryOfUnexecuted(executed: seq<Transaction>, pending: seq<Transaction>)
    requires Without(pending, Ids(executed)) == pending
    ensures FullHistory(executed, pending) == Merge(executed, pending, CompareByTimestampDesc)
  {}

  lemma TooSoonAtFirst(executed: seq<Transaction>, pending: seq<Transaction>, j: nat, k: nat, p: Pagination)
    requires NewestFirst(pending) && ShownTooSoon(executed, pending, k, p) && j < |pending| && pending[j].id in Ids(executed)
    requires forall i :: 0 <= i < j ==> pending[i].id !in Ids(executed)
    ensures ShownTooSoon(executed, pending, j, p)
  {
    assert j <= k;
    LaterGrows(executed, pending[j].timestamp - 1, pending[k].timestamp - 1);
  }

  lemma MeantDiffers(executed: seq<Transaction>, pending: seq<Transaction>, j: nat, n: nat)
    requires NewestFirst(executed) && NewestFirst(pending) && DistinctIds(executed) && DistinctIds(pending)
    requires j < |pending| && pending[j].id in Ids(executed) && n <= |executed|
    requires forall e :: e in executed[n..] ==> e.timestamp < pending[j].timestamp
    ensures var shown := Merge(executed[n..], pending[j + 1..], CompareByTimestampDesc);
            var meant := Merge(executed[n..], Without(pending[j + 1..], Ids(executed)), CompareByTimestampDesc);
            pending[j] !in meant && forall i, m :: 0 <= i < m < |meant| && i < |shown| ==> shown[i] != meant[m]
  {
    hide Merge, Without;
    var ids, rest := Ids(executed), Without(pending[j + 1..], Ids(executed));
    var shown := Merge(executed[n..], pending[j + 1..], CompareByTimestampDesc);
    var meant := Merge(executed[n..], rest, CompareByTimestampDesc);
    assert Ids(executed[n..]) <= ids;
    forall i, m | 0 <= i < m < |meant| && i < |shown| ensures shown[i] != meant[m] {
      NoneRepeats(executed[n..], pending[j + 1..], ids, i, m);
    }
    LeftOver(pending[j + 1..], ids);
    forall m | 0 <= m < |meant| ensures meant[m] != pending[j] {
      MergeHolds(executed[n..], rest, m);
    }
  }

  lemma PagesDifferAt(executed: seq<Transaction>, pending: seq<Transaction>, j: nat, p: Pagination)
    requires NewestFirst(executed) && NewestFirst(pending) && DistinctIds(executed) && DistinctIds(pending)
    requires j < |pending| && pending[j].id in Ids(executed) && forall i :: 0 <= i < j ==> pending[i].id !in Ids(executed)
    ensures Slice(Merge(executed, pending, CompareByTimestampDesc), p.offset, p.limit)
            != Slice(FullHistory(executed, pending), p.offset, p.limit)
            <==> p.offset < |executed| + |pending| && p.limit != Some(0) && ShownTooSoon(executed, pending, j, p)
  {
    hide Merge, Without, CountLater, NewestFirst, DistinctIds, Slice, Ids;
    var ids, n := Ids(executed), CountLater(executed, pending[j].timestamp - 1);
    CutAtUnseen(executed, pending, j);
    MergeLength(executed, pending, CompareByTimestampDesc);
    var before := Merge(executed[..n], pending[..j], CompareByTimestampDesc);
    var shown := Merge(executed[n..], pending[j + 1..], CompareByTimestampDesc);
    var meant := Merge(executed[n..], Without(pending[j + 1..], ids), CompareByTimestampDesc);
    if p.offset < |executed| + |pending| && p.limit != Some(0) && ShownTooSoon(executed, pending, j, p) {
      MeantDiffers(executed, pending, j, n);
      PagesDiffer(before, pending[j], shown, meant, p);
    } else {
      MergeLength(executed, Without(pending, ids), CompareByTimestampDesc);
      WithoutIsShorter(pending, ids);
      SamePages(before, [pending[j]] + shown, meant, p);
    }
  }

  lemma SamePages(before: seq<Transaction>, s: seq<Transaction>, t: seq<Transaction>, p: Pagination)
    requires p.limit == Some(0) || p.offset >= |before + s| >= |before + t|
             || (p.limit.Some? && p.offset + p.limit.value <= |before|)
    ensures Slice(before + s, p.offset, p.limit) == Slice(before + t, p.offset, p.limit)
  {
    if p.limit.Some? && p.offset + p.limit.value <= |before| {
      var end := p.offset + p.limit.value;
      assert (before + s)[..end] == before[..end] && (before + t)[..end] == before[..end];
      SliceOfPrefix(before + s, before + t, p.offset, p.limit.value);
    } else {
      EmptySlice(before + s, p);
      EmptySlice(before + t, p);
    }
  }

  lemma EmptySlice(s: seq<Transaction>, p: Pagination)
    requires p.limit == Some(0) || p.offset >= |s|
    ensures Slice(s, p.offset, p.limit) == []
  {}

  lemma {:induction false} WithoutBoth(s: seq<Transaction>, ids: set<string>, ids': set<string>)
    requires ids <= ids'
    ensures Without(Without(s, ids), ids') == Without(s, ids')
  {
    hide Without;
    WithoutUnfolds(s, ids);
    WithoutUnfolds(s, ids');
    if s == [] {
      WithoutUnfolds([], ids');
    } else {
      WithoutBoth(s[1..], ids, ids');
      if s[0].id !in ids { WithoutUnfolds([s[0]] + Without(s[1..], ids), ids'); }
    }
  }

  lemma {:induction false} WithoutStaysDistinct(s: seq<Transaction>, ids: set<string>)
    requires DistinctIds(s)
    ensures DistinctIds(Without(s, ids))
  {
    if s != [] {
      WithoutStaysDistinct(s[1..], ids);
      var rest := Without(s[1..], ids);
      forall k | 0 <= k < |rest| ensures rest[k].id != s[0].id { WithoutHolds(s[1..], ids, rest[k]); }
      Prepended(s[0], rest);
    }
  }

  lemma Prepended(t: Transaction, rest: seq<Transaction>)
    requires DistinctIds(rest) && forall k :: 0 <= k < |rest| ==> rest[k].id != t.id
    ensures DistinctIds([t] + rest) && DistinctIds([] + rest)
  {
    assert [] + rest == rest;
  }

  lemma {:induction false} OnNetworkStaysDistinct(s: seq<Transaction>, network: string)
    requires DistinctIds(s)
    ensures DistinctIds(OnNetwork(s, network))
  {
    if s != [] {
      OnNetworkStaysDistinct(s[1..], network);
      var rest := OnNetwork(s[1..], network);
      forall k | 0 <= k < |rest| ensures rest[k].id != s[0].id { OnNetworkHolds(s[1..], network, rest[k]); }
      Prepended(s[0], rest);
    }
  }

  lemma SelectedAreDistinct(pending: seq<Transaction>, network: string)
    requires DistinctIds(pending)
    ensures DistinctIds(SelectNetworkPending(pending, network))
  {
    var s, t := OnNetwork(pending, network), SelectNetworkPending(pending, network);
    OnNetworkStaysDistinct(pending, network);
    SortSorts(s, ByDateDesc);
    forall i, j | 0 <= i < j < |t| ensures t[i].id != t[j].id {
      if t[i].id == t[j].id {
        assert t[i] in multiset(s) && t[j] in multiset(s);
        CountedTwice(t, i, j);
        CountedOnce(s, t[i]);
      }
    }
  }

  lemma CountedTwice(s: seq<Transaction>, i: nat, j: nat)
    requires i < j < |s| && s[i] == s[j]
    ensures multiset(s)[s[i]] >= 2
  {
    assert s == s[..j] + s[j..];
    assert s[i] in s[..j] && s[i] in s[j..];
    assert multiset(s) == multiset(s[..j]) + multiset(s[j..]);
  }

  lemma {:induction false} CountedOnce(s: seq<Transaction>, t: Transaction)
    requires DistinctIds(s)
    ensures multiset(s)[t] <= 1
  {
    if s != [] {
      CountedOnce(s[1..], t);
      assert s == [s[0]] + s[1..];
      assert s[0] !in s[1..];
    }
  }

  /** With distinct ids, a page of an ordered history differs from the slice it should
      be exactly when it is not empty and some pending transaction, executed outside
      the window, is shown too soon. */
  lemma PageDiffersIff(executed: seq<Transaction>, pending: seq<Transaction>, network: string, pagination: Option<Pagination>)
    requires NewestFirst(executed) && DistinctIds(executed) && DistinctIds(pending)
    ensures var p := if pagination.Some? then pagination.value else FirstPage;
            var selected := SelectNetworkPending(pending, network);
            var shown := Without(selected, Ids(Fetched(executed, CreateHistoryWindow(pending, network, pagination))));
            HistoryPage(executed, pending, network, pagination) != Slice(FullHistory(executed, selected), p.offset, p.limit)
            <==> p.limit != Some(0) && p.offset < |executed| + |shown| && exists j: nat :: ShownTooSoon(executed, shown, j, p)
  {
    hide NewestFirst, DistinctIds, Merge, Without, SelectNetworkPending, MergeHistoryPage, ShownTooSoon;
    var p := if pagination.Some? then pagination.value else FirstPage;
    var window := CreateHistoryWindow(pending, network, pagination);
    var fetched := Fetched(executed, window);
    var shown := Without(window.pendingTransactions, Ids(fetched));
    PendingAreNewestFirst(pending, network);
    PageOfWindow(executed, window);
    SelectedAreDistinct(pending, network);
    WithoutStaysDistinct(window.pendingTransactions, Ids(fetched));
    WithoutStaysOrdered(window.pendingTransactions, Ids(fetched));
    assert forall e :: e in fetched ==> e in executed;
    WithoutBoth(window.pendingTransactions, Ids(fetched), Ids(executed));
    MergePagesDifferIff(executed, shown, p);
  }

  // ---- All pages together ----

  function PageStart(page: nat, limit: nat): nat { page * limit }

  /** The first `count` pages of `limit` each, one after the other. */
  function Pages(executed: seq<Transaction>, pending: seq<Transaction>, network: string, limit: nat, count: nat): seq<Transaction> {
    if count == 0 then []
    else Pages(executed, pending, network, limit, count - 1)
         + HistoryPage(executed, pending, network, Some(Pagination(PageStart(count - 1, limit), Some(limit))))
  }

  ghost predicate DisjointIds(executed: seq<Transaction>, pending: seq<Transaction>) {
    forall e, p :: e in executed && p in pending ==> e.id != p.id
  }

  lemma {:induction false} OnNetworkHolds(s: seq<Transaction>, network: string, t: Transaction)
    ensures t in OnNetwork(s, network) <==> t in s && t.networkId == network
  {
    if s != [] {
      OnNetworkHolds(s[1..], network, t);
      assert s == [s[0]] + s[1..];
    }
  }

  lemma SelectedArePending(pending: seq<Transaction>, network: string, t: Transaction)
    ensures t in SelectNetworkPending(pending, network) <==> t in pending && t.networkId == network
  {
    SortSorts(OnNetwork(pending, network), ByDateDesc);
    OnNetworkHolds(pending, network, t);
    assert t in multiset(SelectNetworkPending(pending, network)) <==> t in multiset(OnNetwork(pending, network));
  }

  lemma {:induction false} WithoutNone(s: seq<Transaction>, ids: set<string>)
    requires forall t :: t in s ==> t.id !in ids
    ensures Without(s, ids) == s
  {
    if s != [] {
      WithoutNone(s[1..], ids);
      assert s == [s[0]] + s[1..];
    }
  }

  lemma {:induction false} MergeStaysOrdered(a: seq<Transaction>, b: seq<Transaction>)
    requires NewestFirst(a) && NewestFirst(b)
    ensures NewestFirst(Merge(a, b, CompareByTimestampDesc))
  {
    if a != [] && b != [] {
      var firstWins := CompareByTimestampDesc(a[0], b[0]) <= 0;
      var head := if firstWins then a[0] else b[0];
      var rest := if firstWins then Merge(a[1..], b, CompareByTimestampDesc) else Merge(a, b[1..], CompareByTimestampDesc);
      if firstWins {
        MergeStaysOrdered(a[1..], b);
        MergeKeepsAll(a[1..], b, CompareByTimestampDesc);
      } else {
        MergeStaysOrdered(a, b[1..]);
        MergeKeepsAll(a, b[1..], CompareByTimestampDesc);
      }
      HeadIsNewest(a, b, firstWins, rest);
    }
  }

  lemma HeadIsNewest(a: seq<Transaction>, b: seq<Transaction>, firstWins: bool, rest: seq<Transaction>)
    requires NewestFirst(a) && NewestFirst(b) && a != [] && b != [] && firstWins == (a[0].timestamp >= b[0].timestamp)
    requires NewestFirst(rest)
    requires multiset(rest) == if firstWins then multiset(a[1..]) + multiset(b) else multiset(a) + multiset(b[1..])
    ensures NewestFirst([if firstWins then a[0] else b[0]] + rest)
  {
    forall j | 0 <= j < |rest| ensures (if firstWins then a[0] else b[0]).timestamp >= rest[j].timestamp {
      assert rest[j] in multiset(rest);
      assert rest[j] in a || rest[j] in b;
    }
  }

  lemma {:induction false} PagesArePrefix(executed: seq<Transaction>, pending: seq<Transaction>, network: string, limit: nat, count: nat)
    requires NewestFirst(executed) && DisjointIds(executed, pending)
    ensures Pages(executed, pending, network, limit, count)
            == Slice(FullHistory(executed, SelectNetworkPending(pending, network)), 0, Some(PageStart(count, limit)))
  {
    hide HistoryPage, FullHistory, SelectNetworkPending, NewestFirst, DisjointIds, SeenInWindow, PageStart;
    var full := FullHistory(executed, SelectNetworkPending(pending, network));
    if count > 0 {
      hide Slice;
      var offset := PageStart(count - 1, limit);
      PagesArePrefix(executed, pending, network, limit, count - 1);
      DisjointAreSeen(executed, pending, network, Some(Pagination(offset, Some(limit))));
      PageIsSlice(executed, pending, network, Some(Pagination(offset, Some(limit))));
      SlicesJoin(full, offset, limit);
      NextOffset(count, limit);
    } else {
      NoPages(full, limit);
    }
  }

  lemma NoPages<T>(s: seq<T>, limit: nat)
    ensures Slice(s, 0, Some(PageStart(0, limit))) == []
  {}

  lemma SlicesJoin<T>(s: seq<T>, offset: nat, limit: nat)
    ensures Slice(s, 0, Some(offset)) + Slice(s, offset, Some(limit)) == Slice(s, 0, Some(offset + limit))
  {}

  lemma NextOffset(count: nat, limit: nat)
    requires count > 0
    ensures PageStart(count, limit) == PageStart(count - 1, limit) + limit
  {}

  lemma MorePages(count: nat, c: nat, limit: nat)
    requires c >= count
    ensures PageStart(c, limit) >= PageStart(count, limit)
  {}

  lemma DisjointAreSeen(executed: seq<Transaction>, pending: seq<Transaction>, network: string, pagination: Option<Pagination>)
    requires DisjointIds(executed, pending)
    ensures SeenInWindow(executed, CreateHistoryWindow(pending, network, pagination))
  {
    forall t | t in SelectNetworkPending(pending, network) ensures t in pending { SelectedArePending(pending, network, t); }
  }

  /** With ids disjoint and any positive limit, the pages up to past the end are the
      whole history: every executed transaction and every pending one of the
      network exactly once, newest first. */
  lemma PagesAreTheHistory(executed: seq<Transaction>, pending: seq<Transaction>, network: string, limit: nat, count: nat)
    requires NewestFirst(executed) && DisjointIds(executed, pending)
    requires PageStart(count, limit) >= |executed| + |SelectNetworkPending(pending, network)|
    ensures var all := Pages(executed, pending, network, limit, count);
            && multiset(all) == multiset(executed) + multiset(OnNetwork(pending, network))
            && NewestFirst(all)
            && (forall c: nat | c >= count :: Pages(executed, pending, network, limit, c) == all)
  {
    var selected := SelectNetworkPending(pending, network);
    var full := FullHistory(executed, selected);
    forall t | t in selected ensures t.id !in Ids(executed) { SelectedArePending(pending, network, t); }
    WithoutNone(selected, Ids(executed));
    MergeKeepsAll(executed, selected, CompareByTimestampDesc);
    SortSorts(OnNetwork(pending, network), ByDateDesc);
    PendingAreNewestFirst(pending, network);
    MergeStaysOrdered(executed, selected);
    PagesArePrefix(executed, pending, network, limit, count);
    hide Pages, FullHistory, SelectNetworkPending, NewestFirst, Merge, PageStart;
    forall c: nat | c >= count ensures Pages(executed, pending, network, limit, c) == full {
      PagesArePrefix(executed, pending, network, limit, c);
      MorePages(count, c, limit);
    }
  }
}
