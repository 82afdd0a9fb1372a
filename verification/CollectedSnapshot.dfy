/** The scan against a provider list, newest first, that grows at the front between page requests:
    pages shift and repeat items, and no item of the first list is ever missed. */
module CollectedSnapshot {
  import opened Basics
  import opened CollectedScan
  import D = Decimal

  /** The widened window asked of the provider, in seconds. */
  datatype Window = Window(from: Option<int>, to: int)

  function ProviderWindow(r: Range): Window {
    Window(if r.from.Some? then Some(Max(0, r.from.value / 1000 - 1)) else None, 0 - (0 - r.to) / 1000 + 1)
  }

  predicate InWindow(p: Payment, w: Window) {
    (w.from.Some? ==> w.from.value <= p.createdAt) && p.createdAt <= w.to
  }

  /** The provider window holds a payment of the range exactly unless the range has a start and the
      payment is dated before the epoch, since the window's start is clamped at 0. */
  lemma WindowHoldsRange(p: Payment, r: Range)
    requires InRange(p, r)
    ensures InWindow(p, ProviderWindow(r)) <==> r.from.None? || p.createdAt >= 0
  {
  }

  /** A payment of 57 seconds before the epoch, in a range of the minute before it: relevant, and never
      shown to the scan. */
  lemma EarlyPaymentIsLost()
    ensures var r := Range(Some(-60_000), 0); var p := Payment("pay", 100, "INR", true, -57);
      && InRange(p, r) && PlainSum([p], r, One) == 1
      && InWindowOnly([p], ProviderWindow(r)) == [] && ProviderPage(InWindowOnly([p], ProviderWindow(r)), 0) == []
  {
    var p := Payment("pay", 100, "INR", true, -57);
    assert [p][..0] == [];
  }

  function InWindowOnly(list: seq<Payment>, w: Window): seq<Payment> {
    if list == [] then []
    else InWindowOnly(list[..|list| - 1], w) + if InWindow(list[|list| - 1], w) then [list[|list| - 1]] else []
  }

  /** The slice of the window that a page request with `skip = k * PAGE_SIZE` gets. */
  function ProviderPage(list: seq<Payment>, k: nat): seq<Payment> {
    if k * PAGE_SIZE >= |list| then [] else list[k * PAGE_SIZE..Min(|list|, k * PAGE_SIZE + PAGE_SIZE)]
  }

  function PlainSum(list: seq<Payment>, r: Range, w: Payment -> int): int {
    if list == [] then 0 else
    PlainSum(list[..|list| - 1], r, w) + if Relevant(list[|list| - 1], r) then w(list[|list| - 1]) else 0
  }

  ghost predicate DistinctIds(list: seq<Payment>) {
    forall i, j :: 0 <= i < j < |list| ==> list[i].id != list[j].id
  }

  ghost predicate Visits(all: seq<Payment>, id: string) {
    exists i :: 0 <= i < |all| && all[i].id == id
  }

  /** Of the list `l`, exactly the first `m` items have been visited, and their sum is collected. */
  ghost predicate Covered(all: seq<Payment>, l: seq<Payment>, m: int, r: Range, w: Payment -> int) {
    && 0 <= m <= |l|
    && (forall i :: 0 <= i < |l| ==> (Visits(all, l[i].id) <==> i < m))
    && Collected(all, r, w) == PlainSum(l[..m], r, w)
  }

  lemma VisitsSnoc(all: seq<Payment>, p: Payment, id: string)
    ensures Visits(all + [p], id) <==> Visits(all, id) || p.id == id
  {
    if Visits(all, id) {
      var i :| 0 <= i < |all| && all[i].id == id;
      assert (all + [p])[i].id == id;
    }
    assert (all + [p])[|all|] == p;
  }

  lemma CollectedNext(all: seq<Payment>, p: Payment, r: Range, w: Payment -> int)
    ensures Collected(all + [p], r, w)
         == Collected(all, r, w) + if !Visits(all, p.id) && Relevant(p, r) then w(p) else 0
  {
    CollectedSnoc(all, p, r, w);
    hide Collected, Relevant;
  }

  /** A newer item changes nothing. */
  lemma CoverNewer(all: seq<Payment>, p: Payment, l: seq<Payment>, m: int, r: Range, w: Payment -> int)
    requires Covered(all, l, m, r, w) && !Relevant(p, r) && forall i :: 0 <= i < |l| ==> l[i].id != p.id
    ensures Covered(all + [p], l, m, r, w)
  {
    hide Collected, Relevant, PlainSum, Visits;
    CollectedNext(all, p, r, w);
    forall i | 0 <= i < |l|
      ensures Visits(all + [p], l[i].id) <==> i < m
    {
      VisitsSnoc(all, p, l[i].id);
    }
  }

  /** An item of the list extends the cover if it is the next one and is skipped if it is a repeat. */
  lemma CoverItem(all: seq<Payment>, l: seq<Payment>, k: int, m: int, r: Range, w: Payment -> int)
    requires Covered(all, l, m, r, w) && DistinctIds(l) && 0 <= k <= m && k < |l|
    ensures Covered(all + [l[k]], l, Max(m, k + 1), r, w)
  {
    assert k == m ==> l[..m + 1][..m] == l[..m];
    hide Collected, Relevant, Visits;
    CollectedNext(all, l[k], r, w);
    forall i | 0 <= i < |l|
      ensures Visits(all + [l[k]], l[i].id) <==> i < Max(m, k + 1)
    {
      VisitsSnoc(all, l[k], l[i].id);
    }
  }

  /** What newer items satisfy: too late for the range, and with ids of their own. */
  ghost predicate Newer(n: seq<Payment>, l: seq<Payment>, r: Range) {
    forall j :: 0 <= j < |n| ==> !Relevant(n[j], r) && forall i :: 0 <= i < |l| ==> l[i].id != n[j].id
  }

  /** A stretch of the grown list that starts no later than the cover ends leaves no gap. */
  lemma {:induction false} CoverStretch(all: seq<Payment>, n: seq<Payment>, l: seq<Payment>, a: int, b: int, m: int,
                                        r: Range, w: Payment -> int)
    requires Covered(all, l, m, r, w) && DistinctIds(l) && Newer(n, l, r)
    requires 0 <= a <= b <= |n| + |l| && a - |n| <= m
    ensures Covered(all + (n + l)[a..b], l, Max(m, b - |n|), r, w)
    decreases b - a
  {
    hide Covered, Relevant, DistinctIds;
    if a == b {
      assert all + (n + l)[a..b] == all;
      assert Covered(all, l, m, r, w);
      CoverBound(all, l, m, r, w);
    } else {
      CoverStretch(all, n, l, a, b - 1, m, r, w);
      var before := all + (n + l)[a..b - 1];
      var p := (n + l)[b - 1];
      assert all + (n + l)[a..b] == before + [p];
      CoverBound(all, l, m, r, w);
      if b - 1 < |n| {
        assert p == n[b - 1];
        CoverNewer(before, p, l, Max(m, b - 1 - |n|), r, w);
      } else {
        assert p == l[b - 1 - |n|];
        CoverItem(before, l, b - 1 - |n|, Max(m, b - 1 - |n|), r, w);
      }
    }
  }

  lemma CoverBound(all: seq<Payment>, l: seq<Payment>, m: int, r: Range, w: Payment -> int)
    requires Covered(all, l, m, r, w)
    ensures 0 <= m <= |l|
  {
  }

  // ---------------------------------------------------------------- growth of the whole list

  lemma {:induction false} WindowOfConcat(a: seq<Payment>, b: seq<Payment>, w: Window)
    ensures InWindowOnly(a + b, w) == InWindowOnly(a, w) + InWindowOnly(b, w)
  {
    if b == [] {
      assert a + b == a;
    } else {
      var n := |b| - 1;
      WindowOfConcat(a, b[..n], w);
      assert (a + b)[..|a + b| - 1] == a + b[..n];
    }
  }

  lemma {:induction false} WindowItems(list: seq<Payment>, w: Window)
    ensures forall p :: p in InWindowOnly(list, w) <==> p in list && InWindow(p, w)
  {
    if list != [] {
      WindowItems(list[..|list| - 1], w);
      assert list == list[..|list| - 1] + [list[|list| - 1]];
    }
  }

  lemma {:induction false} WindowDistinct(list: seq<Payment>, w: Window)
    requires DistinctIds(list)
    ensures DistinctIds(InWindowOnly(list, w))
  {
    if list != [] {
      var n := |list| - 1;
      WindowDistinct(list[..n], w);
      WindowItems(list[..n], w);
      var kept := InWindowOnly(list[..n], w);
      hide InWindow;
      forall i | 0 <= i < |kept|
        ensures kept[i].id != list[n].id
      {
        assert kept[i] in kept;
        var j :| 0 <= j < n && list[..n][j] == kept[i];
        assert list[j] == kept[i];
      }
    }
  }

  /** Nothing relevant falls outside the window. */
  lemma {:induction false} WindowSum(list: seq<Payment>, r: Range, f: Payment -> int)
    requires r.from.None? || forall i :: 0 <= i < |list| ==> list[i].createdAt >= 0
    ensures PlainSum(InWindowOnly(list, ProviderWindow(r)), r, f) == PlainSum(list, r, f)
  {
    if list != [] {
      var n := |list| - 1;
      WindowSum(list[..n], r, f);
      if InRange(list[n], r) { WindowHoldsRange(list[n], r); }
      hide ProviderWindow, InRange;
      var kept := InWindowOnly(list[..n], ProviderWindow(r));
      assert (kept + [list[n]])[..|kept|] == kept && kept + [] == kept;
    }
  }

  predicate TooLate(n: seq<Payment>, r: Range) { forall i :: 0 <= i < |n| ==> r.to <= n[i].createdAt * 1000 }

  /** Between requests `k` and `k + 1` the list gains `added(k)` at the front, all of it too late for
      the range; ids stay distinct. */
  ghost predicate GrowthAt(lists: nat -> seq<Payment>, added: nat -> seq<Payment>, r: Range, k: nat) {
    lists(k + 1) == added(k) + lists(k) && TooLate(added(k), r) && DistinctIds(lists(k))
  }

  ghost predicate GrowsAtFront(lists: nat -> seq<Payment>, added: nat -> seq<Payment>, r: Range) {
    forall k: nat :: GrowthAt(lists, added, r, k)
  }

  /** What the provider shows of its list at request `k`. */
  function Shown(lists: nat -> seq<Payment>, r: Range, k: nat): seq<Payment> {
    InWindowOnly(lists(k), ProviderWindow(r))
  }

  ghost predicate ServesPage(fetch: nat -> Fetched, lists: nat -> seq<Payment>, r: Range, k: nat) {
    ParsePage(fetch(k)) == Ok(ProviderPage(Shown(lists, r, k), k))
  }

  ghost predicate ServesPages(fetch: nat -> Fetched, lists: nat -> seq<Payment>, r: Range) {
    forall k: nat :: ServesPage(fetch, lists, r, k)
  }

  /** Everything added before request `k`. */
  function AddedBefore(added: nat -> seq<Payment>, k: nat): seq<Payment> {
    if k == 0 then [] else added(k - 1) + AddedBefore(added, k - 1)
  }

  lemma {:induction false} GrownBy(lists: nat -> seq<Payment>, added: nat -> seq<Payment>, r: Range, k: nat)
    requires GrowsAtFront(lists, added, r)
    ensures lists(k) == AddedBefore(added, k) + lists(0) && TooLate(AddedBefore(added, k), r)
  {
    if k > 0 {
      GrownBy(lists, added, r, k - 1);
      assert GrowthAt(lists, added, r, k - 1);
      assert added(k - 1) + (AddedBefore(added, k - 1) + lists(0)) == AddedBefore(added, k) + lists(0);
    }
  }

  function NewlyShown(added: nat -> seq<Payment>, r: Range, k: nat): seq<Payment> {
    InWindowOnly(AddedBefore(added, k), ProviderWindow(r))
  }

  /** What is shown at request `k` is newer items followed by what was shown first. */
  lemma ShownGrown(lists: nat -> seq<Payment>, added: nat -> seq<Payment>, r: Range, k: nat)
    requires GrowsAtFront(lists, added, r)
    ensures Shown(lists, r, k) == NewlyShown(added, r, k) + Shown(lists, r, 0)
    ensures Newer(NewlyShown(added, r, k), Shown(lists, r, 0), r) && DistinctIds(Shown(lists, r, 0))
    ensures |NewlyShown(added, r, k)| <= |NewlyShown(added, r, k + 1)|
  {
    hide ProviderWindow, InWindowOnly, GrowsAtFront, DistinctIds, TooLate, Newer;
    var w := ProviderWindow(r);
    GrownBy(lists, added, r, k);
    assert GrowthAt(lists, added, r, k) && GrowthAt(lists, added, r, 0) by { GrowthBoth(lists, added, r, k); }
    WindowOfConcat(AddedBefore(added, k), lists(0), w);
    WindowDistinct(lists(0), w);
    WindowDistinct(lists(k), w);
    NewerItems(AddedBefore(added, k), Shown(lists, r, 0), w, r);
    WindowOfConcat(added(k), AddedBefore(added, k), w);
  }

  lemma GrowthBoth(lists: nat -> seq<Payment>, added: nat -> seq<Payment>, r: Range, k: nat)
    requires GrowsAtFront(lists, added, r)
    ensures GrowthAt(lists, added, r, k) && GrowthAt(lists, added, r, 0)
  {
  }

  lemma NewerItems(grown: seq<Payment>, l: seq<Payment>, w: Window, r: Range)
    requires TooLate(grown, r) && DistinctIds(InWindowOnly(grown, w) + l)
    ensures Newer(InWindowOnly(grown, w), l, r)
  {
    WindowItems(grown, w);
    hide InWindowOnly, InWindow;
    var n := InWindowOnly(grown, w);
    forall j | 0 <= j < |n|
      ensures !Relevant(n[j], r)
      ensures forall i :: 0 <= i < |l| ==> l[i].id != n[j].id
    {
      assert n[j] in n;
      assert (n + l)[j] == n[j];
      assert forall i :: 0 <= i < |l| ==> (n + l)[|n| + i] == l[i];
    }
  }

  /** How far the cover reaches once the page at `k` of a list with `n` newer items is visited. */
  function PageEnd(n: int, l: int, k: nat, before: int): int {
    if k * PAGE_SIZE < n + l then Max(before, Min(n + l, (k + 1) * PAGE_SIZE) - n) else before
  }

  /** The next page, full or not, is visited without a gap. */
  lemma CoverPage(all: seq<Payment>, n: seq<Payment>, l: seq<Payment>, k: nat, before: int, r: Range, f: Payment -> int)
    requires Covered(all, l, before, r, f) && DistinctIds(l) && Newer(n, l, r) && k * PAGE_SIZE - |n| <= before
    ensures Covered(all + ProviderPage(n + l, k), l, PageEnd(|n|, |l|, k, before), r, f)
  {
    hide Covered, Newer, DistinctIds;
    if k * PAGE_SIZE < |n + l| {
      CoverStretch(all, n, l, k * PAGE_SIZE, Min(|n + l|, (k + 1) * PAGE_SIZE), before, r, f);
    } else {
      assert all + [] == all;
    }
  }

  lemma VisitPage(fetch: nat -> Fetched, lists: nat -> seq<Payment>, added: nat -> seq<Payment>, r: Range, k: nat,
                  before: int, f: Payment -> int)
    requires GrowsAtFront(lists, added, r) && ServesPages(fetch, lists, r)
    requires Covered(Visited(fetch, k), Shown(lists, r, 0), before, r, f)
    requires k * PAGE_SIZE - |NewlyShown(added, r, k)| <= before
    ensures Covered(Visited(fetch, k + 1), Shown(lists, r, 0),
                    PageEnd(|NewlyShown(added, r, k)|, |Shown(lists, r, 0)|, k, before), r, f)
    ensures ParsePage(fetch(k)).Ok?
    ensures |ParsePage(fetch(k)).value| < PAGE_SIZE <==>
      |NewlyShown(added, r, k)| + |Shown(lists, r, 0)| < (k + 1) * PAGE_SIZE
  {
    hide ParsePage, Covered, Shown, NewlyShown, Newer, DistinctIds, GrowsAtFront;
    ShownGrown(lists, added, r, k);
    assert ServesPage(fetch, lists, r, k);
    CoverPage(Visited(fetch, k), NewlyShown(added, r, k), Shown(lists, r, 0), k, before, r, f);
  }

  /** How far the cover reaches after `k` pages. */
  function Reach(lists: nat -> seq<Payment>, added: nat -> seq<Payment>, r: Range, k: nat): int {
    if k == 0 then 0
    else PageEnd(|NewlyShown(added, r, k - 1)|, |Shown(lists, r, 0)|, k - 1, Reach(lists, added, r, k - 1))
  }

  /** After `k` full pages the cover has kept up with the pages, whatever was added in front. */
  lemma {:induction false} FullPagesCover(fetch: nat -> Fetched, lists: nat -> seq<Payment>, added: nat -> seq<Payment>,
                                          r: Range, k: nat, f: Payment -> int)
    requires GrowsAtFront(lists, added, r) && ServesPages(fetch, lists, r)
    requires forall j :: 0 <= j < k ==> FullPage(fetch, j)
    ensures Covered(Visited(fetch, k), Shown(lists, r, 0), Reach(lists, added, r, k), r, f)
    ensures k * PAGE_SIZE - |NewlyShown(added, r, k)| <= Reach(lists, added, r, k)
  {
    hide ParsePage, Covered, Shown, NewlyShown, GrowsAtFront, ServesPages;
    if k == 0 {
      NothingCovered(Shown(lists, r, 0), r, f);
    } else {
      FullPagesCover(fetch, lists, added, r, k - 1, f);
      VisitPage(fetch, lists, added, r, k - 1, Reach(lists, added, r, k - 1), f);
      assert FullPage(fetch, k - 1);
      ShownGrown(lists, added, r, k - 1);
    }
  }

  predicate FullPage(fetch: nat -> Fetched, k: nat) {
    ParsePage(fetch(k)).Ok? && |ParsePage(fetch(k)).value| >= PAGE_SIZE
  }

  predicate ShortPage(fetch: nat -> Fetched, k: nat) {
    ParsePage(fetch(k)).Ok? && |ParsePage(fetch(k)).value| < PAGE_SIZE
  }

  lemma NothingCovered(l: seq<Payment>, r: Range, f: Payment -> int)
    ensures Covered([], l, 0, r, f)
  {
  }

  /** No payment of the list is dated before the epoch, or the range has no start. */
  predicate Dated(list: seq<Payment>, r: Range) {
    r.from.None? || forall i :: 0 <= i < |list| ==> list[i].createdAt >= 0
  }

  /** A scan that completes while the provider's list grows at the front, by payments created at
      or after the end of the range, collects exactly the sums of the list as it was at the
      start: over the whole list, not only the window, and for every weight. */
  lemma ScanIsSnapshot(fetch: nat -> Fetched, lists: nat -> seq<Payment>, added: nat -> seq<Payment>, r: Range, n: nat,
                       f: Payment -> int)
    requires GrowsAtFront(lists, added, r) && ServesPages(fetch, lists, r) && Dated(lists(0), r) && n > 0
    requires (forall j :: 0 <= j < n - 1 ==> FullPage(fetch, j)) && ShortPage(fetch, n - 1)
    ensures Collected(Visited(fetch, n), r, f) == PlainSum(lists(0), r, f)
  {
    hide ParsePage, Shown, NewlyShown, GrowsAtFront, ServesPages, Visited, Collected, PlainSum, Visits, Reach;
    var l := Shown(lists, r, 0);
    FullPagesCover(fetch, lists, added, r, n - 1, f);
    var before := Reach(lists, added, r, n - 1);
    VisitPage(fetch, lists, added, r, n - 1, before, f);
    assert PageEnd(|NewlyShown(added, r, n - 1)|, |l|, n - 1, before) == |l|;
    assert l[..|l|] == l;
    ShownSum(lists, r, f);
  }

  lemma ShownSum(lists: nat -> seq<Payment>, r: Range, f: Payment -> int)
    requires Dated(lists(0), r)
    ensures PlainSum(Shown(lists, r, 0), r, f) == PlainSum(lists(0), r, f)
  {
    WindowSum(lists(0), r, f);
  }

  /** Which pages a successful scan has read. */
  lemma {:induction false} PagesReadFull(fetch: nat -> Fetched, clock: nat -> int, maxPages: int, maxScanMs: int,
                                         k: nat)
    requires PagesRead(fetch, clock, maxPages, maxScanMs, k).Ok?
    ensures var n := PagesRead(fetch, clock, maxPages, maxScanMs, k).value;
      k < n <= maxPages && (forall j :: k <= j < n - 1 ==> FullPage(fetch, j)) && ShortPage(fetch, n - 1)
    decreases maxPages - k
  {
    hide ParsePage;
    if |ParsePage(fetch(k)).value| >= PAGE_SIZE {
      PagesReadFull(fetch, clock, maxPages, maxScanMs, k + 1);
    }
  }

  /** Range, buckets, set of currencies, counts and headline are those of `list`. */
  ghost predicate IsTotalOf(a: Amount, list: seq<Payment>, r: Range) {
    && a.effective == r && a.paymentCount == PlainSum(list, r, One) == SumBuckets(a.buckets)
    && (forall i :: 0 <= i < |a.buckets| ==> IsPlainBucket(a.buckets[i], list, r))
    && InCurrencyOrder(a.buckets) && HeadlineFits(a)
    && (forall c :: PlainSum(list, r, CountIn(c)) > 0 <==> HasBucket(a.buckets, c))
  }

  ghost predicate IsPlainBucket(b: Bucket, list: seq<Payment>, r: Range) {
    b == BucketOf(b.currency, Total(PlainSum(list, r, AmountIn(b.currency)), PlainSum(list, r, CountIn(b.currency))))
  }

  lemma SnapshotSums(fetch: nat -> Fetched, lists: nat -> seq<Payment>, added: nat -> seq<Payment>, r: Range, n: nat,
                     a: Amount)
    requires GrowsAtFront(lists, added, r) && ServesPages(fetch, lists, r) && Dated(lists(0), r) && n > 0
    requires (forall j :: 0 <= j < n - 1 ==> FullPage(fetch, j)) && ShortPage(fetch, n - 1)
    requires IsExact(a, Visited(fetch, n), r)
    ensures IsTotalOf(a, lists(0), r)
  {
    hide Collected, PlainSum, BucketOf, GrowsAtFront, ServesPages, Visited, FullPage, ShortPage, SumBuckets;
    var all := Visited(fetch, n);
    ScanIsSnapshot(fetch, lists, added, r, n, One);
    forall c
      ensures Collected(all, r, AmountIn(c)) == PlainSum(lists(0), r, AmountIn(c))
      ensures Collected(all, r, CountIn(c)) == PlainSum(lists(0), r, CountIn(c))
    {
      ScanIsSnapshot(fetch, lists, added, r, n, AmountIn(c));
      ScanIsSnapshot(fetch, lists, added, r, n, CountIn(c));
    }
    forall i | 0 <= i < |a.buckets|
      ensures a.buckets[i].paymentCount == Collected(all, r, CountIn(a.buckets[i].currency))
    {
      var c := a.buckets[i].currency;
      BucketCount(c, Total(Collected(all, r, AmountIn(c)), Collected(all, r, CountIn(c))));
    }
  }

  lemma {:induction false} OnlyLimits(fetch: nat -> Fetched, clock: nat -> int, maxPages: int, maxScanMs: int, k: nat,
                                      lists: nat -> seq<Payment>, r: Range)
    requires ServesPages(fetch, lists, r)
    ensures PagesRead(fetch, clock, maxPages, maxScanMs, k).Err? ==>
      PagesRead(fetch, clock, maxPages, maxScanMs, k).error.ScanLimit?
    decreases maxPages - k
  {
    hide ParsePage, ProviderPage, Shown;
    assert ServesPage(fetch, lists, r, k);
    if k < maxPages { OnlyLimits(fetch, clock, maxPages, maxScanMs, k + 1, lists, r); }
  }

  /** The provider serves the pages of a list that only grows at the front, by payments too late for the
      range, and its window loses no payment of the list. */
  ghost predicate Steady(fetch: nat -> Fetched, lists: nat -> seq<Payment>, added: nat -> seq<Payment>, r: Range) {
    GrowsAtFront(lists, added, r) && ServesPages(fetch, lists, r) && Dated(lists(0), r)
  }

  /** The whole scan over a growing provider: it reports the totals of the first list or fails on a
      limit, never anything in between. */
  method ScanGrowingProvider(from: Option<int>, requestedTo: Option<int>, asOf: int, fetch: nat -> Fetched,
                             clock: nat -> int, maxPages: int, maxScanMs: int,
                             ghost lists: nat -> seq<Payment>, ghost added: nat -> seq<Payment>)
    returns (result: Result<Amount>)
    requires Steady(fetch, lists, added, EffectiveRange(from, requestedTo, asOf))
    ensures match result
      case Ok(a) => IsTotalOf(a, lists(0), EffectiveRange(from, requestedTo, asOf))
      case Err(e) => e == ScanLimit
  {
    hide IsExact, IsTotalOf, GrowsAtFront, ServesPages, Visited, PagesRead, FullPage, ShortPage, Dated;
    ghost var r := EffectiveRange(from, requestedTo, asOf);
    result := Scan(from, requestedTo, asOf, fetch, clock, maxPages, maxScanMs);
    if result.Ok? {
      PagesReadFull(fetch, clock, maxPages, maxScanMs, 0);
      SnapshotSums(fetch, lists, added, r, PagesRead(fetch, clock, maxPages, maxScanMs, 0).value, result.value);
    } else {
      OnlyLimits(fetch, clock, maxPages, maxScanMs, 0, lists, r);
    }
  }

  lemma {:induction false} PlainSumNonNegative(list: seq<Payment>, r: Range, c: string)
    ensures PlainSum(list, r, AmountIn(c)) >= 0
  {
    hide Relevant;
    if list != [] { PlainSumNonNegative(list[..|list| - 1], r, c); }
  }

  /** Read as numbers, the figures of a total are the sums over the list. */
  lemma FiguresAreTotals(a: Amount, list: seq<Payment>, r: Range, i: nat)
    requires IsTotalOf(a, list, r) && i < |a.buckets|
    ensures var b := a.buckets[i]; var amount := PlainSum(list, r, AmountIn(b.currency));
      && D.AllDigits(b.amountSubunits) && D.Parse(b.amountSubunits) == amount
      && ParseMajor(b.amountMajor) == Some(amount)
      && b.paymentCount == PlainSum(list, r, CountIn(b.currency))
  {
    var c := a.buckets[i].currency;
    assert IsPlainBucket(a.buckets[i], list, r);
    PlainSumNonNegative(list, r, c);
    BucketReads(c, Total(PlainSum(list, r, AmountIn(c)), PlainSum(list, r, CountIn(c))));
    hide PlainSum, BucketOf, ParseMajor, D.Parse, D.AllDigits, SumBuckets;
  }

  /** The window is less than 2 s wider than the range at either end, apart from its clamp at the epoch. */
  lemma WindowIsTight(r: Range)
    ensures var w := ProviderWindow(r);
      && (w.from.Some? <==> r.from.Some?) && r.to < w.to * 1000 + 1000 && w.to * 1000 < r.to + 2000
      && (r.from.Some? ==> w.from.value >= 0 && w.from.value * 1000 <= Max(0, r.from.value)
                           && (w.from.value == 0 || r.from.value - 2000 < w.from.value * 1000))
  {
  }
}
