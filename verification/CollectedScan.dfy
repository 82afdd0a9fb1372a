/** The paged scan of captured payments (src/modules/admin/admin-razorpay-collected.service.ts):
    what it sums, when it fails, and that it is exact over a list that grows while it runs. */
module CollectedScan {
  import opened Basics
  import D = Decimal

  const PAGE_SIZE: nat := 100
  const MAX_SAFE_INTEGER: int := 9_007_199_254_740_991

  datatype Payment = Payment(id: string, amount: nat, currency: string, captured: bool, createdAt: int)

  /** An entry of a provider page before validation. */
  datatype Entry = Entry(id: string, amount: int, currency: string, captured: bool, createdAt: int) | NotAPayment

  /** What one fetch yields: entries, something that is not a page, or a provider failure. */
  datatype Fetched = Entries(entries: seq<Entry>) | NotAPage | Failed(code: string)

  datatype ScanError = ScanLimit | Malformed | Provider(code: string)

  datatype Result<T> = Ok(value: T) | Err(error: ScanError)

  // ---------------------------------------------------------------- parsing

  function UpperChar(c: char): char {
    if 'a' <= c <= 'z' then (c as int - 32) as char else c
  }

  function Upper(s: string): string { seq(|s|, i requires 0 <= i < |s| => UpperChar(s[i])) }

  function ParseEntries(entries: seq<Entry>): Result<seq<Payment>> {
    if entries == [] then Ok([])
    else
      var last := entries[|entries| - 1];
      match ParseEntries(entries[..|entries| - 1])
      case Err(e) => Err(e)
      case Ok(front) =>
        if last.NotAPayment? || last.amount < 0 || last.amount > MAX_SAFE_INTEGER then Err(Malformed)
        else Ok(front + [Payment(last.id, last.amount, Upper(last.currency), last.captured, last.createdAt)])
  }

  /** `parseRazorpayPaymentPage`, with provider failures passed on. */
  function ParsePage(f: Fetched): Result<seq<Payment>> {
    match f
    case Entries(entries) => ParseEntries(entries)
    case NotAPage => Err(Malformed)
    case Failed(code) => Err(Provider(code))
  }

  // ---------------------------------------------------------------- what is to be counted

  datatype Range = Range(from: Option<int>, to: int)

  /** The half-open range that a scan covers, in milliseconds. */
  function EffectiveRange(from: Option<int>, requestedTo: Option<int>, asOf: int): Range {
    Range(from, Min(if requestedTo.Some? then requestedTo.value else asOf, asOf))
  }

  predicate InRange(p: Payment, r: Range) {
    (r.from.Some? ==> r.from.value <= p.createdAt * 1000) && p.createdAt * 1000 < r.to
  }

  predicate Relevant(p: Payment, r: Range) { InRange(p, r) && p.captured }

  predicate FirstOfId(all: seq<Payment>, i: nat)
    requires i < |all|
  {
    forall j :: 0 <= j < i ==> all[j].id != all[i].id
  }

  /** The sum of `w` over the relevant payments of `all`, the first of each id only. */
  function Collected(all: seq<Payment>, r: Range, w: Payment -> int): int {
    if all == [] then 0 else
    var n := |all| - 1;
    Collected(all[..n], r, w) + if FirstOfId(all, n) && Relevant(all[n], r) then w(all[n]) else 0
  }

  function AmountIn(c: string): Payment -> int { (p: Payment) => if p.currency == c then p.amount else 0 }

  function CountIn(c: string): Payment -> int { (p: Payment) => if p.currency == c then 1 else 0 }

  function One(p: Payment): int { 1 }

  // ---------------------------------------------------------------- tallying

  datatype Total = Total(amount: int, count: int)

  /** The variables of the loop; `order` is the insertion order of the `totals` map. */
  datatype Tally = Tally(seen: set<string>, totals: map<string, Total>, order: seq<string>, paymentCount: int)

  function EmptyTally(): Tally { Tally({}, map[], [], 0) }

  function Bumped(totals: map<string, Total>, p: Payment): Total {
    var t := if p.currency in totals then totals[p.currency] else Total(0, 0);
    Total(t.amount + p.amount, t.count + 1)
  }

  /** One turn of the inner loop. */
  function Add(t: Tally, p: Payment, r: Range): Tally {
    if p.id in t.seen then t
    else if !Relevant(p, r) then t.(seen := t.seen + {p.id})
    else Tally(t.seen + {p.id}, t.totals[p.currency := Bumped(t.totals, p)],
               if p.currency in t.totals then t.order else t.order + [p.currency], t.paymentCount + 1)
  }

  ghost predicate SeenAgrees(t: Tally, all: seq<Payment>) {
    forall id :: id in t.seen <==> exists i :: 0 <= i < |all| && all[i].id == id
  }

  /** Every currency's total is the collected sum, and a currency is present once it has a payment. */
  ghost predicate TotalsAgree(t: Tally, all: seq<Payment>, r: Range) {
    forall c :: (if c in t.totals then t.totals[c] else Total(0, 0))
             == Total(Collected(all, r, AmountIn(c)), Collected(all, r, CountIn(c)))
  }

  ghost predicate OrderAgrees(t: Tally) {
    && (forall c :: c in t.order <==> c in t.totals)
    && (forall c :: c in t.totals ==> t.totals[c].count > 0)
    && (forall i, j :: 0 <= i < j < |t.order| ==> t.order[i] != t.order[j])
  }

  function SumCounts(order: seq<string>, totals: map<string, Total>): int
    requires forall c :: c in order ==> c in totals
  {
    if order == [] then 0 else SumCounts(order[..|order| - 1], totals) + totals[order[|order| - 1]].count
  }

  ghost predicate Agrees(t: Tally, all: seq<Payment>, r: Range) {
    && SeenAgrees(t, all) && TotalsAgree(t, all, r) && OrderAgrees(t)
    && t.paymentCount == Collected(all, r, One) && SumCounts(t.order, t.totals) == t.paymentCount
  }

  lemma CollectedSnoc(all: seq<Payment>, p: Payment, r: Range, w: Payment -> int)
    ensures Collected(all + [p], r, w) == Collected(all, r, w)
      + if (forall j :: 0 <= j < |all| ==> all[j].id != p.id) && Relevant(p, r) then w(p) else 0
  {
    assert (all + [p])[..|all|] == all;
    hide Relevant;
    assert FirstOfId(all + [p], |all|) <==> forall j :: 0 <= j < |all| ==> all[j].id != p.id;
  }

  lemma {:induction false} SumCountsElsewhere(order: seq<string>, a: map<string, Total>, b: map<string, Total>)
    requires forall c :: c in order ==> c in a && c in b && a[c] == b[c]
    ensures SumCounts(order, a) == SumCounts(order, b)
  {
    if order != [] { SumCountsElsewhere(order[..|order| - 1], a, b); }
  }

  lemma {:induction false} SumCountsBump(order: seq<string>, totals: map<string, Total>, c: string, t: Total)
    requires (forall k :: k in order ==> k in totals) && c in order
    requires forall i, j :: 0 <= i < j < |order| ==> order[i] != order[j]
    ensures SumCounts(order, totals[c := t]) == SumCounts(order, totals) - totals[c].count + t.count
  {
    var n := |order| - 1;
    assert order == order[..n] + [order[n]];
    if order[n] == c {
      assert c !in order[..n];
      SumCountsElsewhere(order[..n], totals, totals[c := t]);
    } else {
      SumCountsBump(order[..n], totals, c, t);
    }
  }

  lemma SeenStep(t: Tally, p: Payment, all: seq<Payment>, r: Range)
    requires SeenAgrees(t, all)
    ensures SeenAgrees(Add(t, p, r), all + [p])
  {
    hide Relevant, Bumped;
    var after := Add(t, p, r);
    assert after.seen == t.seen + {p.id};
    forall id
      ensures id in after.seen <==> exists i :: 0 <= i < |all + [p]| && (all + [p])[i].id == id
    {
      if id in t.seen {
        var i :| 0 <= i < |all| && all[i].id == id;
        assert (all + [p])[i].id == id;
      }
      assert (all + [p])[|all|] == p;
    }
  }

  lemma TotalsStep(t: Tally, p: Payment, all: seq<Payment>, r: Range)
    requires SeenAgrees(t, all) && TotalsAgree(t, all, r)
    ensures TotalsAgree(Add(t, p, r), all + [p], r)
    ensures Add(t, p, r).paymentCount - t.paymentCount == Collected(all + [p], r, One) - Collected(all, r, One)
  {
    hide Relevant, Collected;
    CollectedSnoc(all, p, r, One);
    forall c
      ensures (if c in Add(t, p, r).totals then Add(t, p, r).totals[c] else Total(0, 0))
           == Total(Collected(all + [p], r, AmountIn(c)), Collected(all + [p], r, CountIn(c)))
    {
      CollectedSnoc(all, p, r, AmountIn(c));
      CollectedSnoc(all, p, r, CountIn(c));
    }
  }

  lemma OrderStep(t: Tally, p: Payment, r: Range)
    requires OrderAgrees(t)
    ensures OrderAgrees(Add(t, p, r))
  {
    hide Relevant;
  }

  lemma CountStep(t: Tally, p: Payment, r: Range)
    requires OrderAgrees(t) && OrderAgrees(Add(t, p, r))
    ensures SumCounts(Add(t, p, r).order, Add(t, p, r).totals) - SumCounts(t.order, t.totals)
         == Add(t, p, r).paymentCount - t.paymentCount
  {
    hide Relevant, SumCounts;
    if p.id !in t.seen && Relevant(p, r) {
      if p.currency in t.totals {
        SumCountsBump(t.order, t.totals, p.currency, Bumped(t.totals, p));
      } else {
        SumCountsNew(t.order, t.totals, p.currency, Bumped(t.totals, p));
      }
    }
  }

  lemma SumCountsNew(order: seq<string>, totals: map<string, Total>, c: string, t: Total)
    requires (forall k :: k in order ==> k in totals) && c !in totals
    ensures SumCounts(order + [c], totals[c := t]) == SumCounts(order, totals) + t.count
  {
    assert (order + [c])[..|order|] == order;
    SumCountsElsewhere(order, totals, totals[c := t]);
  }

  lemma AddAgrees(t: Tally, p: Payment, all: seq<Payment>, r: Range)
    requires Agrees(t, all, r)
    ensures Agrees(Add(t, p, r), all + [p], r)
  {
    hide SeenAgrees, TotalsAgree, OrderAgrees, Collected, Add;
    SeenStep(t, p, all, r);
    TotalsStep(t, p, all, r);
    OrderStep(t, p, r);
    CountStep(t, p, r);
  }

  // ---------------------------------------------------------------- the scan

  /** How many pages a scan reads, or why it fails: page and time limits first, then the page. */
  function PagesRead(fetch: nat -> Fetched, clock: nat -> int, maxPages: int, maxScanMs: int, k: nat): Result<nat>
    decreases maxPages - k
  {
    if k >= maxPages || clock(k) > maxScanMs then Err(ScanLimit)
    else match ParsePage(fetch(k))
      case Err(e) => Err(e)
      case Ok(items) => if |items| < PAGE_SIZE then Ok(k + 1) else PagesRead(fetch, clock, maxPages, maxScanMs, k + 1)
  }

  /** The payments of the first `n` pages in the order they are visited. */
  function Visited(fetch: nat -> Fetched, n: nat): seq<Payment> {
    if n == 0 then [] else
    Visited(fetch, n - 1) + match ParsePage(fetch(n - 1)) case Ok(items) => items case Err(_) => []
  }

  datatype Bucket = Bucket(currency: string, amountSubunits: string, amountMajor: string, paymentCount: int)

  datatype Amount = Amount(amountSubunits: Option<string>, amountMajor: Option<string>, currency: Option<string>,
                           paymentCount: int, buckets: seq<Bucket>, effective: Range, asOf: int)

  /** `majorAmount` */
  function MajorAmount(subunits: int): string {
    var absolute := if subunits < 0 then -subunits else subunits;
    (if subunits < 0 then "-" else "") + D.ToString(absolute / 100) + "." + D.Pad(absolute % 100, 2)
  }

  function BucketOf(c: string, t: Total): Bucket {
    Bucket(c, D.IntText(t.amount), MajorAmount(t.amount), t.count)
  }

  /** A bucket that states the collected sums of its currency. */
  ghost predicate IsBucket(b: Bucket, all: seq<Payment>, r: Range) {
    b == BucketOf(b.currency, Total(Collected(all, r, AmountIn(b.currency)), Collected(all, r, CountIn(b.currency))))
  }

  function SumBuckets(bs: seq<Bucket>): int {
    if bs == [] then 0 else SumBuckets(bs[..|bs| - 1]) + bs[|bs| - 1].paymentCount
  }

  ghost predicate InCurrencyOrder(buckets: seq<Bucket>) {
    forall i, j :: 0 <= i < j < |buckets| ==> D.StrLess(buckets[i].currency, buckets[j].currency)
  }

  ghost predicate HasBucket(buckets: seq<Bucket>, c: string) {
    exists i :: 0 <= i < |buckets| && buckets[i].currency == c
  }

  /** The figures above the buckets: those of the only currency, zero INR for none, and absent for several. */
  ghost predicate HeadlineFits(a: Amount) {
    match |a.buckets|
    case 0 => a.amountSubunits == Some("0") && a.amountMajor == Some("0.00") && a.currency == Some("INR")
    case 1 =>
      var b := a.buckets[0];
      && a.amountSubunits == Some(b.amountSubunits) && a.amountMajor == Some(b.amountMajor)
      && a.currency == Some(b.currency)
    case _ => a.amountSubunits == None && a.amountMajor == None && a.currency == None
  }

  /** Exact totals over `all`: one bucket for each currency that has a relevant payment, in string
      order, with counts that add up, and a headline only if there is at most one currency. */
  ghost predicate IsExact(a: Amount, all: seq<Payment>, r: Range) {
    && a.effective == r && a.paymentCount == Collected(all, r, One) == SumBuckets(a.buckets)
    && (forall i :: 0 <= i < |a.buckets| ==> IsBucket(a.buckets[i], all, r) && a.buckets[i].paymentCount > 0)
    && InCurrencyOrder(a.buckets) && HeadlineFits(a)
    && (forall c :: Collected(all, r, CountIn(c)) > 0 ==> HasBucket(a.buckets, c))
  }

  /** `currencies` in string order. */
  function InsertSorted(c: string, sorted: seq<string>): seq<string> {
    if sorted == [] || D.StrLess(c, sorted[0]) then [c] + sorted else [sorted[0]] + InsertSorted(c, sorted[1..])
  }

  function Sorted(cs: seq<string>): seq<string> {
    if cs == [] then [] else InsertSorted(cs[|cs| - 1], Sorted(cs[..|cs| - 1]))
  }

  ghost predicate Ascending(cs: seq<string>) {
    forall i, j :: 0 <= i < j < |cs| ==> D.StrLess(cs[i], cs[j])
  }

  lemma {:induction false} InsertKeeps(c: string, sorted: seq<string>, totals: map<string, Total>)
    requires Ascending(sorted) && c !in sorted
    requires c in totals && forall k :: k in sorted ==> k in totals
    ensures var r := InsertSorted(c, sorted);
      && Ascending(r) && (forall k :: k in r <==> k == c || k in sorted)
      && SumCounts(r, totals) == SumCounts(sorted, totals) + totals[c].count
  {
    hide D.StrLess;
    if sorted == [] {
      assert SumCounts([], totals) == 0;
      assert [c] + sorted == [c] && [c][..0] == [];
    } else if D.StrLess(c, sorted[0]) {
      PrependKeeps(c, sorted, totals);
    } else {
      D.StrLessTotal(c, sorted[0]);
      InsertKeeps(c, sorted[1..], totals);
      SumCountsHead(sorted, totals);
      assert sorted == [sorted[0]] + sorted[1..];
      HeadKeeps(sorted[0], InsertSorted(c, sorted[1..]), totals);
    }
  }

  lemma HeadKeeps(h: string, rest: seq<string>, totals: map<string, Total>)
    requires Ascending(rest) && (forall k :: k in rest ==> D.StrLess(h, k))
    requires h in totals && forall k :: k in rest ==> k in totals
    ensures Ascending([h] + rest) && SumCounts([h] + rest, totals) == totals[h].count + SumCounts(rest, totals)
  {
    hide D.StrLess;
    assert ([h] + rest)[1..] == rest;
    SumCountsHead([h] + rest, totals);
    forall i, j | 0 <= i < j < |rest| + 1
      ensures D.StrLess(([h] + rest)[i], ([h] + rest)[j])
    {
      if i == 0 { assert rest[j - 1] in rest; } else { assert D.StrLess(rest[i - 1], rest[j - 1]); }
    }
  }

  lemma PrependKeeps(c: string, sorted: seq<string>, totals: map<string, Total>)
    requires Ascending(sorted) && sorted != [] && D.StrLess(c, sorted[0])
    requires c in totals && forall k :: k in sorted ==> k in totals
    ensures var r := [c] + sorted;
      && Ascending(r) && (forall k :: k in r <==> k == c || k in sorted)
      && SumCounts(r, totals) == SumCounts(sorted, totals) + totals[c].count
  {
    hide D.StrLess;
    var r := [c] + sorted;
    assert r[1..] == sorted;
    SumCountsHead(r, totals);
    forall i, j | 0 <= i < j < |r|
      ensures D.StrLess(r[i], r[j])
    {
      if i == 0 && j > 1 { D.StrLessTransitive(c, sorted[0], sorted[j - 1]); }
    }
  }

  lemma {:induction false} SumCountsHead(cs: seq<string>, totals: map<string, Total>)
    requires cs != [] && forall k :: k in cs ==> k in totals
    ensures SumCounts(cs, totals) == totals[cs[0]].count + SumCounts(cs[1..], totals)
  {
    if |cs| > 1 {
      SumCountsHead(cs[..|cs| - 1], totals);
      assert cs[1..][..|cs| - 2] == cs[..|cs| - 1][1..];
    } else {
      assert cs[1..] == [] && cs[..0] == [];
      assert SumCounts([], totals) == 0;
    }
  }

  lemma {:induction false} SortedKeeps(cs: seq<string>, totals: map<string, Total>)
    requires (forall i, j :: 0 <= i < j < |cs| ==> cs[i] != cs[j]) && forall k :: k in cs ==> k in totals
    ensures Ascending(Sorted(cs)) && forall k :: k in Sorted(cs) <==> k in cs
    ensures SumCounts(Sorted(cs), totals) == SumCounts(cs, totals)
  {
    if cs != [] {
      var n := |cs| - 1;
      SortedKeeps(cs[..n], totals);
      assert cs == cs[..n] + [cs[n]];
      InsertKeeps(cs[n], Sorted(cs[..n]), totals);
    }
  }

  /** The buckets of a tally in string order of currency. */
  method ListBuckets(t: Tally) returns (buckets: seq<Bucket>)
    requires OrderAgrees(t)
    ensures |buckets| == |Sorted(t.order)|
    ensures forall i :: 0 <= i < |buckets| ==>
      Sorted(t.order)[i] in t.totals && buckets[i] == BucketOf(Sorted(t.order)[i], t.totals[Sorted(t.order)[i]])
    ensures Ascending(Sorted(t.order)) && forall c :: c in Sorted(t.order) <==> c in t.totals
    ensures SumBuckets(buckets) == SumCounts(t.order, t.totals)
  {
    hide BucketOf, Sorted, SumBuckets, SumCounts, Ascending;
    SortedKeeps(t.order, t.totals);
    var cs := Sorted(t.order);
    assert forall i :: 0 <= i < |cs| ==> cs[i] in t.totals;
    buckets := [];
    for i := 0 to |cs|
      invariant |buckets| == i
      invariant forall j :: 0 <= j < i ==> buckets[j] == BucketOf(cs[j], t.totals[cs[j]])
    {
      buckets := buckets + [BucketOf(cs[i], t.totals[cs[i]])];
    }
    BucketSums(cs, t.totals, buckets);
  }

  lemma {:induction false} BucketSums(cs: seq<string>, totals: map<string, Total>, buckets: seq<Bucket>)
    requires |buckets| == |cs| && forall c :: c in cs ==> c in totals
    requires forall i :: 0 <= i < |cs| ==> buckets[i] == BucketOf(cs[i], totals[cs[i]])
    ensures SumBuckets(buckets) == SumCounts(cs, totals)
  {
    hide BucketOf;
    if cs != [] {
      var n := |cs| - 1;
      BucketSums(cs[..n], totals, buckets[..n]);
      BucketCount(cs[n], totals[cs[n]]);
    }
  }

  lemma BucketCount(c: string, t: Total)
    ensures BucketOf(c, t).paymentCount == t.count && BucketOf(c, t).currency == c
  {
  }

  /** The figures reported for a finished tally. */
  method Report(t: Tally, ghost all: seq<Payment>, r: Range, asOf: int) returns (a: Amount)
    requires Agrees(t, all, r)
    ensures IsExact(a, all, r) && a.asOf == asOf
  {
    hide Collected, BucketOf, Sorted, SumBuckets, SumCounts, D.StrLess;
    var buckets := ListBuckets(t);
    var single := |buckets| == 1;
    a := Amount(if buckets == [] then Some("0") else if single then Some(buckets[0].amountSubunits) else None,
                if buckets == [] then Some("0.00") else if single then Some(buckets[0].amountMajor) else None,
                if buckets == [] then Some("INR") else if single then Some(buckets[0].currency) else None,
                t.paymentCount, buckets, r, asOf);
    forall i | 0 <= i < |buckets|
      ensures buckets[i].currency == Sorted(t.order)[i] && IsBucket(buckets[i], all, r) && buckets[i].paymentCount > 0
    {
      BucketCount(Sorted(t.order)[i], t.totals[Sorted(t.order)[i]]);
    }
    forall c | Collected(all, r, CountIn(c)) > 0
      ensures HasBucket(buckets, c)
    {
      assert c in t.totals && c in Sorted(t.order);
      var i :| 0 <= i < |Sorted(t.order)| && Sorted(t.order)[i] == c;
      assert buckets[i].currency == c;
    }
  }

  /** One page's worth of the inner loop. */
  method TallyPage(t0: Tally, items: seq<Payment>, ghost all: seq<Payment>, r: Range) returns (t: Tally)
    requires Agrees(t0, all, r)
    ensures Agrees(t, all + items, r)
  {
    hide Agrees, Add;
    t := t0;
    assert all + items[..0] == all;
    for i := 0 to |items|
      invariant Agrees(t, all + items[..i], r)
    {
      AddAgrees(t, items[i], all + items[..i], r);
      assert all + items[..i] + [items[i]] == all + items[..i + 1];
      t := Add(t, items[i], r);
    }
    assert items[..|items|] == items;
  }

  lemma EmptyAgrees(r: Range)
    ensures Agrees(EmptyTally(), [], r)
  {
  }

  /** `scanRazorpayCollectedPayments`. `fetch(k)` is what the k-th page request yields and `clock(k)`
      the time spent when it is made. The scan fails exactly as the first limit, malformed page or
      provider failure says, and otherwise reports the exact totals of all pages; never part of them. */
  method Scan(from: Option<int>, requestedTo: Option<int>, asOf: int, fetch: nat -> Fetched, clock: nat -> int,
              maxPages: int, maxScanMs: int) returns (result: Result<Amount>)
    ensures match PagesRead(fetch, clock, maxPages, maxScanMs, 0)
      case Err(e) => result == Err(e)
      case Ok(n) =>
        && result.Ok? && result.value.asOf == asOf
        && IsExact(result.value, Visited(fetch, n), EffectiveRange(from, requestedTo, asOf))
  {
    hide ParsePage, Agrees, IsExact;
    var r := EffectiveRange(from, requestedTo, asOf);
    var t := EmptyTally();
    EmptyAgrees(r);
    var pageNumber := 0;
    while true
      invariant Agrees(t, Visited(fetch, pageNumber), r)
      invariant PagesRead(fetch, clock, maxPages, maxScanMs, 0)
             == PagesRead(fetch, clock, maxPages, maxScanMs, pageNumber)
      decreases maxPages - pageNumber
    {
      if pageNumber >= maxPages || clock(pageNumber) > maxScanMs {
        return Err(ScanLimit);
      }
      match ParsePage(fetch(pageNumber)) {
        case Err(e) =>
          return Err(e);
        case Ok(items) =>
          t := TallyPage(t, items, Visited(fetch, pageNumber), r);
          pageNumber := pageNumber + 1;
          if |items| < PAGE_SIZE {
            break;
          }
      }
    }
    var a := Report(t, Visited(fetch, pageNumber), r, asOf);
    result := Ok(a);
  }

  // ---------------------------------------------------------------- major units

  /** Reads back a decimal amount in subunits. */
  function ParseMajor(s: string): Option<int> {
    var negative := s != [] && s[0] == '-';
    var t := if negative then s[1..] else s;
    if |t| < 4 || t[|t| - 3] != '.' || !D.AllDigits(t[..|t| - 3]) || !D.AllDigits(t[|t| - 2..]) then None
    else
      var absolute := D.Parse(t[..|t| - 3]) * 100 + D.Parse(t[|t| - 2..]);
      Some(if negative then 0 - absolute else absolute)
  }

  /** The printed major amount loses nothing, for every bigint. */
  lemma MajorAmountRoundTrip(subunits: int)
    ensures ParseMajor(MajorAmount(subunits)) == Some(subunits)
  {
    hide D.ToString, D.Pad, D.Parse, D.AllDigits, D.Pow10;
    var absolute := if subunits < 0 then -subunits else subunits;
    var whole, cents := D.ToString(absolute / 100), D.Pad(absolute % 100, 2);
    D.ParseToString(absolute / 100);
    D.Powers();
    D.ParsePad(absolute % 100, 2);
    DecimalParts(whole, cents);
    var t := whole + "." + cents;
    if subunits < 0 { assert MajorAmount(subunits) == "-" + t && ("-" + t)[1..] == t; }
    else { assert MajorAmount(subunits) == t; }
  }

  lemma DecimalParts(whole: string, cents: string)
    requires |whole| > 0 && D.AllDigits(whole) && |cents| == 2
    ensures var t := whole + "." + cents;
      |t| >= 4 && t[..|t| - 3] == whole && t[|t| - 2..] == cents && t[|t| - 3] == '.' && t[0] != '-'
  {
  }

  // ---------------------------------------------------------------- what the figures say

  lemma {:induction false} CollectedNonNegative(all: seq<Payment>, r: Range, c: string)
    ensures Collected(all, r, AmountIn(c)) >= 0
  {
    hide Relevant;
    if all != [] { CollectedNonNegative(all[..|all| - 1], r, c); }
  }

  /** A bucket's subunits are the digits of the amount, and its major amount reads back to the same. */
  lemma BucketReads(c: string, t: Total)
    requires t.amount >= 0
    ensures var b := BucketOf(c, t);
      && b.currency == c && b.paymentCount == t.count
      && D.AllDigits(b.amountSubunits) && D.Parse(b.amountSubunits) == t.amount
      && ParseMajor(b.amountMajor) == Some(t.amount)
  {
    D.ParseToString(t.amount);
    MajorAmountRoundTrip(t.amount);
    hide ParseMajor, MajorAmount, D.Parse, D.ToString, D.AllDigits;
  }

  /** Read as numbers, the figures of every bucket of an exact amount are the collected sums: the subunits, the
      major amount and the count; and with one currency the headline shows that bucket's figures. */
  lemma FiguresAreSums(a: Amount, all: seq<Payment>, r: Range, i: nat)
    requires IsExact(a, all, r) && i < |a.buckets|
    ensures var b := a.buckets[i]; var amount := Collected(all, r, AmountIn(b.currency));
      && D.AllDigits(b.amountSubunits) && D.Parse(b.amountSubunits) == amount
      && ParseMajor(b.amountMajor) == Some(amount)
      && b.paymentCount == Collected(all, r, CountIn(b.currency))
      && (|a.buckets| == 1 ==> a.amountSubunits == Some(b.amountSubunits) && a.amountMajor == Some(b.amountMajor)
                               && a.currency == Some(b.currency))
  {
    var c := a.buckets[i].currency;
    assert IsBucket(a.buckets[i], all, r);
    CollectedNonNegative(all, r, c);
    BucketReads(c, Total(Collected(all, r, AmountIn(c)), Collected(all, r, CountIn(c))));
    hide Collected, BucketOf, ParseMajor, D.Parse, D.AllDigits, SumBuckets;
  }

  /** What one more payment adds: its weight if its id is new, it is captured, and its creation second lies at
      or after the start and before the end of the range. */
  lemma PaymentCounts(all: seq<Payment>, p: Payment, r: Range, w: Payment -> int)
    ensures Collected(all + [p], r, w) == Collected(all, r, w) + (
      if (forall j :: 0 <= j < |all| ==> all[j].id != p.id) && p.captured
         && (r.from.None? || r.from.value <= p.createdAt * 1000) && p.createdAt * 1000 < r.to
      then w(p) else 0)
    ensures Collected([], r, w) == 0
  {
    CollectedSnoc(all, p, r, w);
  }

  /** Ranges that meet share no payment and lose none. */
  lemma {:induction false} AdjacentRangesAdd(all: seq<Payment>, from: Option<int>, mid: int, to: int, w: Payment -> int)
    requires mid <= to && (from.Some? ==> from.value <= mid)
    ensures Collected(all, Range(from, to), w)
         == Collected(all, Range(from, mid), w) + Collected(all, Range(Some(mid), to), w)
  {
    if all != [] { AdjacentRangesAdd(all[..|all| - 1], from, mid, to, w); }
  }

  /** The range of a scan ends where it was asked to, or at `asOf` if that is earlier. */
  lemma RangeEnds(from: Option<int>, requestedTo: Option<int>, asOf: int)
    ensures var r := EffectiveRange(from, requestedTo, asOf);
      && r.from == from && r.to <= asOf && (requestedTo.Some? ==> r.to <= requestedTo.value)
      && (r.to == asOf || requestedTo == Some(r.to))
  {
  }

  predicate IsSound(e: Entry) { e.Entry? && 0 <= e.amount < 0x20_0000_0000_0000 }

  predicate Describes(e: Entry, p: Payment) {
    && e.Entry? && p.id == e.id && p.amount == e.amount && p.currency == Upper(e.currency)
    && p.captured == e.captured && p.createdAt == e.createdAt
  }

  /** A page is read exactly if every entry is a payment with an amount from 0 to 2^53 - 1; its payments are the
      entries in order, with the currency in capitals. Anything else is malformed. */
  lemma {:induction false} PageRead(entries: seq<Entry>)
    ensures var parsed := ParsePage(Entries(entries));
      && (parsed.Ok? <==> forall i :: 0 <= i < |entries| ==> IsSound(entries[i]))
      && (parsed.Ok? ==> |parsed.value| == |entries|)
      && (parsed.Ok? ==> forall i :: 0 <= i < |entries| ==> Describes(entries[i], parsed.value[i]))
      && (parsed.Err? ==> parsed.error == Malformed)
    ensures ParsePage(NotAPage) == Err(Malformed)
  {
    hide Upper;
    if entries != [] {
      var front := entries[..|entries| - 1];
      PageRead(front);
      assert entries == front + [entries[|entries| - 1]];
    }
  }

  lemma CapitalsOnly(s: string)
    ensures |Upper(s)| == |s| && Upper("inr") == "INR"
    ensures forall i :: 0 <= i < |s| ==>
      !('a' <= Upper(s)[i] <= 'z') && (Upper(s)[i] == s[i] || Upper(s)[i] as int + 32 == s[i] as int)
  {
  }

  /** The pages before `k` were all in time and full. */
  ghost predicate FullBefore(fetch: nat -> Fetched, clock: nat -> int, maxScanMs: int, k: nat) {
    forall j :: 0 <= j < k ==> clock(j) <= maxScanMs && ParsePage(fetch(j)).Ok? && |ParsePage(fetch(j)).value| >= 100
  }

  /** How a scan ends. It succeeds after `n` pages exactly if the first `n - 1` are full, that is, of 100 entries or
      more, the `n`-th is short, and page and time limits were kept throughout. It fails for a limit, or with
      the failure of the page, at the first request where that happens. */
  lemma {:induction false} HowScansEnd(fetch: nat -> Fetched, clock: nat -> int, maxPages: int, maxScanMs: int, n: nat)
    requires FullBefore(fetch, clock, maxScanMs, n) && n <= Max(0, maxPages)
    ensures var result := PagesRead(fetch, clock, maxPages, maxScanMs, 0);
      && (n >= maxPages || clock(n) > maxScanMs ==> result == Err(ScanLimit))
      && (n < maxPages && clock(n) <= maxScanMs ==> match ParsePage(fetch(n))
            case Err(e) => result == Err(e)
            case Ok(items) => |items| < 100 ==> result == Ok(n + 1))
  {
    SkipFullPages(fetch, clock, maxPages, maxScanMs, 0, n);
    hide ParsePage;
  }

  lemma {:induction false} SkipFullPages(fetch: nat -> Fetched, clock: nat -> int, maxPages: int, maxScanMs: int,
                                         k: nat, n: nat)
    requires FullBefore(fetch, clock, maxScanMs, n) && k <= n <= Max(0, maxPages)
    ensures PagesRead(fetch, clock, maxPages, maxScanMs, k) == PagesRead(fetch, clock, maxPages, maxScanMs, n)
    decreases n - k
  {
    hide ParsePage;
    if k < n { SkipFullPages(fetch, clock, maxPages, maxScanMs, k + 1, n); }
  }

  /** Every scan does end at such a request. */
  lemma {:induction false} ScansEnd(fetch: nat -> Fetched, clock: nat -> int, maxPages: int, maxScanMs: int, k: nat)
    requires FullBefore(fetch, clock, maxScanMs, k) && k <= Max(0, maxPages)
    ensures exists n: nat :: EndsAt(fetch, clock, maxPages, maxScanMs, n)
    decreases maxPages - k
  {
    hide ParsePage;
    if k < maxPages && clock(k) <= maxScanMs && ParsePage(fetch(k)).Ok? && |ParsePage(fetch(k)).value| >= 100 {
      ScansEnd(fetch, clock, maxPages, maxScanMs, k + 1);
    } else {
      assert EndsAt(fetch, clock, maxPages, maxScanMs, k);
    }
  }

  ghost predicate EndsAt(fetch: nat -> Fetched, clock: nat -> int, maxPages: int, maxScanMs: int, n: nat) {
    && FullBefore(fetch, clock, maxScanMs, n) && n <= Max(0, maxPages)
    && (n >= maxPages || clock(n) > maxScanMs || ParsePage(fetch(n)).Err? || |ParsePage(fetch(n)).value| < 100)
  }
}
