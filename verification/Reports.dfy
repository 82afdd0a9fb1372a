/** Bucketed admin reports (src/modules/admin/admin-dashboard.service.ts and
    src/modules/admin/admin-analytics.service.ts) against the totals they split up.
    Amounts are JavaScript numbers, modelled without rounding. */
module Reports {
  import opened Basics
  import opened Calendar
  import opened IstTime
  import D = Decimal

  // ---------------------------------------------------------------- sums

  function Total<R>(rows: seq<R>, w: R -> real): real {
    if rows == [] then 0.0 else Total(rows[..|rows| - 1], w) + w(rows[|rows| - 1])
  }

  /** What one row adds under key `k`. */
  function Share<R>(row: R, key: R -> string, w: R -> real, k: string): real {
    if key(row) == k then w(row) else 0.0
  }

  function TotalAt<R>(rows: seq<R>, key: R -> string, w: R -> real, k: string): real {
    if rows == [] then 0.0
    else TotalAt(rows[..|rows| - 1], key, w, k) + Share(rows[|rows| - 1], key, w, k)
  }

  function Sum(xs: seq<real>): real {
    if xs == [] then 0.0 else Sum(xs[..|xs| - 1]) + xs[|xs| - 1]
  }

  function Filter<R>(rows: seq<R>, p: R -> bool): (kept: seq<R>)
    ensures forall i :: 0 <= i < |kept| ==> kept[i] in rows && p(kept[i])
  {
    if rows == [] then []
    else Filter(rows[..|rows| - 1], p) + if p(rows[|rows| - 1]) then [rows[|rows| - 1]] else []
  }

  ghost predicate Distinct<T(!new)>(xs: seq<T>) {
    forall i, j :: 0 <= i < j < |xs| ==> xs[i] != xs[j]
  }

  /** One row is shared out to exactly one of distinct keys. */
  lemma {:induction false} OneShare<R>(row: R, key: R -> string, w: R -> real, ks: seq<string>)
    requires Distinct(ks)
    ensures Sum(seq(|ks|, i requires 0 <= i < |ks| => Share(row, key, w, ks[i])))
         == if key(row) in ks then w(row) else 0.0
  {
    var shares := seq(|ks|, i requires 0 <= i < |ks| => Share(row, key, w, ks[i]));
    if ks != [] {
      var front := ks[..|ks| - 1];
      OneShare(row, key, w, front);
      assert shares[..|ks| - 1] == seq(|front|, i requires 0 <= i < |front| => Share(row, key, w, front[i]));
      assert ks == front + [ks[|ks| - 1]];
    }
  }

  lemma {:induction false} SumAdds(xs: seq<real>, ys: seq<real>, zs: seq<real>)
    requires |xs| == |ys| == |zs| && forall i :: 0 <= i < |zs| ==> zs[i] == xs[i] + ys[i]
    ensures Sum(zs) == Sum(xs) + Sum(ys)
  {
    if zs != [] {
      var n := |zs| - 1;
      SumAdds(xs[..n], ys[..n], zs[..n]);
    }
  }

  lemma {:induction false} SumSubtracts(xs: seq<real>, ys: seq<real>, zs: seq<real>)
    requires |xs| == |ys| == |zs| && forall i :: 0 <= i < |zs| ==> zs[i] == xs[i] - ys[i]
    ensures Sum(zs) == Sum(xs) - Sum(ys)
  {
    if zs != [] {
      var n := |zs| - 1;
      SumSubtracts(xs[..n], ys[..n], zs[..n]);
    }
  }

  lemma {:induction false} SumZero(xs: seq<real>)
    requires forall i :: 0 <= i < |xs| ==> xs[i] == 0.0
    ensures Sum(xs) == 0.0
  {
    if xs != [] { SumZero(xs[..|xs| - 1]); }
  }

  function TotalsAt<R>(rows: seq<R>, key: R -> string, w: R -> real, ks: seq<string>): (ts: seq<real>)
    ensures |ts| == |ks| && forall i :: 0 <= i < |ks| ==> ts[i] == TotalAt(rows, key, w, ks[i])
  {
    seq(|ks|, i requires 0 <= i < |ks| => TotalAt(rows, key, w, ks[i]))
  }

  /** Buckets with distinct keys that cover every row split the total without loss or overlap. */
  lemma {:induction false} BucketsSplitTotal<R>(rows: seq<R>, key: R -> string, w: R -> real, ks: seq<string>)
    requires Distinct(ks) && forall i :: 0 <= i < |rows| ==> key(rows[i]) in ks
    ensures Sum(TotalsAt(rows, key, w, ks)) == Total(rows, w)
  {
    if rows == [] {
      SumZero(TotalsAt(rows, key, w, ks));
    } else {
      var n := |rows| - 1;
      BucketsSplitTotal(rows[..n], key, w, ks);
      var shares := seq(|ks|, i requires 0 <= i < |ks| => Share(rows[n], key, w, ks[i]));
      SumAdds(TotalsAt(rows[..n], key, w, ks), shares, TotalsAt(rows, key, w, ks));
      OneShare(rows[n], key, w, ks);
    }
  }

  /** Grouping by key agrees with filtering by any test that holds of the same rows. */
  lemma {:induction false} GroupIsFilter<R>(rows: seq<R>, key: R -> string, w: R -> real, k: string, p: R -> bool)
    requires forall i :: 0 <= i < |rows| ==> (key(rows[i]) == k <==> p(rows[i]))
    ensures TotalAt(rows, key, w, k) == Total(Filter(rows, p), w)
  {
    if rows != [] {
      var n := |rows| - 1;
      GroupIsFilter(rows[..n], key, w, k, p);
      var kept := Filter(rows[..n], p);
      if p(rows[n]) { assert (kept + [rows[n]])[..|kept|] == kept; }
      else { assert kept + [] == kept; }
    }
  }

  /** A total does not depend on the order of the rows. */
  lemma {:induction false} TotalOfPermutation<R>(xs: seq<R>, ys: seq<R>, w: R -> real)
    requires multiset(xs) == multiset(ys)
    ensures Total(xs, w) == Total(ys, w)
  {
    if xs == [] {
      assert |multiset(ys)| == 0;
    } else {
      var n := |xs| - 1;
      var i := Locate(xs, ys);
      TotalOfPermutation(xs[..n], ys[..i] + ys[i + 1..], w);
      TotalWithout(ys, i, w);
    }
  }

  /** Where the last row of `xs` sits in a permutation of `xs`, and what is left without it. */
  lemma Locate<R>(xs: seq<R>, ys: seq<R>) returns (i: nat)
    requires xs != [] && multiset(xs) == multiset(ys)
    ensures i < |ys| && ys[i] == xs[|xs| - 1]
    ensures multiset(ys[..i] + ys[i + 1..]) == multiset(xs[..|xs| - 1])
  {
    var x := xs[|xs| - 1];
    assert x in multiset(ys);
    i :| 0 <= i < |ys| && ys[i] == x;
    SplitOff(xs, |xs| - 1);
    SplitOff(ys, i);
    assert xs[..|xs| - 1] + xs[|xs| - 1 + 1..] == xs[..|xs| - 1];
  }

  lemma SplitOff<R>(ys: seq<R>, i: nat)
    requires i < |ys|
    ensures multiset(ys[..i] + ys[i + 1..]) == multiset(ys) - multiset{ys[i]}
  {
    assert ys == ys[..i] + [ys[i]] + ys[i + 1..];
  }

  lemma {:induction false} TotalWithout<R>(ys: seq<R>, i: nat, w: R -> real)
    requires i < |ys|
    ensures Total(ys, w) == Total(ys[..i] + ys[i + 1..], w) + w(ys[i])
  {
    var n := |ys| - 1;
    if i == n {
      assert ys[..i] + ys[i + 1..] == ys[..n];
    } else {
      TotalWithout(ys[..n], i, w);
      var rest := ys[..i] + ys[i + 1..];
      assert rest[..|rest| - 1] == ys[..n][..i] + ys[..n][i + 1..];
    }
  }

  // ---------------------------------------------------------------- day and hour keys as buckets

  lemma DayRunDistinct(keys: seq<string>, a: int, b: int)
    requires IsDayRun(keys, a, b) && Keyed(a) && Keyed(b - 1)
    ensures Distinct(keys)
  {
    hide KeyOfDay, Keyed;
    forall i, j | 0 <= i < j < |keys|
      ensures keys[i] != keys[j]
    {
      KeyedBetween(a, b - 1);
      ParseDayOfDay(a + i);
      ParseDayOfDay(a + j);
    }
  }

  lemma DayRunHolds(keys: seq<string>, a: int, b: int, n: int)
    requires IsDayRun(keys, a, b) && a <= n < b
    ensures KeyOfDay(n) in keys
  {
    assert keys[n - a] == KeyOfDay(n);
  }

  // ---------------------------------------------------------------- wallet flow

  datatype CoinRow = CoinRow(createdAt: int, completed: bool, isCredit: bool, coins: real)

  datatype Flow = Flow(credit: real, debit: real)

  function CoinKey(r: CoinRow): string { DateKey(r.createdAt) }

  function CreditOf(r: CoinRow): real { if r.isCredit then r.coins else 0.0 }

  function DebitOf(r: CoinRow): real { if r.isCredit then 0.0 else r.coins }

  function InRange(from: int, until: int): CoinRow -> bool {
    (r: CoinRow) => r.completed && from <= r.createdAt < until
  }

  /** The overview's direct figure: completed credits minus completed debits within `[from, until)`. */
  function NetFlow(rows: seq<CoinRow>, from: int, until: int): real {
    Total(Filter(rows, InRange(from, until)), CreditOf) - Total(Filter(rows, InRange(from, until)), DebitOf)
  }

  /** `dashboardWalletFlowSeries` for a selected range: one net figure for each IST day. */
  method WalletFlowSeries(rows: seq<CoinRow>, from: int, until: int) returns (keys: seq<string>, nets: seq<real>)
    requires Keyed(IstDay(from)) && Keyed(IstDay(until - 1))
    ensures IsDayRun(keys, IstDay(from), IstDay(until - 1) + 1) && |nets| == |keys|
    ensures Sum(nets) == NetFlow(rows, from, until)
    ensures forall i :: 0 <= i < |keys| ==>
      nets[i] == NetAt(Filter(rows, InRange(from, until)), keys[i])
  {
    hide KeyOfDay, IstDay, Keyed, ParseDay, TotalAt, IsEndKey, LastDay, IsKeyList, D.StrLessEq;
    var matched := Filter(rows, InRange(from, until));
    var byDate := GroupFlows(matched);
    DayKeyIff(IstDay(from));
    DayKeyIff(IstDay(until - 1));
    var listed := IterDateKeys(DateKey(from), DateKey(until - 1));
    keys := listed.value;
    nets := [];
    for i := 0 to |keys|
      invariant |nets| == i
      invariant forall j :: 0 <= j < i ==> nets[j] == NetAt(matched, keys[j])
    {
      var entry := if keys[i] in byDate then byDate[keys[i]] else Flow(0.0, 0.0);
      nets := nets + [entry.credit - entry.debit];
    }
    FlowNetsSum(rows, keys, nets, from, until);
  }

  function FlowAt(matched: seq<CoinRow>, k: string): Flow {
    Flow(TotalAt(matched, CoinKey, CreditOf, k), TotalAt(matched, CoinKey, DebitOf, k))
  }

  function NetAt(matched: seq<CoinRow>, k: string): real {
    FlowAt(matched, k).credit - FlowAt(matched, k).debit
  }

  /** The `byDate` map, with absent days standing for no flow. */
  method GroupFlows(matched: seq<CoinRow>) returns (byDate: map<string, Flow>)
    ensures forall k :: (if k in byDate then byDate[k] else Flow(0.0, 0.0)) == FlowAt(matched, k)
  {
    hide CoinKey;
    byDate := map[];
    for i := 0 to |matched|
      invariant forall k :: (if k in byDate then byDate[k] else Flow(0.0, 0.0)) == FlowAt(matched[..i], k)
    {
      var row := matched[i];
      var date := CoinKey(row);
      var entry := if date in byDate then byDate[date] else Flow(0.0, 0.0);
      if row.isCredit {
        entry := entry.(credit := entry.credit + row.coins);
      } else {
        entry := entry.(debit := entry.debit + row.coins);
      }
      byDate := byDate[date := entry];
      assert matched[..i + 1][..i] == matched[..i];
    }
    assert matched[..|matched|] == matched;
  }

  lemma FlowNetsSum(rows: seq<CoinRow>, keys: seq<string>, nets: seq<real>, from: int, until: int)
    requires Keyed(IstDay(from)) && Keyed(IstDay(until - 1))
    requires IsDayRun(keys, IstDay(from), IstDay(until - 1) + 1) && |nets| == |keys|
    requires forall i :: 0 <= i < |keys| ==> nets[i] == NetAt(Filter(rows, InRange(from, until)), keys[i])
    ensures Sum(nets) == NetFlow(rows, from, until)
  {
    hide KeyOfDay, IstDay, Keyed, TotalAt, Total, Sum;
    var matched := Filter(rows, InRange(from, until));
    forall i | 0 <= i < |matched|
      ensures CoinKey(matched[i]) in keys
    {
      DayMonotone(from, matched[i].createdAt);
      DayMonotone(matched[i].createdAt, until - 1);
      DayRunHolds(keys, IstDay(from), IstDay(until - 1) + 1, IstDay(matched[i].createdAt));
    }
    DayRunDistinct(keys, IstDay(from), IstDay(until - 1) + 1);
    BucketsSplitTotal(matched, CoinKey, CreditOf, keys);
    BucketsSplitTotal(matched, CoinKey, DebitOf, keys);
    SumSubtracts(TotalsAt(matched, CoinKey, CreditOf, keys), TotalsAt(matched, CoinKey, DebitOf, keys), nets);
  }

  lemma DayMonotone(s: int, t: int)
    requires s <= t
    ensures IstDay(s) <= IstDay(t)
  {
  }

  // ---------------------------------------------------------------- signups

  function One(t: int): real { 1.0 }

  function Within(from: int, until: int): int -> bool { (t: int) => from <= t <= until }

  /** The map that `$group` with a count per bucket key produces. */
  method CountByKey(times: seq<int>, key: int -> string) returns (counts: map<string, real>)
    ensures forall k :: k in counts ==> counts[k] == TotalAt(times, key, One, k)
    ensures forall k :: k !in counts ==> TotalAt(times, key, One, k) == 0.0
  {
    counts := map[];
    for i := 0 to |times|
      invariant forall k :: k in counts ==> counts[k] == TotalAt(times[..i], key, One, k)
      invariant forall k :: k !in counts ==> TotalAt(times[..i], key, One, k) == 0.0
    {
      var k := key(times[i]);
      counts := counts[k := (if k in counts then counts[k] else 0.0) + 1.0];
      assert times[..i + 1][..i] == times[..i];
    }
    assert times[..|times|] == times;
  }

  /** `usersSignupSeriesPayload` per IST day: the points add up to the number of rows matched. */
  method DailySignups(signups: seq<int>, from: int, until: int) returns (keys: seq<string>, points: seq<real>)
    requires Keyed(IstDay(from)) && Keyed(IstDay(until))
    ensures IsDayRun(keys, IstDay(from), IstDay(until) + 1) && |points| == |keys|
    ensures Sum(points) == Total(Filter(signups, Within(from, until)), One)
    ensures forall i :: 0 <= i < |keys| ==>
      points[i] == TotalAt(Filter(signups, Within(from, until)), DateKey, One, keys[i])
  {
    hide KeyOfDay, IstDay, Keyed, ParseDay, DateKey, IsEndKey, LastDay, IsKeyList, D.StrLessEq;
    var matched := Filter(signups, Within(from, until));
    var counts := CountByKey(matched, DateKey);
    DayKeyIff(IstDay(from));
    DayKeyIff(IstDay(until));
    DateKeyIs(from);
    DateKeyIs(until);
    var listed := IterDateKeys(DateKey(from), DateKey(until));
    keys := listed.value;
    points := LookUp(keys, counts, matched, DateKey);
    forall i | 0 <= i < |matched|
      ensures DateKey(matched[i]) in keys
    {
      DayMonotone(from, matched[i]);
      DayMonotone(matched[i], until);
      DateKeyIs(matched[i]);
      DayRunHolds(keys, IstDay(from), IstDay(until) + 1, IstDay(matched[i]));
    }
    DayRunDistinct(keys, IstDay(from), IstDay(until) + 1);
    BucketsSplitTotal(matched, DateKey, One, keys);
    assert points == TotalsAt(matched, DateKey, One, keys);
  }

  lemma DateKeyIs(t: int)
    ensures DateKey(t) == KeyOfDay(IstDay(t))
  {
  }

  /** The map from bucket definitions to points, absent keys counting 0. */
  method LookUp(keys: seq<string>, counts: map<string, real>, ghost times: seq<int>, ghost key: int -> string)
    returns (points: seq<real>)
    requires forall k :: k in counts ==> counts[k] == TotalAt(times, key, One, k)
    requires forall k :: k !in counts ==> TotalAt(times, key, One, k) == 0.0
    ensures |points| == |keys|
    ensures forall i :: 0 <= i < |keys| ==> points[i] == TotalAt(times, key, One, keys[i])
  {
    points := [];
    for i := 0 to |keys|
      invariant |points| == i && forall j :: 0 <= j < i ==> points[j] == TotalAt(times, key, One, keys[j])
    {
      points := points + [if keys[i] in counts then counts[keys[i]] else 0.0];
    }
  }

  /** `usersSignupSeriesPayload` per IST hour. */
  method HourlySignups(signups: seq<int>, from: int, until: int)
    returns (buckets: seq<HourBucket>, points: seq<real>)
    requires Keyed(IstDay(from)) && Keyed(IstDay(until))
    ensures |points| == |buckets| == Max(0, IstHour(until) - IstHour(from) + 1)
    ensures forall i :: 0 <= i < |buckets| ==> IsHourBucket(buckets[i], IstHour(from) + i)
    ensures Sum(points) == Total(Filter(signups, Within(from, until)), One)
    ensures forall i :: 0 <= i < |buckets| ==>
      points[i] == TotalAt(Filter(signups, Within(from, until)), HourKey, One, buckets[i].key)
  {
    hide HourKey, IstDay, Keyed, IstHour;
    var matched := Filter(signups, Within(from, until));
    var counts := CountByKey(matched, HourKey);
    buckets := IterHourBuckets(from, until);
    var keys := [];
    for i := 0 to |buckets|
      invariant |keys| == i && forall j :: 0 <= j < i ==> keys[j] == buckets[j].key
    {
      keys := keys + [buckets[i].key];
    }
    points := LookUp(keys, counts, matched, HourKey);
    HourKeysDistinct(buckets, keys, IstHour(from));
    forall i | 0 <= i < |matched|
      ensures HourKey(matched[i]) in keys
    {
      InstantHasBucket(buckets, from, until, matched[i]);
      var j := IstHour(matched[i]) - IstHour(from);
      assert keys[j] == HourKey(matched[i]);
    }
    BucketsSplitTotal(matched, HourKey, One, keys);
    assert points == TotalsAt(matched, HourKey, One, keys);
  }

  lemma HourKeysDistinct(buckets: seq<HourBucket>, keys: seq<string>, h: int)
    requires forall i :: 0 <= i < |buckets| ==> IsHourBucket(buckets[i], h + i)
    requires |keys| == |buckets| && forall i :: 0 <= i < |keys| ==> keys[i] == buckets[i].key
    ensures Distinct(keys)
  {
    hide HourKey, IstDay, Keyed, IstHour;
    forall i, j | 0 <= i < j < |keys|
      ensures keys[i] != keys[j]
    {
      HourKeyIff(buckets[i].start, buckets[j].start);
    }
  }

  /** Every instant of the range has exactly one generated hour bucket, in spite of the
      half-hour offset. */
  lemma InstantHasBucket(buckets: seq<HourBucket>, from: int, until: int, t: int)
    requires Keyed(IstDay(from)) && Keyed(IstDay(until)) && from <= t <= until
    requires |buckets| == Max(0, IstHour(until) - IstHour(from) + 1)
    requires forall i :: 0 <= i < |buckets| ==> IsHourBucket(buckets[i], IstHour(from) + i)
    ensures 0 <= IstHour(t) - IstHour(from) < |buckets|
    ensures forall i :: 0 <= i < |buckets| ==>
      (buckets[i].key == HourKey(t) <==> i == IstHour(t) - IstHour(from))
  {
    HoursOrdered(from, t);
    HoursOrdered(t, until);
    hide HourKey, IstDay, IstHour, Keyed;
    DayMonotone(from, t);
    DayMonotone(t, until);
    KeyedBetween(IstDay(from), IstDay(until));
    forall i | 0 <= i < |buckets|
      ensures buckets[i].key == HourKey(t) <==> i == IstHour(t) - IstHour(from)
    {
      HourKeyIff(buckets[i].start, t);
    }
  }

  lemma HoursOrdered(s: int, t: int)
    requires s <= t
    ensures IstHour(s) <= IstHour(t)
  {
  }

  // ---------------------------------------------------------------- recharges

  datatype RechargeRow = RechargeRow(updatedAt: int, coins: real, priceInr: real, parsedInr: real)

  datatype RechargePoint = RechargePoint(inr: real, coins: real, count: real)

  /** `rechargeInrFromRow`; `parsedInr` is what the description parser finds. */
  function InrOf(r: RechargeRow): real {
    if r.priceInr > 0.0 then r.priceInr else if r.parsedInr > 0.0 then r.parsedInr else 0.0
  }

  function CoinsOf(r: RechargeRow): real { r.coins }

  function OneRow(r: RechargeRow): real { 1.0 }

  function RechargeKey(r: RechargeRow): string { DateKey(r.updatedAt) }

  function UpdatedWithin(b: Bounds): RechargeRow -> bool {
    (r: RechargeRow) => b.start <= r.updatedAt < b.end
  }

  function UpdatedSince(start: int): RechargeRow -> bool { (r: RechargeRow) => start <= r.updatedAt }

  /** The rows of one IST day, filtered by the day's bounds. */
  function DayRows(rows: seq<RechargeRow>, n: int): seq<RechargeRow> {
    Filter(rows, UpdatedWithin(Bounds(DayStart(n), DayStart(n) + MS_PER_DAY)))
  }

  function PointOf(day: seq<RechargeRow>): RechargePoint {
    RechargePoint(Total(day, InrOf), Total(day, CoinsOf), Total(day, OneRow))
  }

  function PointAt(matched: seq<RechargeRow>, k: string): RechargePoint {
    RechargePoint(TotalAt(matched, RechargeKey, InrOf, k), TotalAt(matched, RechargeKey, CoinsOf, k),
                  TotalAt(matched, RechargeKey, OneRow, k))
  }

  /** `sumRechargeInrForIstDay` */
  method SumRechargeInrForDay(rows: seq<RechargeRow>, key: string) returns (total: Result<real>)
    ensures total == match ParseDay(key)
      case Ok(n) => Ok(PointOf(DayRows(rows, n)).inr)
      case Invalid => Invalid
  {
    hide ParseDay;
    match DayBounds(key)
    case Invalid =>
      total := Invalid;
    case Ok(b) =>
      var matched := Filter(rows, UpdatedWithin(b));
      var sum := 0.0;
      for i := 0 to |matched|
        invariant sum == Total(matched[..i], InrOf)
      {
        sum := sum + InrOf(matched[i]);
        assert matched[..i + 1][..i] == matched[..i];
      }
      assert matched[..|matched|] == matched;
      total := Ok(sum);
  }

  /** `dashboardRechargeDailySeries`: each point equals what filtering by that day's bounds gives. */
  method RechargeDailySeries(rows: seq<RechargeRow>, days: int, now: int)
    returns (keys: seq<string>, points: seq<RechargePoint>)
    requires Keyed(IstDay(now)) && Keyed(IstDay(now) - 89)
    ensures |points| == |keys| == Min(90, Max(1, days))
    ensures IsDayRun(keys, IstDay(now) - |keys| + 1, IstDay(now) + 1)
    ensures forall i :: 0 <= i < |keys| ==>
      points[i] == PointOf(DayRows(rows, IstDay(now) - |keys| + 1 + i))
  {
    hide KeyOfDay, IstDay, Keyed, ParseDay, DayRows, PointOf, PointAt;
    var historyDays := Min(90, Max(1, days));
    keys := DateKeysLastNDays(historyDays, now);
    ghost var first := IstDay(now) - |keys| + 1;
    KeyedBetween(IstDay(now) - 89, IstDay(now));
    ParseDayOfDay(first);
    var windowStart := DayBounds(keys[0]).value.start;
    var matched := Filter(rows, UpdatedSince(windowStart));
    var byDate := GroupRecharges(matched);
    points := [];
    for i := 0 to |keys|
      invariant |points| == i
      invariant forall j :: 0 <= j < i ==> points[j] == PointOf(DayRows(rows, first + j))
    {
      var entry := if keys[i] in byDate then byDate[keys[i]] else RechargePoint(0.0, 0.0, 0.0);
      points := points + [entry];
      DayPoint(rows, first, first + i);
    }
  }

  /** `dashboardRechargeTransactionsForDay`: its totals are those of the day's rows, in whatever
      order the sorted query lists them. */
  method RechargeTransactionsForDay(rows: seq<RechargeRow>, key: string, listing: seq<RechargeRow>)
    returns (total: Result<RechargePoint>)
    requires ParseDay(key).Ok? ==> multiset(listing) == multiset(DayRows(rows, ParseDay(key).value))
    ensures total == if IsValidDateKey(key) then Ok(PointOf(DayRows(rows, ParseDay(key).value))) else Invalid
  {
    hide ParseDay, DayRows;
    if !IsValidDateKey(key) {
      return Invalid;
    }
    var inr, coins, count := 0.0, 0.0, 0.0;
    for i := 0 to |listing|
      invariant inr == Total(listing[..i], InrOf) && coins == Total(listing[..i], CoinsOf)
      invariant count == Total(listing[..i], OneRow)
    {
      inr, coins, count := inr + InrOf(listing[i]), coins + listing[i].coins, count + 1.0;
      assert listing[..i + 1][..i] == listing[..i];
    }
    assert listing[..|listing|] == listing;
    ghost var day := DayRows(rows, ParseDay(key).value);
    TotalOfPermutation(listing, day, InrOf);
    TotalOfPermutation(listing, day, CoinsOf);
    TotalOfPermutation(listing, day, OneRow);
    total := Ok(RechargePoint(inr, coins, count));
  }

  method GroupRecharges(matched: seq<RechargeRow>) returns (byDate: map<string, RechargePoint>)
    ensures forall k :: (if k in byDate then byDate[k] else RechargePoint(0.0, 0.0, 0.0)) == PointAt(matched, k)
  {
    hide RechargeKey;
    byDate := map[];
    for i := 0 to |matched|
      invariant forall k ::
        (if k in byDate then byDate[k] else RechargePoint(0.0, 0.0, 0.0)) == PointAt(matched[..i], k)
    {
      var row := matched[i];
      var date := RechargeKey(row);
      var entry := if date in byDate then byDate[date] else RechargePoint(0.0, 0.0, 0.0);
      byDate := byDate[date := RechargePoint(entry.inr + InrOf(row), entry.coins + row.coins, entry.count + 1.0)];
      assert matched[..i + 1][..i] == matched[..i];
    }
    assert matched[..|matched|] == matched;
  }

  lemma DayPoint(rows: seq<RechargeRow>, first: int, n: int)
    requires Keyed(first) && first <= n && Keyed(n)
    ensures PointAt(Filter(rows, UpdatedSince(DayStart(first))), KeyOfDay(n)) == PointOf(DayRows(rows, n))
  {
    hide KeyOfDay, Keyed, DayStart, DayRows, Total, TotalAt;
    DayTotal(rows, first, n, InrOf);
    DayTotal(rows, first, n, CoinsOf);
    DayTotal(rows, first, n, OneRow);
  }

  /** Grouping the rows since `first` by key gives day `n` the total of its own bounds. */
  lemma DayTotal(rows: seq<RechargeRow>, first: int, n: int, w: RechargeRow -> real)
    requires Keyed(first) && first <= n && Keyed(n)
    ensures TotalAt(Filter(rows, UpdatedSince(DayStart(first))), RechargeKey, w, KeyOfDay(n))
         == Total(DayRows(rows, n), w)
  {
    hide KeyOfDay, IstDay, Keyed, DayStart;
    var since := UpdatedSince(DayStart(first));
    var within := UpdatedWithin(Bounds(DayStart(n), DayStart(n) + MS_PER_DAY));
    DayStartOrder(first, n);
    SinceThenKey(rows, first, n, w);
    FilterTwice(rows, since, within);
  }

  lemma DayStartOrder(m: int, n: int)
    requires m <= n
    ensures DayStart(m) <= DayStart(n)
  {
  }

  /** A second filter that implies the first makes the first redundant. */
  lemma {:induction false} FilterTwice<R(!new)>(rows: seq<R>, p: R -> bool, q: R -> bool)
    requires forall r :: q(r) ==> p(r)
    ensures Filter(Filter(rows, p), q) == Filter(rows, q)
  {
    if rows != [] {
      var n := |rows| - 1;
      FilterTwice(rows[..n], p, q);
      var kept := Filter(rows[..n], p);
      if p(rows[n]) {
        assert (kept + [rows[n]])[..|kept|] == kept;
      } else {
        assert kept + [] == kept;
      }
    }
  }

  lemma SinceThenKey(rows: seq<RechargeRow>, first: int, n: int, w: RechargeRow -> real)
    requires Keyed(first) && first <= n && Keyed(n)
    ensures var matched := Filter(rows, UpdatedSince(DayStart(first)));
      TotalAt(matched, RechargeKey, w, KeyOfDay(n))
        == Total(Filter(matched, UpdatedWithin(Bounds(DayStart(n), DayStart(n) + MS_PER_DAY))), w)
  {
    hide KeyOfDay, IstDay, Keyed, DayStart;
    var matched := Filter(rows, UpdatedSince(DayStart(first)));
    var within := UpdatedWithin(Bounds(DayStart(n), DayStart(n) + MS_PER_DAY));
    forall i | 0 <= i < |matched|
      ensures RechargeKey(matched[i]) == KeyOfDay(n) <==> within(matched[i])
    {
      DayStartHolds(matched[i].updatedAt, first);
      KeyIsDay(matched[i].updatedAt, n);
      DayOfInstant(matched[i].updatedAt, n);
    }
    GroupIsFilter(matched, RechargeKey, w, KeyOfDay(n), within);
  }

  lemma DayStartHolds(t: int, first: int)
    requires Keyed(first) && DayStart(first) <= t
    ensures DayFromYear(1000) <= IstDay(t)
  {
    hide DayFromYear;
    assert first <= IstDay(t);
  }

  /** From year 1000 on, a key belongs to no instant outside its own day. */
  lemma KeyIsDay(t: int, n: int)
    requires Keyed(n) && DayFromYear(1000) <= IstDay(t)
    ensures DateKey(t) == KeyOfDay(n) <==> IstDay(t) == n
  {
    hide KeyOf, IstDay, Keyed, CivilFromDay, MakeDay, DayFromYear;
    if DateKey(t) == KeyOfDay(n) {
      KeyedYear(n);
      YearFrom1000(IstDay(t));
      ParseDayParts(CivilFromDay(IstDay(t)), CivilFromDay(n));
      CivilThenDay(IstDay(t));
      CivilThenDay(n);
    }
  }

  lemma YearFrom1000(n: int)
    requires DayFromYear(1000) <= n
    ensures CivilFromDay(n).year >= 1000
  {
    hide DayFromYear;
    var y := YearFromDay(n);
    if y + 1 < 1000 { YearOrder(y + 1, 1000); }
  }

  // ---------------------------------------------------------------- what one row adds

  lemma TotalSnoc<R>(rows: seq<R>, row: R, p: R -> bool, w: R -> real)
    ensures Total(Filter(rows + [row], p), w) == Total(Filter(rows, p), w) + if p(row) then w(row) else 0.0
  {
    assert (rows + [row])[..|rows|] == rows;
    var kept := Filter(rows, p);
    assert (kept + [row])[..|kept|] == kept && kept + [] == kept;
  }

  /** A coin row adds its coins to the net flow if it is a completed credit of the range, takes them off if it is
      a completed debit, and otherwise adds nothing; the end of the range is outside it. */
  lemma FlowCounts(rows: seq<CoinRow>, row: CoinRow, from: int, until: int)
    ensures NetFlow(rows + [row], from, until) == NetFlow(rows, from, until) + (
      if !row.completed || row.createdAt < from || row.createdAt >= until then 0.0
      else if row.isCredit then row.coins else 0.0 - row.coins)
    ensures NetFlow([], from, until) == 0.0
  {
    TotalSnoc(rows, row, InRange(from, until), CreditOf);
    TotalSnoc(rows, row, InRange(from, until), DebitOf);
  }

  /** A signup counts 1 if it falls in the range, both ends included. */
  lemma SignupCounts(signups: seq<int>, t: int, from: int, until: int)
    ensures Total(Filter(signups + [t], Within(from, until)), One)
         == Total(Filter(signups, Within(from, until)), One) + if t < from || t > until then 0.0 else 1.0
    ensures Total(Filter([], Within(from, until)), One) == 0.0
  {
    TotalSnoc(signups, t, Within(from, until), One);
  }

  /** The rupees of a recharge: its stored price if that is positive, else what its description tells. */
  lemma RechargePrice(row: RechargeRow)
    ensures row.priceInr > 0.0 ==> InrOf(row) == row.priceInr
    ensures row.priceInr <= 0.0 && row.parsedInr > 0.0 ==> InrOf(row) == row.parsedInr
    ensures InrOf(row) >= 0.0 && (InrOf(row) > 0.0 <==> row.priceInr > 0.0 || row.parsedInr > 0.0)
  {
  }

  /** A recharge adds its rupees, its coins and 1 to the IST day that holds its completion, and to no other. */
  lemma RechargeCounts(rows: seq<RechargeRow>, row: RechargeRow, n: int)
    ensures var before, after := PointOf(DayRows(rows, n)), PointOf(DayRows(rows + [row], n));
      var start := n * 86_400_000 - 19_800_000;
      if start <= row.updatedAt < start + 86_400_000
      then after == RechargePoint(before.inr + InrOf(row), before.coins + row.coins, before.count + 1.0)
      else after == before
  {
    hide Total, Filter, InrOf;
    var within := UpdatedWithin(Bounds(DayStart(n), DayStart(n) + MS_PER_DAY));
    TotalSnoc(rows, row, within, InrOf);
    TotalSnoc(rows, row, within, CoinsOf);
    TotalSnoc(rows, row, within, OneRow);
  }

  lemma NoRecharges(n: int)
    ensures PointOf(DayRows([], n)) == RechargePoint(0.0, 0.0, 0.0)
  {
  }
}
