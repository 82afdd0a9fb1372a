/** ISO 8601 weeks (src/modules/admin/admin-analytics.service.ts), on UTC day numbers. */
module IsoWeek {
  import opened Basics
  import opened Calendar
  import D = Decimal

  /** `getUTCDay() || 7`: Monday is 1 and Sunday is 7. */
  function IsoWeekDay(n: int): (d: int)
    ensures 1 <= d <= 7
  {
    if WeekDay(n) == 0 then 7 else WeekDay(n)
  }

  function Monday(n: int): int { n - IsoWeekDay(n) + 1 }

  function Thursday(n: int): int { n + 4 - IsoWeekDay(n) }

  /** The week-numbering year: the calendar year of the week's Thursday. */
  function IsoYear(n: int): int { YearFromDay(Thursday(n)) }

  function CeilDiv7(a: int): int { (a + 6) / 7 }

  /** `getUtcIsoWeek` */
  function UtcIsoWeek(n: int): int {
    CeilDiv7(Thursday(n) - MakeDay(YearFromDay(Thursday(n)), 0, 1) + 1)
  }

  /** `isoWeekStartUtc` */
  function IsoWeekStart(year: int, week: int): int {
    var jan4 := MakeDay(year, 0, 4);
    jan4 - IsoWeekDay(jan4) + 1 + (week - 1) * 7
  }

  datatype Bucket = Bucket(key: string, startDay: int)

  /** `isoWeekLabel` */
  function WeekLabel(year: int, week: int): string
    requires 0 <= week < 100
  {
    D.IntText(year) + "-W" + D.Pad(week, 2)
  }

  // ---------------------------------------------------------------- week numbers

  lemma JanuaryDays(y: int, d: int)
    ensures MakeDay(y, 0, d) == DayFromYear(y) + d - 1
  {
  }

  /** Where a week's days fall modulo seven. */
  lemma WeekResidues(n: int)
    ensures Thursday(n) % 7 == 0 && Monday(n) == Thursday(n) - 3 && Monday(n) <= n <= Monday(n) + 6
  {
  }

  /** First Thursday of a year that starts on day `s`. */
  lemma FirstThursday(s: int)
    ensures var t := s + 3 - IsoWeekDay(s + 3) + 4; s <= t <= s + 6 && t % 7 == 0
  {
  }

  lemma SameResidue(t: int, f: int, j: int)
    requires t % 7 == 0 && f % 7 == 0 && t == f + j && 0 <= j
    ensures j % 7 == 0
  {
  }

  /** The start computed from week-year and week number is the Monday of the date's own week, and
      weeks are numbered from 1 to 53. */
  lemma WeekStartIsMonday(n: int)
    ensures IsoWeekStart(IsoYear(n), UtcIsoWeek(n)) == Monday(n)
    ensures 1 <= UtcIsoWeek(n) <= 53
  {
    WeekNumber(n);
    WeekResidues(n);
    var y := IsoYear(n);
    hide DayFromYear, MakeDay, IsoYear, IsoWeekDay, IsLeap;
    var s := DayFromYear(y);
    JanuaryDays(y, 4);
    FirstThursday(s);
    var f := s + 3 - IsoWeekDay(s + 3) + 4;
    YearLength(y);
    assert s <= Thursday(n) < s + 366 by { IsoYearSpan(n); }
    FirstInYear(Thursday(n), f, s);
    SameResidue(Thursday(n), f, Thursday(n) - f);
    SevenSteps(Thursday(n), f, s);
  }

  lemma IsoYearSpan(n: int)
    ensures DayFromYear(IsoYear(n)) <= Thursday(n) < DayFromYear(IsoYear(n)) + DaysInYear(IsoYear(n))
  {
    YearLength(IsoYear(n));
  }

  /** The Thursdays of a year never precede its first Thursday. */
  lemma FirstInYear(t: int, f: int, s: int)
    requires t % 7 == 0 && f % 7 == 0 && s <= f <= s + 6 && s <= t
    ensures f <= t
  {
  }

  lemma SevenSteps(t: int, f: int, s: int)
    requires t % 7 == 0 && f % 7 == 0 && s <= f <= s + 6 && f <= t
    ensures 7 * ((t - s) / 7) == t - f
  {
    assert t - s == (t - f) + (f - s);
  }

  lemma WeekNumber(n: int)
    ensures UtcIsoWeek(n) == (Thursday(n) - DayFromYear(IsoYear(n))) / 7 + 1
  {
    hide DayFromYear, MakeDay, YearFromDay, Thursday;
    JanuaryDays(IsoYear(n), 1);
  }

  /** Week-year and week number together name a week: they agree exactly on the days of one week. */
  lemma WeekNamesWeek(m: int, n: int)
    ensures IsoYear(m) == IsoYear(n) && UtcIsoWeek(m) == UtcIsoWeek(n) <==> Monday(m) == Monday(n)
  {
    WeekStartIsMonday(m);
    WeekStartIsMonday(n);
    WeekResidues(m);
    WeekResidues(n);
    hide UtcIsoWeek, IsoWeekStart, IsoWeekDay, YearFromDay;
    if Monday(m) == Monday(n) {
      assert Thursday(m) == Thursday(n);
      SameThursday(m, n);
    }
  }

  lemma SameThursday(m: int, n: int)
    requires Thursday(m) == Thursday(n)
    ensures IsoYear(m) == IsoYear(n) && UtcIsoWeek(m) == UtcIsoWeek(n)
  {
  }

  /** Starts of equally numbered weeks of different years are far apart. */
  lemma {:induction false} StartsDiffer(y: int, z: int, w: int)
    requires y < z
    ensures IsoWeekStart(y, w) + 350 <= IsoWeekStart(z, w)
  {
    hide DayFromYear, MakeDay, IsoWeekDay;
    JanuaryDays(y, 4);
    JanuaryDays(z, 4);
    YearOrder(y, z);
  }

  // ---------------------------------------------------------------- weekly buckets

  /** The key and start that one sampled day contributes; the year is the calendar year. */
  function BucketOf(n: int): Bucket {
    var year := YearFromDay(n);
    WeekStartIsMonday(n);
    Bucket(WeekLabel(year, UtcIsoWeek(n)), IsoWeekStart(year, UtcIsoWeek(n)))
  }

  /** The key under which logins of day `n` are grouped by `$isoWeekYear` and `$isoWeek`. */
  function LoginKey(n: int): string {
    WeekStartIsMonday(n);
    WeekLabel(IsoYear(n), UtcIsoWeek(n))
  }

  predicate HasKey(buckets: seq<Bucket>, key: string) {
    exists i :: 0 <= i < |buckets| && buckets[i].key == key
  }

  /** Buckets of the days `cur`, `cur + 7`, ... up to `end`, the first of each key only. */
  function SampledBuckets(buckets: seq<Bucket>, cur: int, end: int): seq<Bucket>
    decreases end + 7 - cur
  {
    if cur > end then buckets
    else SampledBuckets(if HasKey(buckets, BucketOf(cur).key) then buckets else buckets + [BucketOf(cur)], cur + 7, end)
  }

  function LastTwelve(buckets: seq<Bucket>): seq<Bucket> {
    if |buckets| <= 12 then buckets else buckets[|buckets| - 12..]
  }

  /** The bucket of the `k`-th sampled day. */
  function Sampled(a: int, k: int): Bucket { BucketOf(a + 7 * k) }

  /** The buckets are those of the samples `ks`, each the first with its key, in order. */
  ghost predicate FirstSamples(buckets: seq<Bucket>, ks: seq<nat>, a: int, end: int) {
    && |ks| == |buckets|
    && (forall i :: 0 <= i < |ks| ==> buckets[i] == Sampled(a, ks[i]) && a + 7 * ks[i] <= end)
    && (forall i, j :: 0 <= i < j < |ks| ==> ks[i] < ks[j])
    && (forall i, k :: 0 <= i < |ks| && 0 <= k < ks[i] ==> Sampled(a, k).key != buckets[i].key)
  }

  ghost predicate DistinctKeys(buckets: seq<Bucket>) {
    forall i, j :: 0 <= i < j < |buckets| ==> buckets[i].key != buckets[j].key
  }

  /** The keys of the first `n` samples all have a bucket. */
  ghost predicate CoversSamples(buckets: seq<Bucket>, a: int, n: int) {
    forall k :: 0 <= k < n ==> HasKey(buckets, Sampled(a, k).key)
  }

  /** Number of samples `a`, `a + 7`, ... up to `end`. */
  function Samples(a: int, end: int): int { if a > end then 0 else (end - a) / 7 + 1 }

  /** `iterWeeklyBuckets`, for every range: at most twelve buckets with distinct keys, each the one of the
      first sampled day with its key, in order of the samples; with fewer than twelve, every sampled
      day's key is there. */
  method IterWeeklyBuckets(from: int, until: int) returns (result: seq<Bucket>)
    ensures result == LastTwelve(SampledBuckets([], from / MS_PER_DAY, until / MS_PER_DAY))
    ensures var all := SampledBuckets([], from / MS_PER_DAY, until / MS_PER_DAY);
      |result| == Min(12, |all|) && result == all[|all| - |result|..]
    ensures |result| <= 12 && DistinctKeys(result)
    ensures exists ks :: FirstSamples(result, ks, from / MS_PER_DAY, until / MS_PER_DAY)
    ensures |result| < 12 ==> CoversSamples(result, from / MS_PER_DAY, Samples(from / MS_PER_DAY, until / MS_PER_DAY))
  {
    hide BucketOf, FirstSamples, CoversSamples;
    ghost var a := from / MS_PER_DAY;
    var cur := from / MS_PER_DAY;
    var end := until / MS_PER_DAY;
    var buckets: seq<Bucket> := [];
    ghost var ks: seq<nat>, n: nat := [], 0;
    NoSamples(a, end);
    while cur <= end
      invariant SampledBuckets(buckets, cur, end) == SampledBuckets([], a, end)
      invariant cur == a + 7 * n && (n > 0 ==> a + 7 * (n - 1) <= end)
      invariant FirstSamples(buckets, ks, a, end) && BelowCount(ks, n)
      invariant CoversSamples(buckets, a, n)
      decreases end + 7 - cur
    {
      var b := BucketOf(cur);
      SampleNext(buckets, ks, a, end, n);
      if !HasKey(buckets, b.key) {
        buckets := buckets + [b];
        ks := ks + [n];
      }
      cur := cur + 7;
      n := n + 1;
    }
    SampleCount(a, end, n);
    LastTwelveSamples(buckets, ks, a, end);
    result := LastTwelve(buckets);
  }

  ghost predicate BelowCount(ks: seq<nat>, n: nat) { forall i :: 0 <= i < |ks| ==> ks[i] < n }

  lemma NoSamples(a: int, end: int)
    ensures FirstSamples([], [], a, end) && CoversSamples([], a, 0)
  {
  }

  lemma HasKeyMore(buckets: seq<Bucket>, b: Bucket, key: string)
    ensures HasKey(buckets + [b], key) <==> HasKey(buckets, key) || b.key == key
  {
    var more := buckets + [b];
    assert more[|buckets|] == b;
    if HasKey(buckets, key) {
      var i :| 0 <= i < |buckets| && buckets[i].key == key;
      assert more[i] == buckets[i];
    }
  }

  /** The next sample gets a bucket exactly if its key is new. */
  lemma SampleNext(buckets: seq<Bucket>, ks: seq<nat>, a: int, end: int, n: nat)
    requires FirstSamples(buckets, ks, a, end) && BelowCount(ks, n) && CoversSamples(buckets, a, n) && a + 7 * n <= end
    ensures var b := Sampled(a, n);
      if HasKey(buckets, b.key) then CoversSamples(buckets, a, n + 1)
      else FirstSamples(buckets + [b], ks + [n], a, end) && CoversSamples(buckets + [b], a, n + 1)
    ensures BelowCount(ks, n + 1) && BelowCount(ks + [n], n + 1)
  {
    var b := Sampled(a, n);
    hide Sampled, HasKey, FirstSamples, CoversSamples;
    CoversNext(buckets, a, n);
    if !HasKey(buckets, b.key) { FirstSamplesNext(buckets, ks, a, end, n); }
  }

  lemma CoversNext(buckets: seq<Bucket>, a: int, n: nat)
    requires CoversSamples(buckets, a, n)
    ensures CoversSamples(buckets + [Sampled(a, n)], a, n + 1)
    ensures HasKey(buckets, Sampled(a, n).key) ==> CoversSamples(buckets, a, n + 1)
  {
    hide Sampled, HasKey;
    forall k | 0 <= k < n + 1
      ensures HasKey(buckets + [Sampled(a, n)], Sampled(a, k).key)
    {
      HasKeyMore(buckets, Sampled(a, n), Sampled(a, k).key);
    }
  }

  lemma FirstSamplesNext(buckets: seq<Bucket>, ks: seq<nat>, a: int, end: int, n: nat)
    requires FirstSamples(buckets, ks, a, end) && BelowCount(ks, n) && CoversSamples(buckets, a, n) && a + 7 * n <= end
    requires !HasKey(buckets, Sampled(a, n).key)
    ensures FirstSamples(buckets + [Sampled(a, n)], ks + [n], a, end)
  {
    hide Sampled;
    forall k | 0 <= k < n
      ensures Sampled(a, k).key != Sampled(a, n).key
    {
      assert HasKey(buckets, Sampled(a, k).key);
    }
    hide HasKey;
  }

  lemma SampleCount(a: int, end: int, n: nat)
    requires a + 7 * n > end && (n > 0 ==> a + 7 * (n - 1) <= end)
    ensures n == Samples(a, end)
  {
  }

  lemma LastTwelveSamples(buckets: seq<Bucket>, ks: seq<nat>, a: int, end: int)
    requires FirstSamples(buckets, ks, a, end)
    ensures DistinctKeys(LastTwelve(buckets))
    ensures exists ks' :: FirstSamples(LastTwelve(buckets), ks', a, end)
    ensures |LastTwelve(buckets)| < 12 ==> LastTwelve(buckets) == buckets
  {
    hide Sampled;
    var d := if |ks| <= 12 then 0 else |ks| - 12;
    assert FirstSamples(buckets[d..], ks[d..], a, end);
    assert LastTwelve(buckets) == buckets[d..];
    forall i, j | 0 <= i < j < |buckets|
      ensures buckets[i].key != buckets[j].key
    {
      assert Sampled(a, ks[i]).key != buckets[j].key;
    }
  }

  lemma LabelText()
    ensures WeekLabel(7, 1) == "7-W01" && WeekLabel(7, 53) == "7-W53"
  {
    D.PadTwo(1);
    D.PadTwo(53);
    hide D.Pad;
  }

  lemma LabelInjective(y: int, v: int, z: int, w: int)
    requires 0 <= v < 100 && 0 <= w < 100 && WeekLabel(y, v) == WeekLabel(z, w)
    ensures y == z && v == w
  {
    hide D.IntText, D.Pad;
    var a, b := WeekLabel(y, v), WeekLabel(z, w);
    assert a[|a| - 2..] == D.Pad(v, 2) && b[|b| - 2..] == D.Pad(w, 2);
    assert a[..|a| - 4] == D.IntText(y) && b[..|b| - 4] == D.IntText(z);
    D.Powers();
    D.PadInjective(v, w, 2);
    D.IntTextInjective(y, z);
  }

  /** A bucket carries the key of its own week's logins, and that week's true start, exactly when
      the sampled day's calendar year is the week-numbering year. */
  lemma BucketMatchesWeek(n: int)
    ensures BucketOf(n).key == LoginKey(n) <==> YearFromDay(n) == IsoYear(n)
    ensures BucketOf(n).startDay == Monday(n) <==> YearFromDay(n) == IsoYear(n)
  {
    hide YearFromDay, UtcIsoWeek, IsoWeekStart, WeekLabel, IsoYear, Monday;
    WeekStartIsMonday(n);
    var y, z, w := YearFromDay(n), IsoYear(n), UtcIsoWeek(n);
    if y < z { StartsDiffer(y, z, w); }
    if z < y { StartsDiffer(z, y, w); }
    if BucketOf(n).key == LoginKey(n) { LabelInjective(y, w, z, w); }
  }

  /** Week numbers repeat no sooner than after 52 weeks. */
  lemma WeekNumbersDiffer(n: int, k: int)
    requires 1 <= k <= 11
    ensures UtcIsoWeek(n) != UtcIsoWeek(n + 7 * k)
  {
    var y, z := IsoYear(n), IsoYear(n + 7 * k);
    LaterThursday(n, k);
    IsoYearSpan(n);
    IsoYearSpan(n + 7 * k);
    WeekNumber(n);
    WeekNumber(n + 7 * k);
    hide DayFromYear, IsoYear, Thursday, UtcIsoWeek, IsLeap;
    if z < y {
      YearOrder(z, y);
      if z + 1 < y { YearOrder(z + 1, y); }
      YearLength(z);
    } else if y < z {
      YearLength(y);
      if y + 1 < z { YearOrder(y + 1, z); }
    }
  }

  lemma LaterThursday(n: int, k: int)
    ensures Thursday(n + 7 * k) == Thursday(n) + 7 * k
  {
    SameWeekDay(n, k);
  }

  lemma SameWeekDay(n: int, k: int)
    ensures WeekDay(n + 7 * k) == WeekDay(n)
  {
    var q, r := (n + 4) / 7, (n + 4) % 7;
    assert n + 4 == 7 * q + r;
    assert n + 7 * k + 4 == 7 * (q + k) + r;
    RemainderIs(q + k, r);
  }

  lemma RemainderIs(q: int, r: int)
    requires 0 <= r < 7
    ensures (7 * q + r) % 7 == r
  {
  }

  /** The twelve sampled weeks of the weekly report all survive under their own keys. */
  lemma {:induction false} TwelveBuckets(a: int, i: int)
    requires 0 <= i <= 12
    ensures SampledBuckets([], a, a + 77) == SampledBuckets(FirstBuckets(a, i), a + 7 * i, a + 77)
  {
    hide BucketOf, SampledBuckets, FirstBuckets, HasKey;
    if i == 0 {
      NoBuckets(a);
    } else {
      TwelveBuckets(a, i - 1);
      NewKey(a, i - 1);
      NextSample(FirstBuckets(a, i - 1), a + 7 * (i - 1), a + 77);
      MoreBuckets(a, i);
    }
  }

  /** The buckets of the first `n` samples. */
  function FirstBuckets(a: int, n: nat): (bs: seq<Bucket>)
    ensures |bs| == n
  {
    seq(n, k => BucketOf(a + 7 * k))
  }

  lemma FirstBucketAt(a: int, n: nat, k: nat)
    requires k < n
    ensures FirstBuckets(a, n)[k] == BucketOf(a + 7 * k)
  {
    hide BucketOf;
  }

  lemma NoBuckets(a: int)
    ensures FirstBuckets(a, 0) == []
  {
  }

  lemma MoreBuckets(a: int, n: nat)
    requires n > 0
    ensures FirstBuckets(a, n) == FirstBuckets(a, n - 1) + [BucketOf(a + 7 * (n - 1))]
  {
    hide BucketOf;
  }

  lemma NextSample(buckets: seq<Bucket>, cur: int, end: int)
    requires cur <= end && !HasKey(buckets, BucketOf(cur).key)
    ensures SampledBuckets(buckets, cur, end) == SampledBuckets(buckets + [BucketOf(cur)], cur + 7, end)
  {
    hide BucketOf, HasKey;
  }

  lemma NewKey(a: int, n: nat)
    requires n <= 11
    ensures !HasKey(FirstBuckets(a, n), BucketOf(a + 7 * n).key)
  {
    hide BucketOf, FirstBuckets;
    forall k | 0 <= k < n
      ensures FirstBuckets(a, n)[k].key != BucketOf(a + 7 * n).key
    {
      FirstBucketAt(a, n, k);
      KeysDiffer(a + 7 * k, n - k);
      assert a + 7 * k + 7 * (n - k) == a + 7 * n;
    }
  }

  lemma KeysDiffer(n: int, k: int)
    requires 1 <= k <= 11
    ensures BucketOf(n).key != BucketOf(n + 7 * k).key
  {
    hide UtcIsoWeek, YearFromDay, WeekLabel, IsoWeekStart;
    WeekStartIsMonday(n);
    WeekStartIsMonday(n + 7 * k);
    WeekNumbersDiffer(n, k);
    if BucketOf(n).key == BucketOf(n + 7 * k).key {
      LabelInjective(YearFromDay(n), UtcIsoWeek(n), YearFromDay(n + 7 * k), UtcIsoWeek(n + 7 * k));
    }
  }

  /** The day sampled from the week of day `e`, given samples `a`, `a + 7`, ... */
  function SampleOf(a: int, e: int): int { a + Monday(e) - Monday(a) }

  /** In the weekly login report, whose window reaches 11 weeks back from `until`, a login is shown
      exactly when the calendar year of the day sampled from its week is the week-numbering year;
      otherwise it is counted under a key that no point carries. */
  lemma WeeklyLoginReport(until: int, login: int)
    requires until - 77 * MS_PER_DAY <= login <= until
    ensures var from := until - 77 * MS_PER_DAY;
      var shown := LastTwelve(SampledBuckets([], from / MS_PER_DAY, until / MS_PER_DAY));
      var sample := SampleOf(from / MS_PER_DAY, login / MS_PER_DAY);
      HasKey(shown, LoginKey(login / MS_PER_DAY)) <==> YearFromDay(sample) == IsoYear(login / MS_PER_DAY)
  {
    hide LoginKey, SampledBuckets, YearFromDay, SampleOf, IsoYear;
    WeeklyReportShows((until - 77 * MS_PER_DAY) / MS_PER_DAY, login / MS_PER_DAY);
  }

  lemma WeeklyReportShows(a: int, e: int)
    requires a <= e <= a + 77
    ensures HasKey(LastTwelve(SampledBuckets([], a, a + 77)), LoginKey(e))
        <==> YearFromDay(SampleOf(a, e)) == IsoYear(e)
  {
    hide BucketOf, FirstBuckets, LoginKey, YearFromDay, IsoYear, Monday, UtcIsoWeek, SampleOf;
    TwelveBuckets(a, 12);
    var buckets := FirstBuckets(a, 12);
    assert SampledBuckets(buckets, a + 84, a + 77) == buckets;
    SampleInWindow(a, e);
    var i := (Monday(e) - Monday(a)) / 7;
    var n := a + 7 * i;
    FirstBucketAt(a, 12, i);
    WeekNamesWeek(n, e);
    SameLoginKey(n, e);
    BucketMatchesWeek(n);
    if HasKey(buckets, LoginKey(e)) {
      var j :| 0 <= j < 12 && buckets[j].key == LoginKey(e);
      FirstBucketAt(a, 12, j);
      LoginKeyWeek(a + 7 * j, e);
      OneSampleAWeek(a, i, j);
    }
  }

  lemma OneSampleAWeek(a: int, i: int, j: int)
    requires 0 <= i < 12 && 0 <= j < 12 && UtcIsoWeek(a + 7 * i) == UtcIsoWeek(a + 7 * j)
    ensures i == j
  {
    hide UtcIsoWeek;
    if i < j { WeekNumbersDiffer(a + 7 * i, j - i); }
    if j < i { WeekNumbersDiffer(a + 7 * j, i - j); }
  }

  lemma SameLoginKey(m: int, n: int)
    requires IsoYear(m) == IsoYear(n) && UtcIsoWeek(m) == UtcIsoWeek(n)
    ensures LoginKey(m) == LoginKey(n)
  {
    hide IsoYear, UtcIsoWeek;
  }

  lemma LoginKeyWeek(n: int, e: int)
    requires BucketOf(n).key == LoginKey(e)
    ensures UtcIsoWeek(n) == UtcIsoWeek(e)
  {
    hide UtcIsoWeek, YearFromDay, WeekLabel, IsoWeekStart, IsoYear;
    WeekStartIsMonday(n);
    WeekStartIsMonday(e);
    LabelInjective(YearFromDay(n), UtcIsoWeek(n), IsoYear(e), UtcIsoWeek(e));
  }

  lemma SampleInWindow(a: int, e: int)
    requires a <= e <= a + 77
    ensures var i := (Monday(e) - Monday(a)) / 7;
      0 <= i < 12 && SampleOf(a, e) == a + 7 * i && Monday(a + 7 * i) == Monday(e)
  {
    WeekResidues(a);
    WeekResidues(e);
    var i := (Monday(e) - Monday(a)) / 7;
    WeeksApart(Monday(a), Monday(e), a, e);
    LaterMonday(a, i);
  }

  lemma LaterMonday(n: int, k: int)
    ensures Monday(n + 7 * k) == Monday(n) + 7 * k
  {
    SameWeekDay(n, k);
  }

  lemma WeeksApart(p: int, q: int, a: int, e: int)
    requires p % 7 == 4 && q % 7 == 4 && p <= a <= p + 6 && q <= e <= q + 6 && a <= e <= a + 77
    ensures 0 <= (q - p) / 7 < 12 && q == p + 7 * ((q - p) / 7)
  {
  }

  lemma EdgeDays()
    ensures var n := MakeDay(2024, 11, 30);
      && MakeDay(2025, 2, 17) == n + 77 && Thursday(n) == n + 3 && DayFromYear(2025) == n + 2
      && DayFromYear(2024) <= n && n + 3 < DayFromYear(2026)
  {
    EdgeYears();
    hide DayFromYear;
  }

  lemma EdgeYears()
    ensures DayFromYear(2024) == 19723 && DayFromYear(2025) == 20089 && DayFromYear(2026) == 20454
  {
  }

  /** 30 December 2024 is in week 1 of 2025, and the report files it under 2024. */
  lemma YearEdgeIsMisfiled()
    ensures var n := MakeDay(2024, 11, 30);
      IsoYear(n) == 2025 && UtcIsoWeek(n) == 1 && YearFromDay(n) == 2024 && BucketOf(n).key != LoginKey(n)
  {
    EdgeDays();
    var n := MakeDay(2024, 11, 30);
    hide MakeDay, DayFromYear, YearFromDay, Thursday, UtcIsoWeek, BucketOf, LoginKey;
    YearUnique(n + 3, 2025);
    YearUnique(n, 2024);
    WeekNumber(n);
    BucketMatchesWeek(n);
  }

  /** A report whose window begins with a misfiled day leaves out that day's logins. */
  lemma MisfiledIsDropped(n: int)
    requires YearFromDay(n) != IsoYear(n)
    ensures !HasKey(LastTwelve(SampledBuckets([], n, n + 77)), LoginKey(n))
  {
    hide SampledBuckets, LoginKey, IsoYear, YearFromDay, BucketOf, UtcIsoWeek, LastTwelve, HasKey, Monday;
    WeeklyReportShows(n, n);
  }

  /** So the logins of 30 December 2024 are in no point of the report of 17 March 2025. */
  lemma YearEdgeIsDropped()
    ensures var a, b := MakeDay(2024, 11, 30), MakeDay(2025, 2, 17);
      b == a + 77 && !HasKey(LastTwelve(SampledBuckets([], a, b)), LoginKey(a))
  {
    EdgeDays();
    YearEdgeIsMisfiled();
    hide MakeDay, SampledBuckets, LoginKey, IsoYear, YearFromDay, BucketOf, UtcIsoWeek, LastTwelve, HasKey;
    MisfiledIsDropped(MakeDay(2024, 11, 30));
  }
}
