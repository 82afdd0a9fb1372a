/** IST calendar days and hours (src/utils/ist-time.ts). Instants are milliseconds since
    the epoch; the zone is the fixed offset UTC+5:30. */
module IstTime {
  import opened Basics
  import opened Calendar
  import D = Decimal

  const OFFSET_MS: int := (5 * 60 + 30) * 60 * 1000
  const MS_PER_HOUR: int := 3_600_000

  datatype Result<T> = Ok(value: T) | Invalid

  datatype Bounds = Bounds(start: int, end: int)

  datatype HourBucket = HourBucket(key: string, hourLabel: string, start: int)

  // ---------------------------------------------------------------- keys

  /** Number of the IST calendar day that holds instant `t`. */
  function IstDay(t: int): int { (t + OFFSET_MS) / MS_PER_DAY }

  function DayStart(n: int): int { n * MS_PER_DAY - OFFSET_MS }

  /** Year in the `numeric` style of Intl: no padding, and years before 1 by their era number. */
  function YearText(y: int): string { D.ToString(if y > 0 then y else 1 - y) }

  function KeyOf(c: Civil): string
    requires 0 <= c.month < 99 && 0 <= c.day < 100
  {
    YearText(c.year) + "-" + D.Pad(c.month + 1, 2) + "-" + D.Pad(c.day, 2)
  }

  function KeyOfDay(n: int): string { KeyOf(CivilFromDay(n)) }

  /** `istDateKey` */
  function DateKey(t: int): string { KeyOfDay(IstDay(t)) }

  /** Days of the years 1000 to 9998, whose keys and successor keys have four-digit years. */
  predicate Keyed(n: int) { DayFromYear(1000) <= n < DayFromYear(9999) }

  predicate FourDigitDay(n: int) { DayFromYear(1000) <= n < DayFromYear(10000) }

  function IndexOf(s: string, c: char): (i: nat)
    requires c in s
    ensures i < |s| && s[i] == c && c !in s[..i]
  {
    if s[0] == c then 0 else IndexOf(s[1..], c) + 1
  }

  /** `s.split(c)` */
  function Split(s: string, c: char): (parts: seq<string>)
    ensures |parts| > 0
    decreases |s|
  {
    if c !in s then [s] else [s[..IndexOf(s, c)]] + Split(s[IndexOf(s, c) + 1..], c)
  }

  /** `Number(s)`, where only plain decimal numerals count as numbers. */
  function NumberOf(s: string): Result<nat> {
    if s != [] && D.AllDigits(s) then Ok(D.Parse(s)) else Invalid
  }

  /** `Date.UTC` reads the years 0 to 99 as 1900 to 1999. */
  function FullYear(y: int): int { if 0 <= y <= 99 then 1900 + y else y }

  /** Day number that `istDayBounds` computes from the parts of a key; absent and zero parts are refused. */
  function DayOfParts(year: string, month: string, day: string): Result<int> {
    match (NumberOf(year), NumberOf(month), NumberOf(day))
    case (Ok(y), Ok(m), Ok(d)) =>
      if y == 0 || m == 0 || d == 0 then Invalid else Ok(MakeDay(FullYear(y), m - 1, d))
    case _ => Invalid
  }

  function ParseDay(key: string): Result<int> {
    var parts := Split(key, '-');
    if |parts| < 3 then Invalid else DayOfParts(parts[0], parts[1], parts[2])
  }

  /** `istDayBounds` */
  function DayBounds(key: string): Result<Bounds> {
    match ParseDay(key)
    case Ok(n) => Ok(Bounds(DayStart(n), DayStart(n) + MS_PER_DAY))
    case Invalid => Invalid
  }

  /** `addIstDays` */
  function AddDays(key: string, days: int): Result<string> {
    match DayBounds(key)
    case Ok(b) => Ok(DateKey(b.start + days * MS_PER_DAY))
    case Invalid => Invalid
  }

  /** `isValidIstDateKey` */
  predicate IsValidDateKey(key: string) {
    && |key| == 10 && key[4] == '-' && key[7] == '-'
    && D.AllDigits(key[..4]) && D.AllDigits(key[5..7]) && D.AllDigits(key[8..])
    && DayBounds(key).Ok?
  }

  // ---------------------------------------------------------------- days

  lemma DayOfShiftedStart(n: int, k: int, r: int)
    requires 0 <= r < MS_PER_DAY
    ensures IstDay(DayStart(n) + k * MS_PER_DAY + r) == n + k
  {
    assert DayStart(n) + k * MS_PER_DAY + r + OFFSET_MS == (n + k) * MS_PER_DAY + r;
  }

  lemma DayHolds(t: int)
    ensures DayStart(IstDay(t)) <= t < DayStart(IstDay(t)) + MS_PER_DAY
  {
  }

  /** Two instants share an IST day exactly when one day's bounds hold both. */
  lemma DayOfInstant(t: int, n: int)
    ensures IstDay(t) == n <==> DayStart(n) <= t < DayStart(n) + MS_PER_DAY
  {
    DayHolds(t);
    if IstDay(t) < n { assert DayStart(IstDay(t) + 1) <= DayStart(n); }
    if n < IstDay(t) { assert DayStart(n + 1) <= DayStart(IstDay(t)); }
  }

  lemma YearWithin(n: int, low: int, high: int)
    requires DayFromYear(low) <= n < DayFromYear(high)
    ensures low <= YearFromDay(n) < high
  {
    hide DayFromYear, YearFromDay;
    var y := YearFromDay(n);
    if y + 1 < low { YearOrder(y + 1, low); }
    if y > high { YearOrder(high, y); }
  }

  lemma KeyedYear(n: int)
    requires Keyed(n)
    ensures 1000 <= CivilFromDay(n).year <= 9998
  {
    hide DayFromYear, YearFromDay;
    YearWithin(n, 1000, 9999);
  }

  lemma {:induction false} SplitHead(a: string, rest: string)
    requires '-' !in a
    ensures Split(a + "-" + rest, '-') == [a] + Split(rest, '-')
  {
    var s := a + "-" + rest;
    assert s[|a|] == '-';
    var i := IndexOf(s, '-');
    assert forall j :: 0 <= j < |a| ==> s[j] == a[j];
    assert i == |a|;
    assert s[..i] == a && s[i + 1..] == rest;
  }

  lemma DigitsHaveNoDash(s: string)
    requires D.AllDigits(s)
    ensures '-' !in s
  {
  }

  lemma SplitKey(y: string, m: string, d: string)
    requires D.AllDigits(y) && D.AllDigits(m) && D.AllDigits(d)
    ensures Split(y + "-" + m + "-" + d, '-') == [y, m, d]
  {
    DigitsHaveNoDash(y);
    DigitsHaveNoDash(m);
    DigitsHaveNoDash(d);
    assert y + "-" + m + "-" + d == y + "-" + (m + "-" + d);
    SplitHead(y, m + "-" + d);
    SplitHead(m, d);
  }

  lemma TwoDigits(n: nat)
    requires n < 100
    ensures n < D.Pow10(2) && D.Parse(D.Pad(n, 2)) == n
  {
    assert D.Pow10(1) == 10;
    D.ParsePad(n, 2);
  }

  /** What `istDayBounds` makes of three numerals: zeros are refused, the years 1 to 99 are 1901 to 1999, and
      months and days out of range roll over. */
  lemma ParseDayOfText(y: string, m: string, d: string)
    requires D.AllDigits(y) && D.AllDigits(m) && D.AllDigits(d) && y != [] && m != [] && d != []
    ensures ParseDay(y + "-" + m + "-" + d) == (
      if D.Parse(y) == 0 || D.Parse(m) == 0 || D.Parse(d) == 0 then Invalid
      else Ok(MakeDay(D.Parse(y) + if D.Parse(y) < 100 then 1900 else 0, D.Parse(m) - 1, D.Parse(d))))
  {
    SplitKey(y, m, d);
    hide Split, D.Parse, D.AllDigits, DayOfParts;
    DigitParts(y, m, d);
  }

  lemma DigitParts(y: string, m: string, d: string)
    requires D.AllDigits(y) && D.AllDigits(m) && D.AllDigits(d) && y != [] && m != [] && d != []
    ensures DayOfParts(y, m, d) == (
      if D.Parse(y) == 0 || D.Parse(m) == 0 || D.Parse(d) == 0 then Invalid
      else Ok(MakeDay(D.Parse(y) + if D.Parse(y) < 100 then 1900 else 0, D.Parse(m) - 1, D.Parse(d))))
  {
    hide MakeDay, D.Parse, D.AllDigits;
  }

  /** What `istDayBounds` reads from a key with year, month and day fields of any digits. */
  lemma ParseDayOfKey(c: Civil)
    requires 100 <= c.year && 0 <= c.month < 99 && 1 <= c.day < 100
    ensures ParseDay(KeyOf(c)) == Ok(MakeDay(c.year, c.month, c.day))
  {
    hide MakeDay, D.Pad, D.Parse, D.ToString, D.Pow10, D.AllDigits, YearText, ParseDay, KeyOf;
    PartsOfKey(c);
    ParseDayOfText(YearText(c.year), D.Pad(c.month + 1, 2), D.Pad(c.day, 2));
  }

  lemma PartsOfKey(c: Civil)
    requires 100 <= c.year && 0 <= c.month < 99 && 1 <= c.day < 100
    ensures var y, m, d := YearText(c.year), D.Pad(c.month + 1, 2), D.Pad(c.day, 2);
      && KeyOf(c) == y + "-" + m + "-" + d && D.AllDigits(y) && y != []
      && D.Parse(y) == c.year && D.Parse(m) == c.month + 1 && D.Parse(d) == c.day
  {
    hide D.Pad, D.Parse, D.Pow10, D.AllDigits, YearText;
    TwoDigits(c.month + 1);
    TwoDigits(c.day);
    YearReads(c.year);
  }

  lemma YearReads(y: int)
    requires y > 0
    ensures D.AllDigits(YearText(y)) && YearText(y) != [] && D.Parse(YearText(y)) == y
  {
    D.ParseToString(y);
    hide D.ToString, D.Parse, D.AllDigits;
  }

  lemma ParseDayOfDay(n: int)
    requires Keyed(n)
    ensures ParseDay(KeyOfDay(n)) == Ok(n)
  {
    hide ParseDay, MakeDay, Keyed, CivilFromDay, KeyOf;
    KeyedYear(n);
    ParseDayOfKey(CivilFromDay(n));
    CivilThenDay(n);
  }

  /** IST days partition time: every instant lies within the bounds of its own key
      and of no other day's key. */
  lemma DaysPartitionTime(t: int, n: int)
    requires Keyed(IstDay(t)) && Keyed(n)
    ensures DayBounds(DateKey(t)).Ok? && DayBounds(KeyOfDay(n)).Ok?
    ensures var b := DayBounds(DateKey(t)).value; b.start <= t < b.end
    ensures var b := DayBounds(KeyOfDay(n)).value; b.start <= t < b.end <==> KeyOfDay(n) == DateKey(t)
    ensures DateKey(DayBounds(KeyOfDay(n)).value.start) == KeyOfDay(n)
  {
    hide KeyOfDay, ParseDay, IstDay, DayStart;
    ParseDayOfDay(IstDay(t));
    ParseDayOfDay(n);
    DayOfInstant(t, n);
    DayOfInstant(t, IstDay(t));
    DayOfShiftedStart(n, 0, 0);
  }

  /** The key read back from a day's start is the key itself exactly for the real dates. */
  lemma BoundsRoundTrip(c: Civil)
    requires 1000 <= c.year <= 9999 && 0 <= c.month < 99 && 1 <= c.day < 100
    ensures IsValidDateKey(KeyOf(c))
    ensures DateKey(DayBounds(KeyOf(c)).value.start) == KeyOf(c) <==> IsRealDate(c)
  {
    hide KeyOf, IsValidDateKey, DayBounds, MakeDay, CivilFromDay, IsRealDate;
    KeyIsValid(c);
    StartKey(c);
    var n := MakeDay(c.year, c.month, c.day);
    LaterYear(c);
    if IsRealDate(c) {
      DayThenCivil(c);
    } else if KeyOfDay(n) == KeyOf(c) {
      ParseDayParts(c, CivilFromDay(n));
    }
  }

  lemma KeyIsValid(c: Civil)
    requires 1000 <= c.year <= 9999 && 0 <= c.month < 99 && 1 <= c.day < 100
    ensures IsValidDateKey(KeyOf(c))
  {
    hide KeyOf, ParseDay, MakeDay, D.AllDigits;
    ParseDayOfKey(c);
    KeyShape(c);
  }

  /** The key read back from the start of a key's day. */
  lemma StartKey(c: Civil)
    requires 1000 <= c.year <= 9999 && 0 <= c.month < 99 && 1 <= c.day < 100
    ensures DayBounds(KeyOf(c)).Ok?
    ensures DateKey(DayBounds(KeyOf(c)).value.start) == KeyOfDay(MakeDay(c.year, c.month, c.day))
  {
    hide KeyOf, KeyOfDay, ParseDay, MakeDay, DayStart, IstDay;
    ParseDayOfKey(c);
    DayOfShiftedStart(MakeDay(c.year, c.month, c.day), 0, 0);
  }

  /** 31 February is accepted and means 2 March of a leap year and 3 March of any other. */
  lemma FebruaryRollsOver(year: int)
    requires 1000 <= year <= 9999
    ensures var key := KeyOf(Civil(year, 1, 31));
      IsValidDateKey(key) && DateKey(DayBounds(key).value.start) == KeyOf(Civil(year, 2, if IsLeap(year) then 2 else 3))
  {
    var march := Civil(year, 2, if IsLeap(year) then 2 else 3);
    assert IsRealDate(march) && MakeDay(year, 1, 31) == MakeDay(year, 2, march.day);
    hide KeyOf, IsValidDateKey, DayBounds, MakeDay, CivilFromDay, IsRealDate, IsLeap;
    KeyIsValid(Civil(year, 1, 31));
    StartKey(Civil(year, 1, 31));
    DayThenCivil(march);
  }

  lemma KeyShape(c: Civil)
    requires 1000 <= c.year <= 9999 && 0 <= c.month < 99 && 0 <= c.day < 100
    ensures var k := KeyOf(c);
      |k| == 10 && k[..4] == D.Pad(c.year, 4) && k[4] == '-' && k[5..7] == D.Pad(c.month + 1, 2)
      && k[7] == '-' && k[8..] == D.Pad(c.day, 2)
    ensures var k := KeyOf(c); D.AllDigits(k[..4]) && D.AllDigits(k[5..7]) && D.AllDigits(k[8..])
  {
    D.FourDigits(c.year);
    assert YearText(c.year) == D.Pad(c.year, 4);
    hide D.Pad, D.ToString, D.AllDigits, YearText;
    KeySlices(D.Pad(c.year, 4), D.Pad(c.month + 1, 2), D.Pad(c.day, 2));
  }

  lemma KeySlices(y: string, m: string, d: string)
    requires |y| == 4 && |m| == 2 && |d| == 2
    ensures var k := y + "-" + m + "-" + d;
      |k| == 10 && k[..4] == y && k[4] == '-' && k[5..7] == m && k[7] == '-' && k[8..] == d
  {
  }

  lemma MakeDayAfterYear(c: Civil)
    requires 0 <= c.month && 1 <= c.day
    ensures MakeDay(c.year, c.month, c.day) >= DayFromYear(c.year + c.month / 12)
  {
    hide DayFromYear;
    MonthStartOrder(0, c.month % 12, IsLeap(c.year + c.month / 12));
  }

  /** A day counted onwards from a year's start is in that year or later. */
  lemma LaterYear(c: Civil)
    requires 0 <= c.month && 1 <= c.day
    ensures CivilFromDay(MakeDay(c.year, c.month, c.day)).year >= c.year
  {
    hide DayFromYear, MakeDay;
    var year := c.year + c.month / 12;
    var n := MakeDay(c.year, c.month, c.day);
    MakeDayAfterYear(c);
    var y := YearFromDay(n);
    assert CivilFromDay(n).year == y;
    if y + 1 < year { YearOrder(y + 1, year); }
  }

  /** Equal keys have equal fields. */
  lemma ParseDayParts(a: Civil, b: Civil)
    requires a.year > 0 && 0 <= a.month < 99 && 0 <= a.day < 100
    requires b.year > 0 && 0 <= b.month < 99 && 0 <= b.day < 100
    requires KeyOf(a) == KeyOf(b)
    ensures a == b
  {
    SplitKey(YearText(a.year), D.Pad(a.month + 1, 2), D.Pad(a.day, 2));
    SplitKey(YearText(b.year), D.Pad(b.month + 1, 2), D.Pad(b.day, 2));
    D.ParseToString(a.year);
    D.ParseToString(b.year);
    TwoDigits(a.month + 1);
    TwoDigits(a.day);
    TwoDigits(b.month + 1);
    TwoDigits(b.day);
    hide D.Pad, D.Parse, D.ToString, D.Pow10, Split;
    var pa := [YearText(a.year), D.Pad(a.month + 1, 2), D.Pad(a.day, 2)];
    var pb := [YearText(b.year), D.Pad(b.month + 1, 2), D.Pad(b.day, 2)];
    assert pa == pb;
    assert pa[0] == pb[0] && pa[1] == pb[1] && pa[2] == pb[2];
  }

  /** The string order of keys is the order of days. */
  lemma KeyOrder(m: int, n: int)
    requires FourDigitDay(m) && FourDigitDay(n)
    ensures D.StrLess(KeyOfDay(m), KeyOfDay(n)) <==> m < n
    ensures KeyOfDay(m) == KeyOfDay(n) <==> m == n
  {
    hide KeyOf, CivilFromDay, FourDigitDay, MakeDay;
    FourDigitYear(m);
    FourDigitYear(n);
    CivilOrder(m, n);
    CivilThenDay(m);
    CivilThenDay(n);
    KeyLess(CivilFromDay(m), CivilFromDay(n));
    if KeyOfDay(m) == KeyOfDay(n) { ParseDayParts(CivilFromDay(m), CivilFromDay(n)); }
  }

  lemma FourDigitYear(n: int)
    requires FourDigitDay(n)
    ensures 1000 <= CivilFromDay(n).year <= 9999
  {
    hide DayFromYear, YearFromDay;
    YearWithin(n, 1000, 10000);
  }

  lemma KeyLess(a: Civil, b: Civil)
    requires 1000 <= a.year <= 9999 && 0 <= a.month < 99 && 0 <= a.day < 100
    requires 1000 <= b.year <= 9999 && 0 <= b.month < 99 && 0 <= b.day < 100
    ensures D.StrLess(KeyOf(a), KeyOf(b)) <==> CivilLess(a, b)
  {
    D.Powers();
    hide D.Pow10, D.StrLess, D.Pad, D.ToString;
    var y, m, d := D.Pad(a.year, 4), D.Pad(a.month + 1, 2), D.Pad(a.day, 2);
    var y', m', d' := D.Pad(b.year, 4), D.Pad(b.month + 1, 2), D.Pad(b.day, 2);
    D.FourDigits(a.year);
    D.FourDigits(b.year);
    assert KeyOf(a) == y + ("-" + (m + ("-" + d))) && KeyOf(b) == y' + ("-" + (m' + ("-" + d')));
    D.LexConcat(y, y', "-" + (m + ("-" + d)), "-" + (m' + ("-" + d')));
    D.LexConcat("-", "-", m + ("-" + d), m' + ("-" + d'));
    D.LexConcat(m, m', "-" + d, "-" + d');
    D.LexConcat("-", "-", d, d');
    D.StrLessIrreflexive("-");
    D.PadOrder(a.year, b.year, 4);
    D.PadInjective(a.year, b.year, 4);
    D.PadOrder(a.month + 1, b.month + 1, 2);
    D.PadInjective(a.month + 1, b.month + 1, 2);
    D.PadOrder(a.day, b.day, 2);
  }

  /** `addIstDays` moves by exactly that many calendar days, over every month, year and leap
      boundary, and so is additive. */
  lemma AddDaysShifts(n: int, a: int, b: int)
    requires Keyed(n) && Keyed(n + a) && Keyed(n + a + b)
    ensures AddDays(KeyOfDay(n), a) == Ok(KeyOfDay(n + a))
    ensures DayBounds(KeyOfDay(n + a)).Ok? && DayBounds(KeyOfDay(n)).Ok?
    ensures DayBounds(KeyOfDay(n + a)).value.start == DayBounds(KeyOfDay(n)).value.start + a * MS_PER_DAY
    ensures AddDays(AddDays(KeyOfDay(n), a).value, b) == AddDays(KeyOfDay(n), a + b)
  {
    hide KeyOfDay, ParseDay, IstDay, Keyed;
    ParseDayOfDay(n);
    ParseDayOfDay(n + a);
    DayOfShiftedStart(n, a, 0);
    DayOfShiftedStart(n + a, b, 0);
    DayOfShiftedStart(n, a + b, 0);
  }

  // ---------------------------------------------------------------- day lists

  /** A key that `istDateKey` produces for a day in range. */
  predicate IsDayKey(key: string) {
    ParseDay(key).Ok? && Keyed(ParseDay(key).value) && KeyOfDay(ParseDay(key).value) == key
  }

  /** The consecutive days `a`, `a + 1`, ..., `b - 1` by key. */
  ghost predicate IsDayRun(keys: seq<string>, a: int, b: int) {
    |keys| == (if a <= b then b - a else 0) && forall i :: 0 <= i < |keys| ==> keys[i] == KeyOfDay(a + i)
  }

  /** The civil date a valid key names; it need not be a real one. */
  function FieldsOf(key: string): Civil
    requires IsValidDateKey(key)
  {
    Civil(D.Parse(key[..4]), D.Parse(key[5..7]) - 1, D.Parse(key[8..]))
  }

  /** A valid key, of a real date or not, in the range of years. */
  predicate IsEndKey(key: string) { IsValidDateKey(key) && 1000 <= FieldsOf(key).year <= 9998 }

  lemma FieldsGiveKey(key: string)
    requires IsEndKey(key)
    ensures var c := FieldsOf(key); 0 <= c.month < 99 && 1 <= c.day < 100 && KeyOf(c) == key
  {
    var y, m, d := key[..4], key[5..7], key[8..];
    var c := FieldsOf(key);
    assert c == Civil(D.Parse(y), D.Parse(m) - 1, D.Parse(d));
    PartsPositive(key);
    PartsRead(y, m, d);
    KeyParts(key);
    hide D.Pad, D.Parse, D.AllDigits, IsValidDateKey, YearText, FieldsOf, KeyOf;
    KeyOfParts(c, y, m, d);
  }

  lemma KeyOfParts(c: Civil, y: string, m: string, d: string)
    requires 0 <= c.month < 99 && 0 <= c.day < 100
    requires YearText(c.year) == y && D.Pad(c.month + 1, 2) == m && D.Pad(c.day, 2) == d
    ensures KeyOf(c) == y + "-" + m + "-" + d
  {
    hide D.Pad, YearText;
  }

  lemma KeyParts(key: string)
    requires IsValidDateKey(key)
    ensures key == key[..4] + "-" + key[5..7] + "-" + key[8..]
  {
    hide D.AllDigits, DayBounds;
  }

  /** `istDayBounds` refuses zero months and days. */
  lemma PartsPositive(key: string)
    requires IsValidDateKey(key)
    ensures D.Parse(key[5..7]) > 0 && D.Parse(key[8..]) > 0
  {
    var y, m, d := key[..4], key[5..7], key[8..];
    KeyParts(key);
    SplitKey(y, m, d);
    NumberOfDigits(m);
    NumberOfDigits(d);
    hide D.Parse, D.AllDigits, Split, MakeDay, NumberOf;
  }

  lemma PartsRead(y: string, m: string, d: string)
    requires D.AllDigits(y) && D.AllDigits(m) && D.AllDigits(d) && |y| == 4 && |m| == |d| == 2
    requires D.Parse(y) >= 1000
    ensures YearText(D.Parse(y)) == y && D.Pad(D.Parse(m), 2) == m && D.Pad(D.Parse(d), 2) == d
    ensures D.Parse(m) < 100 && D.Parse(d) < 100
  {
    D.PadParse(y);
    D.PadParse(m);
    D.PadParse(d);
    D.Powers();
    D.FourDigits(D.Parse(y));
    hide D.Pad, D.Parse, D.ToString, D.Pow10, D.AllDigits;
  }

  lemma NumberOfDigits(s: string)
    requires s != [] && D.AllDigits(s)
    ensures NumberOf(s) == Ok(D.Parse(s))
  {
  }

  /** The last real date up to `c` within its year. */
  function Clamp(c: Civil): (r: Civil)
    requires 0 <= c.month && 1 <= c.day
    ensures IsRealDate(r) && r.year == c.year
  {
    if c.month >= 12 then Civil(c.year, 11, 31) else
    assert DaysInMonth(c.year, c.month) >= 1 by { MonthHasDays(c.year, c.month); }
    Civil(c.year, c.month, Min(c.day, DaysInMonth(c.year, c.month)))
  }

  lemma MonthHasDays(y: int, m: int)
    requires 0 <= m < 12
    ensures 28 <= DaysInMonth(y, m) <= 31
  {
    hide IsLeap;
  }

  /** The last day whose key is not after an end key. */
  function LastDay(key: string): int
    requires IsEndKey(key)
  {
    FieldsGiveKey(key);
    var c := Clamp(FieldsOf(key));
    MakeDay(c.year, c.month, c.day)
  }

  lemma ClampOrder(c: Civil, r: Civil)
    requires 0 <= c.month && 1 <= c.day && IsRealDate(r)
    ensures CivilLess(Clamp(c), r) <==> CivilLess(c, r)
  {
    hide IsLeap;
  }

  lemma LastDayYear(key: string)
    requires IsEndKey(key)
    ensures Keyed(LastDay(key))
  {
    FieldsGiveKey(key);
    var c := Clamp(FieldsOf(key));
    assert 1000 <= c.year <= 9998;
    hide IsValidDateKey, FieldsOf, Clamp;
    RealDayKeyed(c);
  }

  lemma RealDayKeyed(c: Civil)
    requires IsRealDate(c) && 1000 <= c.year <= 9998
    ensures Keyed(MakeDay(c.year, c.month, c.day))
  {
    hide DayFromYear, MakeDay, IsRealDate;
    DayInYear(c);
    if c.year > 1000 { YearOrder(1000, c.year); }
    if c.year + 1 < 9999 { YearOrder(c.year + 1, 9999); }
  }

  /** A day's key is not after an end key exactly up to the last day. */
  lemma UpToLastDay(n: int, key: string)
    requires FourDigitDay(n) && IsEndKey(key)
    ensures D.StrLessEq(KeyOfDay(n), key) <==> n <= LastDay(key)
  {
    FieldsGiveKey(key);
    var c, r := FieldsOf(key), CivilFromDay(n);
    var last := Clamp(c);
    hide KeyOf, CivilFromDay, FourDigitDay, MakeDay, IsRealDate, IsValidDateKey, FieldsOf, Clamp;
    hide D.StrLess, D.StrLessEq;
    FourDigitYear(n);
    KeyLess(c, r);
    D.StrLessEqIff(KeyOfDay(n), key);
    ClampOrder(c, r);
    DayThenCivil(last);
    CivilOrder(LastDay(key), n);
  }

  lemma DayKeyIff(n: int)
    requires Keyed(n)
    ensures IsDayKey(KeyOfDay(n)) && ParseDay(KeyOfDay(n)).value == n
    ensures IsEndKey(KeyOfDay(n)) && LastDay(KeyOfDay(n)) == n
  {
    hide IsValidDateKey, FieldsOf, KeyOf, CivilFromDay, ParseDay, MakeDay, Keyed;
    ParseDayOfDay(n);
    KeyedYear(n);
    var c := CivilFromDay(n);
    KeyIsValid(c);
    KeyFields(c);
    CivilThenDay(n);
  }

  lemma KeyFields(c: Civil)
    requires 1000 <= c.year <= 9999 && 0 <= c.month < 99 && 1 <= c.day < 100 && IsValidDateKey(KeyOf(c))
    ensures FieldsOf(KeyOf(c)) == c
  {
    KeyShape(c);
    TwoDigits(c.month + 1);
    TwoDigits(c.day);
    D.Powers();
    D.ParsePad(c.year, 4);
    hide KeyOf, D.Pad, D.Parse, D.Pow10, D.AllDigits, IsValidDateKey;
  }

  /** The first key as given, and then the days after it up to the end key. */
  ghost predicate IsKeyList(keys: seq<string>, fromKey: string, toKey: string)
    requires IsEndKey(toKey) && ParseDay(fromKey).Ok?
  {
    var a := ParseDay(fromKey).value;
    if !D.StrLessEq(fromKey, toKey) then keys == []
    else
      && |keys| == 1 + Max(0, LastDay(toKey) - a) && keys[0] == fromKey
      && forall i :: 1 <= i < |keys| ==> keys[i] == KeyOfDay(a + i)
  }

  /** `iterIstDateKeys`, which takes any first key: an unreadable one is an error unless it is after the
      end key, and one of no real date, such as 31 February, is listed as it stands. */
  method IterDateKeys(fromKey: string, toKey: string) returns (r: Result<seq<string>>)
    requires IsEndKey(toKey) && (ParseDay(fromKey).Ok? ==> Keyed(ParseDay(fromKey).value))
    ensures r.Invalid? <==> D.StrLessEq(fromKey, toKey) && ParseDay(fromKey).Invalid?
    ensures ParseDay(fromKey).Ok? ==> r.Ok? && IsKeyList(r.value, fromKey, toKey)
    ensures ParseDay(fromKey).Invalid? && r.Ok? ==> r.value == []
    ensures IsDayKey(fromKey) && IsDayKey(toKey) ==>
      r.Ok? && IsDayRun(r.value, ParseDay(fromKey).value, ParseDay(toKey).value + 1)
  {
    assert IsDayKey(fromKey) ==> ParseDay(fromKey).Ok?;
    hide KeyOfDay, AddDays, D.StrLess, D.StrLessEq, ParseDay, FourDigitDay, Keyed, LastDay, IsEndKey, IsDayKey;
    hide IsDayRun, KeysSoFar, IsKeyList;
    var keys := [];
    var cur := fromKey;
    assert KeysSoFar(keys, cur, fromKey, toKey) by { NoKeysYet(fromKey, toKey); }
    while D.StrLessEq(cur, toKey)
      invariant KeysSoFar(keys, cur, fromKey, toKey)
      decreases KeysLeft(|keys|, fromKey, toKey)
    {
      OneMoreKey(keys, cur, fromKey, toKey);
      keys := keys + [cur];
      var next := AddDays(cur, 1);
      if next.Invalid? {
        return Invalid;
      }
      cur := next.value;
    }
    AllKeys(keys, cur, fromKey, toKey);
    r := Ok(keys);
    if IsDayKey(fromKey) && IsDayKey(toKey) { ListIsRun(keys, fromKey, toKey); }
  }

  /** The state of the loop: nothing listed yet, or the first key and the days after it before `cur`. */
  ghost predicate KeysSoFar(keys: seq<string>, cur: string, fromKey: string, toKey: string)
    requires IsEndKey(toKey)
  {
    if keys == [] then cur == fromKey
    else
      && ParseDay(fromKey).Ok? && D.StrLessEq(fromKey, toKey) && keys[0] == fromKey
      && var a := ParseDay(fromKey).value;
      && cur == KeyOfDay(a + |keys|) && FourDigitDay(a + |keys|)
      && (|keys| > 1 ==> a + |keys| <= LastDay(toKey) + 1)
      && forall i :: 1 <= i < |keys| ==> keys[i] == KeyOfDay(a + i)
  }

  /** How many keys are still to come, at most. */
  ghost function KeysLeft(n: nat, fromKey: string, toKey: string): int
    requires IsEndKey(toKey)
  {
    var b := if ParseDay(fromKey).Ok? then LastDay(toKey) - ParseDay(fromKey).value else 0;
    if n == 0 then 2 + Max(0, b) else 1 + b - n
  }

  lemma NoKeysYet(fromKey: string, toKey: string)
    requires IsEndKey(toKey)
    ensures KeysSoFar([], fromKey, fromKey, toKey)
  {
  }

  lemma OneMoreKey(keys: seq<string>, cur: string, fromKey: string, toKey: string)
    requires IsEndKey(toKey) && (ParseDay(fromKey).Ok? ==> Keyed(ParseDay(fromKey).value))
    requires KeysSoFar(keys, cur, fromKey, toKey) && D.StrLessEq(cur, toKey)
    ensures AddDays(cur, 1).Invalid? <==> ParseDay(fromKey).Invalid?
    ensures ParseDay(fromKey).Invalid? ==> D.StrLessEq(fromKey, toKey)
    ensures AddDays(cur, 1).Ok? ==> KeysSoFar(keys + [cur], AddDays(cur, 1).value, fromKey, toKey)
    ensures KeysLeft(|keys|, fromKey, toKey) > 0
    ensures KeysLeft(|keys|, fromKey, toKey) > KeysLeft(|keys| + 1, fromKey, toKey)
  {
    hide KeyOfDay, AddDays, D.StrLess, D.StrLessEq, ParseDay, FourDigitDay, Keyed, LastDay, IsEndKey;
    if keys == [] {
      FirstNext(fromKey);
    } else {
      var a := ParseDay(fromKey).value;
      UpToLastDay(a + |keys|, toKey);
      LastDayYear(toKey);
      KeyedBetween(a, LastDay(toKey));
      NextKey(a + |keys|);
    }
  }

  lemma AllKeys(keys: seq<string>, cur: string, fromKey: string, toKey: string)
    requires IsEndKey(toKey) && KeysSoFar(keys, cur, fromKey, toKey) && !D.StrLessEq(cur, toKey)
    ensures ParseDay(fromKey).Ok? ==> IsKeyList(keys, fromKey, toKey)
    ensures ParseDay(fromKey).Invalid? ==> !D.StrLessEq(fromKey, toKey) && keys == []
  {
    hide KeyOfDay, D.StrLess, D.StrLessEq, ParseDay, FourDigitDay, LastDay, IsEndKey;
    if keys != [] { UpToLastDay(ParseDay(fromKey).value + |keys|, toKey); }
  }

  lemma FirstNext(key: string)
    requires ParseDay(key).Ok? ==> Keyed(ParseDay(key).value)
    ensures match ParseDay(key)
      case Ok(a) => AddDays(key, 1) == Ok(KeyOfDay(a + 1)) && FourDigitDay(a + 1)
      case Invalid => AddDays(key, 1).Invalid?
  {
    hide KeyOfDay, ParseDay, IstDay;
    match ParseDay(key)
    case Ok(a) => DayOfShiftedStart(a, 1, 0);
    case Invalid =>
  }

  /** Between keys of real dates the list is the run of days. */
  lemma ListIsRun(keys: seq<string>, fromKey: string, toKey: string)
    requires IsDayKey(fromKey) && IsDayKey(toKey) && IsEndKey(toKey) && IsKeyList(keys, fromKey, toKey)
    ensures IsDayRun(keys, ParseDay(fromKey).value, ParseDay(toKey).value + 1)
  {
    var a, b := ParseDay(fromKey).value, ParseDay(toKey).value;
    assert fromKey == KeyOfDay(a) && toKey == KeyOfDay(b) && Keyed(a) && Keyed(b);
    hide KeyOfDay, ParseDay, Keyed, LastDay, IsEndKey, IsDayKey, D.StrLess, FourDigitDay, IsKeyList;
    DayKeyIff(b);
    ListIsDays(keys, a, b);
  }

  lemma ListIsDays(keys: seq<string>, a: int, b: int)
    requires Keyed(a) && Keyed(b) && ParseDay(KeyOfDay(a)) == Ok(a)
    requires IsEndKey(KeyOfDay(b)) && LastDay(KeyOfDay(b)) == b && IsKeyList(keys, KeyOfDay(a), KeyOfDay(b))
    ensures IsDayRun(keys, a, b + 1)
  {
    hide KeyOfDay, ParseDay, Keyed, LastDay, IsEndKey, D.StrLess, FourDigitDay;
    KeyedBetween(a, b);
    KeyOrder(a, b);
  }

  lemma KeyedBetween(a: int, b: int)
    requires Keyed(a) && Keyed(b)
    ensures FourDigitDay(a) && FourDigitDay(b) && forall n :: a <= n <= b ==> Keyed(n)
  {
  }

  lemma NextKey(n: int)
    requires Keyed(n)
    ensures AddDays(KeyOfDay(n), 1) == Ok(KeyOfDay(n + 1))
    ensures FourDigitDay(n + 1)
  {
    hide KeyOfDay, ParseDay, IstDay;
    ParseDayOfDay(n);
    DayOfShiftedStart(n, 1, 0);
  }

  /** `istDateKeysLastNDays` */
  method DateKeysLastNDays(n: int, now: int) returns (keys: seq<string>)
    requires Keyed(IstDay(now)) && Keyed(IstDay(now) - 89)
    ensures |keys| == Min(90, Max(1, n))
    ensures IsDayRun(keys, IstDay(now) - Min(90, Max(1, n)) + 1, IstDay(now) + 1)
    ensures keys[|keys| - 1] == DateKey(now)
  {
    hide KeyOfDay, ParseDay, IstDay, AddDays, DayBounds, IsEndKey, LastDay, IsKeyList, D.StrLessEq;
    var capped := Min(90, Max(1, n));
    var todayKey := DateKey(now);
    DayKeyIff(IstDay(now));
    AddDaysShifts(IstDay(now), -(capped - 1), 0);
    var fromKey := AddDays(todayKey, -(capped - 1)).value;
    DayKeyIff(IstDay(now) - capped + 1);
    var listed := IterDateKeys(fromKey, todayKey);
    keys := listed.value;
  }

  /** `istLookbackCalendarDays`: the window holds exactly the last `min(90, max(1, days))` days
      although the request is only clamped from below. */
  method LookbackCalendarDays(days: int, now: int) returns (from: int, to: int)
    requires Keyed(IstDay(now)) && Keyed(IstDay(now) - 89)
    ensures to == now && from <= to
    ensures from == DayStart(IstDay(now) - Min(90, Max(1, days)) + 1)
    ensures forall t :: from <= t <= to ==> IstDay(now) - Min(90, Max(1, days)) < IstDay(t) <= IstDay(now)
  {
    hide KeyOfDay, ParseDay, IstDay;
    var capped := Max(1, days);
    var keys := DateKeysLastNDays(capped, now);
    DayKeyIff(IstDay(now) - |keys| + 1);
    from := DayBounds(keys[0]).value.start;
    to := now;
    DayOfInstant(now, IstDay(now));
    forall t | from <= t <= to
      ensures IstDay(now) - Min(90, Max(1, days)) < IstDay(t) <= IstDay(now)
    {
      DayHolds(t);
    }
  }

  // ---------------------------------------------------------------- hours

  /** Number of the IST hour that holds `t`. */
  function IstHour(t: int): int { (t + OFFSET_MS) / MS_PER_HOUR }

  function HourStart(h: int): int { h * MS_PER_HOUR - OFFSET_MS }

  function HourOfDay(t: int): (h: int)
    ensures 0 <= h < 24
  {
    (t + OFFSET_MS) % MS_PER_DAY / MS_PER_HOUR
  }

  /** `istHourKey`, the same text as Mongo's `%Y-%m-%d %H:00` in the IST zone. */
  function HourKey(t: int): string { DateKey(t) + " " + D.Pad(HourOfDay(t), 2) + ":00" }

  /** `istStartOfHour`: takes the hour key apart and rebuilds the instant. */
  function StartOfHour(t: int): Result<int> {
    var parts := Split(HourKey(t), ' ');
    if |parts| < 2 || |parts[1]| < 2 then Invalid else
    match (ParseDay(parts[0]), NumberOf(parts[1][..2]))
    case (Ok(n), Ok(hour)) => Ok(n * MS_PER_DAY + hour * MS_PER_HOUR - OFFSET_MS)
    case _ => Invalid
  }

  lemma KeyHasNoSpace(n: int)
    ensures ' ' !in KeyOfDay(n)
  {
    var c := CivilFromDay(n);
    var y, m, d := YearText(c.year), D.Pad(c.month + 1, 2), D.Pad(c.day, 2);
    assert ' ' !in y && ' ' !in m && ' ' !in d;
  }

  lemma SplitAtSpace(a: string, rest: string)
    requires ' ' !in a && ' ' !in rest
    ensures Split(a + " " + rest, ' ') == [a, rest]
  {
    var s := a + " " + rest;
    assert s[|a|] == ' ';
    var i := IndexOf(s, ' ');
    assert forall j :: 0 <= j < |a| ==> s[j] == a[j];
    assert i == |a|;
    assert s[..i] == a && s[i + 1..] == rest;
  }

  lemma HourSplits(t: int)
    ensures IstHour(t) == IstDay(t) * 24 + HourOfDay(t)
  {
    var u := t + OFFSET_MS;
    assert u == (u / MS_PER_DAY) * MS_PER_DAY + u % MS_PER_DAY;
    assert MS_PER_DAY == 24 * MS_PER_HOUR;
  }

  lemma HourKeySplits(t: int)
    ensures Split(HourKey(t), ' ') == [DateKey(t), D.Pad(HourOfDay(t), 2) + ":00"]
  {
    hide KeyOfDay, Split, D.Pad, IstDay, HourOfDay;
    var hh := D.Pad(HourOfDay(t), 2);
    KeyHasNoSpace(IstDay(t));
    assert HourKey(t) == DateKey(t) + " " + (hh + ":00");
    assert ' ' !in hh;
    SplitAtSpace(DateKey(t), hh + ":00");
  }

  /** The hour key determines the hour, in spite of the half-hour offset. */
  lemma StartOfHourIsHourStart(t: int)
    requires Keyed(IstDay(t))
    ensures StartOfHour(t) == Ok(HourStart(IstHour(t)))
    ensures HourStart(IstHour(t)) <= t < HourStart(IstHour(t)) + MS_PER_HOUR
  {
    hide KeyOfDay, ParseDay, Split, NumberOf, HourKey, D.Pad, IstDay, HourOfDay, Keyed;
    HourSplits(t);
    var hh := D.Pad(HourOfDay(t), 2);
    TwoDigits(HourOfDay(t));
    NumberOfPad(HourOfDay(t));
    HourKeySplits(t);
    assert (hh + ":00")[..2] == hh;
    ParseDayOfDay(IstDay(t));
  }

  lemma NumberOfPad(n: nat)
    requires n < 100
    ensures n < D.Pow10(2) && NumberOf(D.Pad(n, 2)) == Ok(n)
  {
    hide D.Pow10, D.Pad, D.Parse;
    TwoDigits(n);
    var text := D.Pad(n, 2);
  }

  /** Instants share an hour key exactly when they share an hour. */
  lemma HourKeyIff(s: int, t: int)
    requires Keyed(IstDay(s)) && Keyed(IstDay(t))
    ensures HourKey(s) == HourKey(t) <==> IstHour(s) == IstHour(t)
  {
    hide KeyOfDay, D.Pad, IstDay, HourOfDay, IstHour, Split, ParseDay, NumberOf;
    StartOfHourIsHourStart(s);
    StartOfHourIsHourStart(t);
    HourSplits(s);
    HourSplits(t);
  }

  /** The bucket of hour number `h`, keyed by its own start and labelled `HH:00`. */
  ghost predicate IsHourBucket(b: HourBucket, h: int) {
    && b.start == HourStart(h) && b.key == HourKey(b.start) && IstHour(b.start) == h && Keyed(IstDay(b.start))
    && |b.key| >= 5 && b.hourLabel == b.key[|b.key| - 5..]
  }

  /** `iterIstHourBuckets` */
  method IterHourBuckets(from: int, until: int) returns (buckets: seq<HourBucket>)
    requires Keyed(IstDay(from)) && Keyed(IstDay(until))
    ensures |buckets| == Max(0, IstHour(until) - IstHour(from) + 1)
    ensures forall i :: 0 <= i < |buckets| ==> IsHourBucket(buckets[i], IstHour(from) + i)
  {
    hide HourKey, StartOfHour, IstDay, IstHour, Keyed;
    StartOfHourIsHourStart(from);
    StartOfHourIsHourStart(until);
    var cur := StartOfHour(from).value;
    ghost var h := IstHour(from);
    buckets := [];
    while cur <= until
      invariant cur == HourStart(h) && |buckets| == h - IstHour(from)
      invariant h <= IstHour(until) + 1 || h == IstHour(from)
      invariant forall i :: 0 <= i < |buckets| ==> IsHourBucket(buckets[i], IstHour(from) + i)
      decreases until - cur
    {
      var key := HourKey(cur);
      HourStartDay(from, until, h);
      buckets := buckets + [HourBucket(key, key[|key| - 5..], cur)];
      cur := cur + MS_PER_HOUR;
      h := h + 1;
    }
  }

  lemma HourStartDay(from: int, until: int, h: int)
    requires Keyed(IstDay(from)) && IstHour(from) <= h && HourStart(h) <= until && Keyed(IstDay(until))
    ensures IstHour(HourStart(h)) == h && Keyed(IstDay(HourStart(h)))
    ensures |HourKey(HourStart(h))| >= 5
  {
    HourSplits(from);
    HourSplits(HourStart(h));
  }

  // ---------------------------------------------------------------- in UTC

  /** The zone is UTC+5:30: the key of an instant is that of its UTC day, and from 18:30 UTC on that of the
      next one. */
  lemma KeyInUtc(t: int)
    ensures DateKey(t) == KeyOfDay(t / 86_400_000 + if t % 86_400_000 >= 66_600_000 then 1 else 0)
  {
    hide KeyOfDay;
    var q, r := t / 86_400_000, t % 86_400_000;
    assert t == q * 86_400_000 + r;
    assert IstDay(t) == q + if r >= 66_600_000 then 1 else 0 by { ShiftedDay(q, r); }
  }

  lemma ShiftedDay(q: int, r: int)
    requires 0 <= r < 86_400_000
    ensures (q * 86_400_000 + r + 19_800_000) / 86_400_000 == q + if r >= 66_600_000 then 1 else 0
  {
  }

  /** A day begins 5 h 30 min before its UTC midnight and is 24 hours long. */
  lemma BoundsInUtc(c: Civil)
    requires 100 <= c.year && 0 <= c.month < 99 && 1 <= c.day < 100
    ensures var start := MakeDay(c.year, c.month, c.day) * 86_400_000 - 19_800_000;
      DayBounds(KeyOf(c)) == Ok(Bounds(start, start + 86_400_000))
  {
    hide KeyOf, ParseDay, MakeDay;
    ParseDayOfKey(c);
  }

  /** Hours are those of a clock 19 800 s ahead of UTC. */
  lemma HourInUtc(t: int)
    ensures var u := t + 19_800_000;
      && HourKey(t) == KeyOfDay(u / 86_400_000) + " " + D.Pad(u % 86_400_000 / 3_600_000, 2) + ":00"
      && (Keyed(u / 86_400_000) ==> StartOfHour(t) == Ok(u / 3_600_000 * 3_600_000 - 19_800_000))
  {
    hide KeyOfDay, D.Pad, Keyed, StartOfHour;
    if Keyed(IstDay(t)) { StartOfHourIsHourStart(t); }
  }

  /** 18:45 UTC is a quarter past midnight of the next day. */
  lemma QuarterPastMidnight(n: int)
    ensures DateKey(n * 86_400_000 + 67_500_000) == KeyOfDay(n + 1)
  {
    hide KeyOfDay, DateKey;
    KeyInUtc(n * 86_400_000 + 67_500_000);
    SplitDay(n, 67_500_000);
  }

  lemma SplitDay(n: int, r: int)
    requires 0 <= r < 86_400_000
    ensures (n * 86_400_000 + r) / 86_400_000 == n && (n * 86_400_000 + r) % 86_400_000 == r
  {
  }

  lemma DateText()
    ensures KeyOf(Civil(2025, 0, 2)) == "2025-01-02"
  {
    YearOf2025();
    D.PadTwo(1);
    D.PadTwo(2);
    hide D.ToString, D.Pad, YearText;
  }

  lemma YearOf2025()
    ensures YearText(2025) == "2025"
  {
    assert D.ToString(2) == "2" && D.ToString(20) == "20" && D.ToString(202) == "202";
  }

  /** `isValidIstDateKey` accepts four, two and two digits with dashes between, none of the three numbers zero. */
  lemma ValidKeyIff(key: string)
    ensures IsValidDateKey(key) <==> (
      && |key| == 10 && key[4] == '-' && key[7] == '-'
      && D.AllDigits(key[..4]) && D.AllDigits(key[5..7]) && D.AllDigits(key[8..])
      && D.Parse(key[..4]) > 0 && D.Parse(key[5..7]) > 0 && D.Parse(key[8..]) > 0)
  {
    hide ParseDay, D.Parse, D.AllDigits;
    if |key| == 10 && key[4] == '-' && key[7] == '-' {
      var y, m, d := key[..4], key[5..7], key[8..];
      assert key == y + "-" + m + "-" + d;
      if D.AllDigits(y) && D.AllDigits(m) && D.AllDigits(d) { ParseDayOfText(y, m, d); }
    }
  }
}
