/** Time values of section 21.4.1 of ECMA-262, in whole days: `Date.UTC` builds a day
    number out of a civil date and the `getUTC...` accessors take it apart again. */
module Calendar {

  const MS_PER_DAY: int := 86_400_000

  predicate IsLeap(y: int) { y % 4 == 0 && (y % 100 != 0 || y % 400 == 0) }

  function DaysInYear(y: int): (n: int) { if IsLeap(y) then 366 else 365 }

  /** Day number of 1 January of year `y`. */
  function DayFromYear(y: int): int {
    365 * (y - 1970) + (y - 1969) / 4 - (y - 1901) / 100 + (y - 1601) / 400
  }

  /** Days of the year before month `m`, counted from 0. */
  function MonthStart(m: int, leap: bool): int
    requires 0 <= m <= 12
  {
    var extra := if leap then 1 else 0;
    if m == 0 then 0 else if m == 1 then 31 else if m == 2 then 59 + extra else if m == 3 then 90 + extra
    else if m == 4 then 120 + extra else if m == 5 then 151 + extra else if m == 6 then 181 + extra
    else if m == 7 then 212 + extra else if m == 8 then 243 + extra else if m == 9 then 273 + extra
    else if m == 10 then 304 + extra else if m == 11 then 334 + extra else 365 + extra
  }

  function DaysInMonth(y: int, m: int): int
    requires 0 <= m < 12
  {
    MonthStart(m + 1, IsLeap(y)) - MonthStart(m, IsLeap(y))
  }

  /** A civil date; months are counted from 0 as in JavaScript. */
  datatype Civil = Civil(year: int, month: int, day: int)

  predicate IsRealDate(c: Civil) {
    0 <= c.month < 12 && 1 <= c.day <= DaysInMonth(c.year, c.month)
  }

  /** MakeDay: months and days outside their range roll over. */
  function MakeDay(y: int, m: int, d: int): int {
    var year := y + m / 12;
    DayFromYear(year) + MonthStart(m % 12, IsLeap(year)) + d - 1
  }

  /** The latest year that begins on or before day `n`. */
  function YearFromDay(n: int): (y: int)
    ensures DayFromYear(y) <= n < DayFromYear(y + 1)
  {
    YearSearch(n, if n >= 0 then 1970 else 1970 + n / 365)
  }

  function YearSearch(n: int, y: int): (r: int)
    requires DayFromYear(y) <= n
    ensures DayFromYear(r) <= n < DayFromYear(r + 1)
    decreases n - DayFromYear(y)
  {
    if n < DayFromYear(y + 1) then y else YearSearch(n, y + 1)
  }

  /** Month of the `w`-th day (from 0) of a year. */
  function MonthFromDayInYear(w: int, leap: bool): (m: int)
    requires 0 <= w < MonthStart(12, leap)
    ensures 0 <= m < 12 && MonthStart(m, leap) <= w < MonthStart(m + 1, leap)
  {
    if w < MonthStart(1, leap) then 0 else if w < MonthStart(2, leap) then 1
    else if w < MonthStart(3, leap) then 2 else if w < MonthStart(4, leap) then 3
    else if w < MonthStart(5, leap) then 4 else if w < MonthStart(6, leap) then 5
    else if w < MonthStart(7, leap) then 6 else if w < MonthStart(8, leap) then 7
    else if w < MonthStart(9, leap) then 8 else if w < MonthStart(10, leap) then 9
    else if w < MonthStart(11, leap) then 10 else 11
  }

  function CivilFromDay(n: int): (c: Civil)
    ensures IsRealDate(c) && 0 <= c.month < 12 && 1 <= c.day <= 31
  {
    var y := YearFromDay(n);
    var leap := IsLeap(y);
    assert n - DayFromYear(y) < MonthStart(12, leap) by { YearLength(y); }
    var m := MonthFromDayInYear(n - DayFromYear(y), leap);
    assert MonthStart(m + 1, leap) - MonthStart(m, leap) <= 31 by { MonthAtMost31(m, leap); }
    Civil(y, m, n - DayFromYear(y) - MonthStart(m, leap) + 1)
  }

  lemma MonthAtMost31(m: int, leap: bool)
    requires 0 <= m < 12
    ensures MonthStart(m + 1, leap) - MonthStart(m, leap) <= 31
  {
  }

  /** `getUTCDay`: 0 is Sunday, and day 0 (1 January 1970) was a Thursday. */
  function WeekDay(n: int): (w: int)
    ensures 0 <= w < 7
  {
    (n + 4) % 7
  }

  /** Consecutive years begin exactly one year's length apart. */
  lemma YearLength(y: int)
    ensures DayFromYear(y + 1) == DayFromYear(y) + DaysInYear(y)
  {
    Quarter(y);
    Century(y);
    FourCenturies(y);
    Multiples(y);
  }

  lemma Quarter(y: int)
    ensures (y - 1968) / 4 == (y - 1969) / 4 + if y % 4 == 0 then 1 else 0
  {
  }

  lemma Century(y: int)
    ensures (y - 1900) / 100 == (y - 1901) / 100 + if y % 100 == 0 then 1 else 0
  {
  }

  lemma FourCenturies(y: int)
    ensures (y - 1600) / 400 == (y - 1601) / 400 + if y % 400 == 0 then 1 else 0
  {
  }

  lemma Multiples(y: int)
    ensures y % 100 == 0 ==> y % 4 == 0
    ensures y % 400 == 0 ==> y % 100 == 0
  {
    if y % 100 == 0 { MultipleOf100(y / 100); }
    if y % 400 == 0 { MultipleOf400(y / 400); }
  }

  lemma MultipleOf100(c: int)
    ensures 100 * c % 4 == 0
  {
    assert 100 * c == 4 * (25 * c);
  }

  lemma MultipleOf400(q: int)
    ensures 400 * q % 100 == 0
  {
    assert 400 * q == 100 * (4 * q);
  }

  lemma {:induction false} YearOrder(y: int, z: int)
    requires y < z
    ensures DayFromYear(y) + 365 <= DayFromYear(z)
    decreases z - y
  {
    hide DayFromYear, IsLeap;
    YearLength(z - 1);
    if y < z - 1 { YearOrder(y, z - 1); }
  }

  /** The year of a day is the only one whose span holds the day. */
  lemma YearUnique(n: int, y: int)
    requires DayFromYear(y) <= n < DayFromYear(y + 1)
    ensures YearFromDay(n) == y
  {
    hide DayFromYear, YearFromDay;
    var r := YearFromDay(n);
    if r < y && r + 1 < y { YearOrder(r + 1, y); }
    if y < r && y + 1 < r { YearOrder(y + 1, r); }
  }

  /** A real date lies within its own year. */
  lemma DayInYear(c: Civil)
    requires IsRealDate(c)
    ensures MakeDay(c.year, c.month, c.day)
         == DayFromYear(c.year) + MonthStart(c.month, IsLeap(c.year)) + c.day - 1
    ensures DayFromYear(c.year) <= MakeDay(c.year, c.month, c.day) < DayFromYear(c.year + 1)
  {
    hide DayFromYear, IsLeap;
    YearLength(c.year);
    MonthStartOrder(c.month + 1, 12, IsLeap(c.year));
    MonthStartOrder(0, c.month, IsLeap(c.year));
  }

  lemma MonthStartOrder(m: int, n: int, leap: bool)
    requires 0 <= m <= n <= 12
    ensures MonthStart(m, leap) <= MonthStart(n, leap)
  {
  }

  lemma MonthUnique(m: int, w: int, leap: bool)
    requires 0 <= m < 12 && MonthStart(m, leap) <= w < MonthStart(m + 1, leap)
    requires 0 <= w < MonthStart(12, leap)
    ensures MonthFromDayInYear(w, leap) == m
  {
    var r := MonthFromDayInYear(w, leap);
    if r < m { MonthStartOrder(r + 1, m, leap); }
    if m < r { MonthStartOrder(m + 1, r, leap); }
  }

  /** Days to civil and back. */
  lemma CivilThenDay(n: int)
    ensures var c := CivilFromDay(n); MakeDay(c.year, c.month, c.day) == n
  {
    hide DayFromYear, IsLeap, MakeDay, YearFromDay, MonthFromDayInYear;
    DayInYear(CivilFromDay(n));
  }

  lemma RealDayOffset(c: Civil)
    requires IsRealDate(c)
    ensures var w := c.day - 1 + MonthStart(c.month, IsLeap(c.year));
      MonthStart(c.month, IsLeap(c.year)) <= w < MonthStart(c.month + 1, IsLeap(c.year))
      && 0 <= w < MonthStart(12, IsLeap(c.year))
  {
    hide IsLeap;
    MonthStartOrder(c.month + 1, 12, IsLeap(c.year));
    MonthStartOrder(0, c.month, IsLeap(c.year));
  }

  /** Civil to days and back, for every real date of the Gregorian calendar. */
  lemma DayThenCivil(c: Civil)
    requires IsRealDate(c)
    ensures CivilFromDay(MakeDay(c.year, c.month, c.day)) == c
  {
    hide DayFromYear, IsLeap, MonthStart, MakeDay, YearFromDay, MonthFromDayInYear;
    DayInYear(c);
    RealDayOffset(c);
    YearUnique(MakeDay(c.year, c.month, c.day), c.year);
    MonthUnique(c.month, c.day - 1 + MonthStart(c.month, IsLeap(c.year)), IsLeap(c.year));
  }

  /** Civil order: year, then month, then day. */
  predicate CivilLess(a: Civil, b: Civil) {
    a.year < b.year || (a.year == b.year && (a.month < b.month || (a.month == b.month && a.day < b.day)))
  }

  /** Day numbers and civil dates are ordered alike. */
  lemma CivilOrder(m: int, n: int)
    ensures m < n <==> CivilLess(CivilFromDay(m), CivilFromDay(n))
  {
    hide CivilFromDay, MakeDay, IsRealDate;
    var a, b := CivilFromDay(m), CivilFromDay(n);
    CivilThenDay(m);
    CivilThenDay(n);
    if CivilLess(a, b) {
      CivilLessDay(a, b);
    } else if CivilLess(b, a) {
      CivilLessDay(b, a);
    }
  }

  lemma CivilLessDay(a: Civil, b: Civil)
    requires IsRealDate(a) && IsRealDate(b) && CivilLess(a, b)
    ensures MakeDay(a.year, a.month, a.day) < MakeDay(b.year, b.month, b.day)
  {
    hide DayFromYear, IsLeap, MonthStart, MakeDay;
    DayInYear(a);
    DayInYear(b);
    if a.year < b.year {
      if a.year + 1 < b.year { YearOrder(a.year + 1, b.year); }
    } else if a.month < b.month {
      MonthStartOrder(a.month + 1, b.month, IsLeap(a.year));
    }
  }

  /** Day 0 is 1 January 1970, a Thursday, and months have their Gregorian lengths. */
  lemma GregorianMonths(y: int)
    ensures DayFromYear(1970) == 0 && WeekDay(0) == 4
    ensures forall m :: 0 <= m < 12 && m != 1 ==> DaysInMonth(y, m) == if m in {3, 5, 8, 10} then 30 else 31
    ensures DaysInMonth(y, 1) == if y % 4 == 0 && (y % 100 != 0 || y % 400 == 0) then 29 else 28
  {
  }
}
