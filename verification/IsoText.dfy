/** `Date.prototype.toISOString` and its inverse for the years 0 to 9999
    (section 21.4.1.32 of ECMA-262). */
module IsoText {
  import opened Basics
  import opened Calendar
  import D = Decimal

  /** The fields of a time value, in UTC. */
  datatype Fields = Fields(date: Civil, hour: int, minute: int, second: int, ms: int)

  predicate InRange(t: int) { DayFromYear(0) <= t / MS_PER_DAY < DayFromYear(10000) }

  function FieldsOf(t: int): Fields {
    var r := t % MS_PER_DAY;
    Fields(CivilFromDay(t / MS_PER_DAY), r / 3_600_000, r / 60_000 % 60, r / 1000 % 60, r % 1000)
  }

  predicate RealFields(f: Fields) {
    IsRealDate(f.date) && 0 <= f.date.year <= 9999
    && 0 <= f.hour < 24 && 0 <= f.minute < 60 && 0 <= f.second < 60 && 0 <= f.ms < 1000
  }

  function TimeOf(f: Fields): int {
    MakeDay(f.date.year, f.date.month, f.date.day) * MS_PER_DAY
      + f.hour * 3_600_000 + f.minute * 60_000 + f.second * 1000 + f.ms
  }

  function Text(f: Fields): string
    requires RealFields(f)
  {
    D.Pad(f.date.year, 4) + "-" + D.Pad(f.date.month + 1, 2) + "-" + D.Pad(f.date.day, 2) + "T"
      + D.Pad(f.hour, 2) + ":" + D.Pad(f.minute, 2) + ":" + D.Pad(f.second, 2) + "." + D.Pad(f.ms, 3) + "Z"
  }

  function ToIso(t: int): string
    requires InRange(t)
  {
    FieldsInRange(t);
    Text(FieldsOf(t))
  }

  predicate HasMarks(s: string) {
    && |s| == 24 && s[4] == '-' && s[7] == '-' && s[10] == 'T'
    && s[13] == ':' && s[16] == ':' && s[19] == '.' && s[23] == 'Z'
  }

  predicate HasShape(s: string) {
    && HasMarks(s)
    && D.AllDigits(s[0..4]) && D.AllDigits(s[5..7]) && D.AllDigits(s[8..10]) && D.AllDigits(s[11..13])
    && D.AllDigits(s[14..16]) && D.AllDigits(s[17..19]) && D.AllDigits(s[20..23])
  }

  function Read(s: string): Fields
    requires HasShape(s)
  {
    Fields(Civil(D.Parse(s[0..4]), D.Parse(s[5..7]) - 1, D.Parse(s[8..10])), D.Parse(s[11..13]), D.Parse(s[14..16]),
           D.Parse(s[17..19]), D.Parse(s[20..23]))
  }

  /** `new Date(s).getTime()` for a full UTC timestamp; `None` stands for NaN. */
  function FromIso(s: string): Option<int> {
    if HasShape(s) && RealFields(Read(s)) then Some(TimeOf(Read(s))) else None
  }

  lemma FieldsInRange(t: int)
    requires InRange(t)
    ensures RealFields(FieldsOf(t))
  {
    hide DayFromYear, IsRealDate;
    var n := t / MS_PER_DAY;
    var y := YearFromDay(n);
    assert CivilFromDay(n).year == y;
    if y + 1 < 0 { YearOrder(y + 1, 0); }
    if 10000 < y { YearOrder(10000, y); }
    assert IsRealDate(CivilFromDay(n));
    TimeFields(t % MS_PER_DAY);
  }

  lemma TimeFields(r: int)
    requires 0 <= r < MS_PER_DAY
    ensures 0 <= r / 3_600_000 < 24
    ensures r == r / 3_600_000 * 3_600_000 + r / 60_000 % 60 * 60_000 + r / 1000 % 60 * 1000 + r % 1000
  {
    var s := r / 1000;
    assert r == s * 1000 + r % 1000;
    SplitMinutes(r);
  }

  lemma SplitMinutes(r: int)
    requires 0 <= r < MS_PER_DAY
    ensures r / 1000 == r / 60_000 * 60 + r / 1000 % 60
    ensures r / 60_000 == r / 3_600_000 * 60 + r / 60_000 % 60
  {
    assert r / 1000 / 60 == r / 60_000;
    assert r / 60_000 / 60 == r / 3_600_000;
  }

  lemma TimeOfFields(t: int)
    ensures TimeOf(FieldsOf(t)) == t
  {
    hide CivilFromDay, MakeDay;
    CivilThenDay(t / MS_PER_DAY);
    TimeFields(t % MS_PER_DAY);
  }

  lemma ReadPad(n: nat, w: nat)
    requires (w == 2 && n < 100) || (w == 3 && n < 1000) || (w == 4 && n < 10000)
    ensures D.Parse(D.Pad(n, w)) == n
  {
    D.Powers();
    D.ParsePad(n, w);
  }

  lemma ReadText(f: Fields)
    requires RealFields(f)
    ensures HasShape(Text(f)) && Read(Text(f)) == f
  {
    TextSlices(f);
    ReadPad(f.date.year, 4);
    MonthAndDay(f.date);
    ReadPad(f.date.month + 1, 2);
    ReadPad(f.date.day, 2);
    ReadPad(f.hour, 2);
    ReadPad(f.minute, 2);
    ReadPad(f.second, 2);
    ReadPad(f.ms, 3);
    hide Text, D.Pad, D.Parse, D.AllDigits, IsRealDate;
  }

  lemma MonthAndDay(c: Civil)
    requires IsRealDate(c)
    ensures 0 <= c.month < 12 && 1 <= c.day <= 31
  {
  }

  /** Which characters of a timestamp show which field. */
  lemma TextSlices(f: Fields)
    requires RealFields(f)
    ensures var s := Text(f);
      && HasMarks(s)
      && s[0..4] == D.Pad(f.date.year, 4) && s[5..7] == D.Pad(f.date.month + 1, 2) && s[8..10] == D.Pad(f.date.day, 2)
      && s[11..13] == D.Pad(f.hour, 2) && s[14..16] == D.Pad(f.minute, 2) && s[17..19] == D.Pad(f.second, 2)
      && s[20..23] == D.Pad(f.ms, 3)
  {
    MonthAndDay(f.date);
    hide D.Pad, D.AllDigits, IsRealDate;
  }

  /** Reading a printed instant gives it back to the millisecond. */
  lemma IsoRoundTrip(t: int)
    requires InRange(t)
    ensures FromIso(ToIso(t)) == Some(t)
    ensures |ToIso(t)| == 24 && '_' !in ToIso(t) && '|' !in ToIso(t)
  {
    FieldsInRange(t);
    TimeOfFields(t);
    var f := FieldsOf(t);
    ReadText(f);
    hide FieldsOf, TimeOf, RealFields, Text, Read;
    PlainText(ToIso(t));
  }

  /** A timestamp holds only digits and its own punctuation. */
  lemma PlainText(s: string)
    requires HasShape(s)
    ensures '_' !in s && '|' !in s
  {
    forall i | 0 <= i < |s|
      ensures s[i] != '_' && s[i] != '|'
    {
      if i < 4 { assert s[i] == s[0..4][i]; }
      else if 5 <= i < 7 { assert s[i] == s[5..7][i - 5]; }
      else if 8 <= i < 10 { assert s[i] == s[8..10][i - 8]; }
      else if 11 <= i < 13 { assert s[i] == s[11..13][i - 11]; }
      else if 14 <= i < 16 { assert s[i] == s[14..16][i - 14]; }
      else if 17 <= i < 19 { assert s[i] == s[17..19][i - 17]; }
      else if 20 <= i < 23 { assert s[i] == s[20..23][i - 20]; }
    }
  }

  /** Only the timestamp of an instant reads as that instant. */
  lemma ReadsOnlyItsText(s: string)
    requires FromIso(s).Some?
    ensures InRange(FromIso(s).value) && ToIso(FromIso(s).value) == s
  {
    var f := Read(s);
    TextOfRead(s);
    FieldsBack(f);
    hide HasShape, RealFields, Read, Text, FieldsOf, TimeOf;
  }

  lemma TextOfRead(s: string)
    requires HasShape(s) && RealFields(Read(s))
    ensures Text(Read(s)) == s
  {
    var f := Read(s);
    D.PadParse(s[0..4]);
    D.PadParse(s[5..7]);
    D.PadParse(s[8..10]);
    D.PadParse(s[11..13]);
    D.PadParse(s[14..16]);
    D.PadParse(s[17..19]);
    D.PadParse(s[20..23]);
    hide D.Pad, D.Parse, D.AllDigits, D.Pow10, IsRealDate;
    assert Text(f) == s[0..4] + "-" + s[5..7] + "-" + s[8..10] + "T" + s[11..13] + ":" + s[14..16] + ":" + s[17..19]
      + "." + s[20..23] + "Z";
    Pieces(s);
  }

  lemma Pieces(s: string)
    requires HasMarks(s)
    ensures s == s[0..4] + "-" + s[5..7] + "-" + s[8..10] + "T" + s[11..13] + ":" + s[14..16] + ":" + s[17..19]
      + "." + s[20..23] + "Z"
  {
  }

  /** Fields to time value and back. */
  lemma FieldsBack(f: Fields)
    requires RealFields(f)
    ensures InRange(TimeOf(f)) && FieldsOf(TimeOf(f)) == f
  {
    var n := MakeDay(f.date.year, f.date.month, f.date.day);
    var r := f.hour * 3_600_000 + f.minute * 60_000 + f.second * 1000 + f.ms;
    hide MakeDay, CivilFromDay, IsRealDate, DayFromYear;
    DayThenCivil(f.date);
    ClockBack(f.hour, f.minute, f.second, f.ms);
    assert TimeOf(f) == n * MS_PER_DAY + r && TimeOf(f) / MS_PER_DAY == n && TimeOf(f) % MS_PER_DAY == r;
    DayInYear(f.date);
    if f.date.year > 0 { YearOrder(0, f.date.year); }
    if f.date.year + 1 < 10000 { YearOrder(f.date.year + 1, 10000); }
  }

  lemma ClockBack(h: int, m: int, s: int, ms: int)
    requires 0 <= h < 24 && 0 <= m < 60 && 0 <= s < 60 && 0 <= ms < 1000
    ensures var r := h * 3_600_000 + m * 60_000 + s * 1000 + ms;
      0 <= r < MS_PER_DAY && r / 3_600_000 == h && r / 60_000 % 60 == m && r / 1000 % 60 == s && r % 1000 == ms
  {
    var r := h * 3_600_000 + m * 60_000 + s * 1000 + ms;
    assert r / 60_000 == h * 60 + m;
    assert r / 1000 == (h * 60 + m) * 60 + s;
  }
}
