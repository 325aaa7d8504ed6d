/**
 The time arithmetic that `Date.UTC` and the `getUTC…` getters are defined by: section 21.4.1 of
 ECMA-262 (day number, year, month and date from time, MakeDay, MakeTime, TimeClip) and section
 21.4.3.4 of ECMA-262 (Date.UTC). A Dafny `/` by a positive constant rounds down, as `floor` does.
 */
module EcmaTime {
  import opened Wrappers

  const MAX_TIME := 8_640_000_000_000_000
  /** The day number of the largest time value. */
  const MAX_DAY := 100_000_000

  // ---------------------------------------------------------------------------------------------
  // Day number to year, month, date
  // ---------------------------------------------------------------------------------------------

  predicate IsLeap(y: int) {
    y % 4 == 0 && (y % 100 != 0 || y % 400 == 0)
  }

  function DaysInYear(y: int): int {
    if IsLeap(y) then 366 else 365
  }

  function DayFromYear(y: int): int {
    365 * (y - 1970) + (y - 1969) / 4 - (y - 1901) / 100 + (y - 1601) / 400
  }

  lemma YearLength(y: int)
    ensures DayFromYear(y + 1) == DayFromYear(y) + DaysInYear(y)
  {
    DivStep(y - 1969, 4);
    DivStep(y - 1901, 100);
    DivStep(y - 1601, 400);
  }

  lemma DivStep(a: int, n: int)
    requires n in {4, 100, 400}
    ensures (a + 1) / n == a / n + if (a + 1) % n == 0 then 1 else 0
  {
  }

  lemma {:induction false} YearsApart(y: int, z: int)
    requires y <= z
    ensures DayFromYear(y) + 365 * (z - y) <= DayFromYear(z)
    decreases z - y
  {
    if y < z {
      YearLength(y);
      YearsApart(y + 1, z);
    }
  }

  /** The largest year that has started by day `d`. */
  function YearFromDay(d: int): (y: int)
    ensures DayFromYear(y) <= d < DayFromYear(y + 1)
  {
    var start := if d >= 0 then 1970 else 1970 + d / 365;
    YearsApart(start, 1970);
    YearSearch(d, start)
  }

  function YearSearch(d: int, y: int): (r: int)
    requires DayFromYear(y) <= d
    ensures DayFromYear(r) <= d < DayFromYear(r + 1)
    decreases d - DayFromYear(y)
  {
    YearLength(y);
    if DayFromYear(y + 1) <= d then YearSearch(d, y + 1) else y
  }

  lemma YearUnique(d: int, y: int)
    requires DayFromYear(y) <= d < DayFromYear(y + 1)
    ensures YearFromDay(d) == y
  {
    hide DayFromYear;
    var z := YearFromDay(d);
    if y < z {
      YearsApart(y + 1, z);
    } else if z < y {
      YearsApart(z + 1, y);
    }
  }

  /** Days of the year before month `m`, counting months from 0. */
  function DaysBeforeMonth(m: int, leap: bool): int
    requires 0 <= m <= 12
  {
    var l := if leap then 1 else 0;
    if m == 0 then 0 else if m == 1 then 31 else if m == 2 then 59 + l
    else if m == 3 then 90 + l else if m == 4 then 120 + l else if m == 5 then 151 + l
    else if m == 6 then 181 + l else if m == 7 then 212 + l else if m == 8 then 243 + l
    else if m == 9 then 273 + l else if m == 10 then 304 + l else if m == 11 then 334 + l
    else 365 + l
  }

  /** The month, 0 to 11, holding day `d` of a year. */
  function MonthFromDayInYear(d: int, leap: bool): (m: int)
    requires 0 <= d < if leap then 366 else 365
    ensures 0 <= m < 12 && DaysBeforeMonth(m, leap) <= d < DaysBeforeMonth(m + 1, leap)
  {
    var l := if leap then 1 else 0;
    if d < 31 then 0 else if d < 59 + l then 1 else if d < 90 + l then 2
    else if d < 120 + l then 3 else if d < 151 + l then 4 else if d < 181 + l then 5
    else if d < 212 + l then 6 else if d < 243 + l then 7 else if d < 273 + l then 8
    else if d < 304 + l then 9 else if d < 334 + l then 10 else 11
  }

  function MonthFromDay(d: int): (m: int)
    ensures 0 <= m < 12
  {
    var y := YearFromDay(d);
    YearLength(y);
    MonthFromDayInYear(d - DayFromYear(y), IsLeap(y))
  }

  function DateFromDay(d: int): int {
    var y := YearFromDay(d);
    d - DayFromYear(y) - DaysBeforeMonth(MonthFromDay(d), IsLeap(y)) + 1
  }

  // ---------------------------------------------------------------------------------------------
  // Year, month, date to day number and time value
  // ---------------------------------------------------------------------------------------------

  /** MakeDay: a month outside 0 to 11 carries into the year, a date outside the month into the day number. */
  function MakeDay(year: int, month: int, date: int): int {
    var y := year + month / 12;
    DayFromYear(y) + DaysBeforeMonth(month % 12, IsLeap(y)) + date - 1
  }

  function MakeTime(hour: int, minute: int, second: int, ms: int): int {
    hour * 3_600_000 + minute * 60_000 + second * 1000 + ms
  }

  function TimeClip(t: int): Option<int> {
    if -MAX_TIME <= t <= MAX_TIME then Some(t) else None
  }

  /** Date.UTC over integral arguments: years 0 to 99 mean 1900 to 1999. `None` is NaN. */
  function Utc(year: int, month: int, date: int, hour: int, minute: int, second: int, ms: int): Option<int> {
    var fullYear := if 0 <= year <= 99 then 1900 + year else year;
    TimeClip(MakeDay(fullYear, month, date) * 86_400_000 + MakeTime(hour, minute, second, ms))
  }

  function DayOf(t: int): int { t / 86_400_000 }
  function TimeInDay(t: int): int { t % 86_400_000 }
  function HourOf(t: int): int { TimeInDay(t) / 3_600_000 }
  function MinuteOf(t: int): int { TimeInDay(t) / 60_000 % 60 }
  function SecondOf(t: int): int { TimeInDay(t) / 1000 % 60 }
  function MsOf(t: int): int { TimeInDay(t) % 1000 }

  // ---------------------------------------------------------------------------------------------
  // The Gregorian calendar, stated without day numbers
  // ---------------------------------------------------------------------------------------------

  /** A calendar date; months count from 1. */
  datatype Civil = Civil(year: int, month: int, day: int)

  function DaysInMonth(y: int, m: int): int {
    if m == 2 then (if IsLeap(y) then 29 else 28)
    else if m == 4 || m == 6 || m == 9 || m == 11 then 30
    else 31
  }

  predicate IsReal(c: Civil) {
    1 <= c.month <= 12 && 1 <= c.day <= DaysInMonth(c.year, c.month)
  }

  /** The date after `c`. */
  function Next(c: Civil): Civil {
    if c.day < DaysInMonth(c.year, c.month) then Civil(c.year, c.month, c.day + 1)
    else if c.month < 12 then Civil(c.year, c.month + 1, 1)
    else Civil(c.year + 1, 1, 1)
  }

  /** Earlier or equal, comparing year, then month, then day. */
  predicate OnOrBefore(a: Civil, b: Civil) {
    a.year < b.year ||
    (a.year == b.year && (a.month < b.month || (a.month == b.month && a.day <= b.day)))
  }

  function DayNumber(c: Civil): int { MakeDay(c.year, c.month - 1, c.day) }
  function CivilOf(d: int): Civil { Civil(YearFromDay(d), MonthFromDay(d) + 1, DateFromDay(d)) }

  lemma MonthLength(y: int, m: int)
    requires 1 <= m <= 12
    ensures DaysBeforeMonth(m, IsLeap(y)) == DaysBeforeMonth(m - 1, IsLeap(y)) + DaysInMonth(y, m)
  {
  }

  lemma MonthUnique(d: int, leap: bool, m: int)
    requires 0 <= m < 12 && DaysBeforeMonth(m, leap) <= d < DaysBeforeMonth(m + 1, leap)
    ensures 0 <= d < (if leap then 366 else 365) && MonthFromDayInYear(d, leap) == m
  {
  }

  lemma MonthInYear(y: int, m: int, day: int)
    requires 1 <= m <= 12 && 1 <= day <= DaysInMonth(y, m)
    ensures 0 <= DaysBeforeMonth(m - 1, IsLeap(y)) + day - 1 < DaysInYear(y)
  {
  }

  lemma MakeDayInYear(y: int, m: int, date: int)
    requires 0 <= m < 12
    ensures MakeDay(y, m, date) == DayFromYear(y) + DaysBeforeMonth(m, IsLeap(y)) + date - 1
  {
    hide DayFromYear, DaysBeforeMonth, IsLeap;
    assert m / 12 == 0 && m % 12 == m;
  }

  /** A real date lies inside its own year. */
  lemma DayNumberInYear(c: Civil)
    requires IsReal(c)
    ensures DayNumber(c) == DayFromYear(c.year) + DaysBeforeMonth(c.month - 1, IsLeap(c.year)) + c.day - 1
    ensures DayFromYear(c.year) <= DayNumber(c) < DayFromYear(c.year + 1)
  {
    hide DayFromYear, DaysBeforeMonth, IsLeap, DaysInYear, MakeDay, DaysInMonth;
    MakeDayInYear(c.year, c.month - 1, c.day);
    YearLength(c.year);
    MonthInYear(c.year, c.month, c.day);
  }

  lemma MonthOfDayNumber(c: Civil)
    requires IsReal(c) && YearFromDay(DayNumber(c)) == c.year
    ensures MonthFromDay(DayNumber(c)) == c.month - 1
  {
    hide DayNumber, DayFromYear, DaysBeforeMonth, IsLeap, DaysInMonth, MonthFromDayInYear, YearFromDay;
    DayNumberInYear(c);
    MonthLength(c.year, c.month);
    MonthUnique(DayNumber(c) - DayFromYear(c.year), IsLeap(c.year), c.month - 1);
  }

  /** The getters give back the fields of every real date. */
  lemma CivilOfDayNumber(c: Civil)
    requires IsReal(c)
    ensures CivilOf(DayNumber(c)) == c
  {
    hide DayNumber, DayFromYear, DaysBeforeMonth, IsLeap, DaysInMonth, YearFromDay, MonthFromDay;
    DayNumberInYear(c);
    YearUnique(DayNumber(c), c.year);
    MonthOfDayNumber(c);
  }

  /** MakeDay counts `date` days from the day whose year, month and date are those the section asks for. */
  lemma MakeDayDefinition(year: int, month: int, date: int)
    ensures CivilOf(MakeDay(year, month, date) - date + 1) == Civil(year + month / 12, month % 12 + 1, 1)
  {
    hide DayFromYear, DaysBeforeMonth, IsLeap, CivilOf;
    var first := Civil(year + month / 12, month % 12 + 1, 1);
    CivilOfDayNumber(first);
    DayNumberInYear(first);
  }

  /** Every day number is the day of exactly the real date its getters read. */
  lemma DayNumberOfCivil(d: int)
    ensures IsReal(CivilOf(d)) && DayNumber(CivilOf(d)) == d
  {
    var c := CivilOf(d);
    hide DayFromYear, DaysBeforeMonth, IsLeap;
    YearLength(c.year);
    MonthLength(c.year, c.month);
    assert (c.month - 1) / 12 == 0 && (c.month - 1) % 12 == c.month - 1;
  }

  lemma YearBounds(y: int)
    ensures DaysBeforeMonth(0, IsLeap(y)) == 0
    ensures DaysBeforeMonth(12, IsLeap(y)) == DaysInYear(y)
  {
  }

  lemma NextDayNumber(c: Civil)
    requires IsReal(c)
    ensures IsReal(Next(c)) && DayNumber(Next(c)) == DayNumber(c) + 1
  {
    hide DayNumber, DayFromYear, DaysBeforeMonth, DaysInYear, IsLeap;
    var n := Next(c);
    DayNumberInYear(c);
    DayNumberInYear(n);
    MonthLength(c.year, c.month);
    YearLength(c.year);
    YearBounds(c.year);
    YearBounds(c.year + 1);
  }

  lemma YearDay(y: int)
    ensures y == 1970 ==> DayFromYear(y) == 0
    ensures y == -271821 ==> DayFromYear(y) == -100000109 && !IsLeap(y)
    ensures y == 275760 ==> DayFromYear(y) == 99999744 && IsLeap(y)
  {
  }

  lemma Epoch()
    ensures CivilOf(0) == Civil(1970, 1, 1)
  {
    hide DayNumber, CivilOf, DayFromYear, IsLeap;
    var c := Civil(1970, 1, 1);
    DayNumberInYear(c);
    YearDay(1970);
    CivilOfDayNumber(c);
  }

  /** Day numbers count days: day 0 is 1 January 1970, and each next number is the next date. */
  lemma DaysFollowCalendar(d: int)
    ensures CivilOf(0) == Civil(1970, 1, 1)
    ensures CivilOf(d + 1) == Next(CivilOf(d))
  {
    hide DayNumber, CivilOf, Next, IsReal;
    Epoch();
    DayNumberOfCivil(d);
    NextDayNumber(CivilOf(d));
    CivilOfDayNumber(Next(CivilOf(d)));
  }

  lemma {:induction false} MonthsApart(m: int, n: int, leap: bool)
    requires 0 <= m <= n <= 12
    ensures DaysBeforeMonth(m, leap) <= DaysBeforeMonth(n, leap)
  {
  }

  lemma EarlierDayNumber(a: Civil, b: Civil)
    requires IsReal(a) && IsReal(b) && OnOrBefore(a, b) && a != b
    ensures DayNumber(a) < DayNumber(b)
  {
    hide DayNumber, DayFromYear, DaysBeforeMonth, IsLeap, DaysInMonth;
    DayNumberInYear(a);
    DayNumberInYear(b);
    if a.year < b.year {
      YearsApart(a.year + 1, b.year);
    } else if a.month < b.month {
      MonthLength(a.year, a.month);
      MonthsApart(a.month, b.month - 1, IsLeap(a.year));
    }
  }

  /** Day numbers order real dates as the calendar does. */
  lemma DayNumberOrder(a: Civil, b: Civil)
    requires IsReal(a) && IsReal(b)
    ensures DayNumber(a) <= DayNumber(b) <==> OnOrBefore(a, b)
  {
    if a != b {
      if OnOrBefore(a, b) { EarlierDayNumber(a, b); } else { EarlierDayNumber(b, a); }
    }
  }

  /** The calendar's own numbers: the lengths of the months, and the leap-year rule at its exceptions. */
  lemma KnownMonths()
    ensures DaysInMonth(2023, 1) == 31 && DaysInMonth(2023, 2) == 28 && DaysInMonth(2023, 3) == 31 && DaysInMonth(2023, 4) == 30
    ensures DaysInMonth(2023, 5) == 31 && DaysInMonth(2023, 6) == 30 && DaysInMonth(2023, 7) == 31 && DaysInMonth(2023, 8) == 31
    ensures DaysInMonth(2023, 9) == 30 && DaysInMonth(2023, 10) == 31 && DaysInMonth(2023, 11) == 30 && DaysInMonth(2023, 12) == 31
    ensures DaysInMonth(2024, 2) == 29 && DaysInMonth(2000, 2) == 29 && DaysInMonth(1900, 2) == 28 && DaysInMonth(2100, 2) == 28
  {
  }
}
