/**
 `LocalDate`: the validating constructor that builds an instant and reads it back, the order on dates
 and the age in completed months (local-date.ts).
 */
module LocalDates {
  import opened Wrappers
  import opened EcmaTime

  /** A JavaScript number: NaN and the infinities are not finite; a finite one need not be an integer. */
  datatype Number = NotFinite | Finite(value: real)

  function FromInt(n: int): Number { Finite(n as real) }

  function MinusOne(n: Number): Number {
    match n
    case NotFinite => NotFinite
    case Finite(v) => Finite(v - 1.0)
  }

  /** ToIntegerOrInfinity on a finite number: drop the fraction. */
  function Truncate(v: real): int {
    if v >= 0.0 then v.Floor else -((-v).Floor)
  }

  /** `Date.UTC(year, month, day)`; `None` is NaN. */
  function UtcDate(year: Number, month: Number, day: Number): Option<int> {
    if year.Finite? && month.Finite? && day.Finite? then
      Utc(Truncate(year.value), Truncate(month.value), Truncate(day.value), 0, 0, 0, 0)
    else None
  }

  datatype DateError = InvalidLocalDate | LocalDateBeforeReference | InvalidAgeMonths

  datatype LocalDate = LocalDate(ms: int) {
    function Year(): int { YearFromDay(DayOf(ms)) }
    function Month(): int { MonthFromDay(DayOf(ms)) + 1 }
    function Day(): int { DateFromDay(DayOf(ms)) }

    ghost function Fields(): Civil { CivilOf(DayOf(ms)) }

    predicate IsOnOrBefore(other: LocalDate) { ms <= other.ms }

    function CompletedMonthsSince(from: LocalDate): Result<nat, DateError> {
      if ms < from.ms then Failure(LocalDateBeforeReference)
      else
        var months := (Year() - from.Year()) * 12 + (Month() - from.Month());
        AsAgeMonths(if Day() < from.Day() then months - 1 else months)
    }

    /** What the constructor establishes: midnight of a day it accepts. */
    ghost predicate Valid() {
      ms % 86_400_000 == 0 && Constructible(Fields())
    }
  }

  function AsAgeMonths(months: int): Result<nat, DateError> {
    if months < 0 then Failure(InvalidAgeMonths) else Success(months)
  }

  /** The private constructor, reached through `LocalDate.of`. */
  function Of(year: Number, month: Number, day: Number): Result<LocalDate, DateError> {
    match UtcDate(year, MinusOne(month), day)
    case None => Failure(InvalidLocalDate)
    case Some(ms) =>
      var date := LocalDate(ms);
      if FromInt(date.Year()) != year || FromInt(date.Month() - 1) != MinusOne(month) || FromInt(date.Day()) != day
      then Failure(InvalidLocalDate)
      else Success(date)
  }

  // ---------------------------------------------------------------------------------------------
  // Exactly the real dates are accepted
  // ---------------------------------------------------------------------------------------------

  const FIRST_DATE := Civil(-271821, 4, 20)
  const LAST_DATE := Civil(275760, 9, 13)

  /** A real Gregorian date in the ECMAScript range, outside the years `Date.UTC` shifts. */
  predicate Constructible(c: Civil) {
    IsReal(c) && !(0 <= c.year <= 99) && OnOrBefore(FIRST_DATE, c) && OnOrBefore(c, LAST_DATE)
  }

  lemma FirstDate()
    ensures IsReal(FIRST_DATE) && DayNumber(FIRST_DATE) == -MAX_DAY
  {
    hide DayNumber, DayFromYear, IsLeap;
    DayNumberInYear(FIRST_DATE);
    YearDay(-271821);
  }

  lemma LastDate()
    ensures IsReal(LAST_DATE) && DayNumber(LAST_DATE) == MAX_DAY
  {
    hide DayNumber, DayFromYear, IsLeap;
    DayNumberInYear(LAST_DATE);
    YearDay(275760);
  }

  /** The ECMAScript time range, as calendar dates. */
  lemma RangeAsDates(c: Civil)
    requires IsReal(c)
    ensures -MAX_DAY <= DayNumber(c) <= MAX_DAY <==> OnOrBefore(FIRST_DATE, c) && OnOrBefore(c, LAST_DATE)
  {
    FirstDate();
    LastDate();
    hide DayNumber, OnOrBefore, IsReal;
    DayNumberOrder(FIRST_DATE, c);
    DayNumberOrder(c, LAST_DATE);
  }

  lemma MidnightTime()
    ensures MakeTime(0, 0, 0, 0) == 0
  {
  }

  lemma UtcMidnight(year: int, month: int, day: int)
    ensures Utc(year, month, day, 0, 0, 0, 0) ==
            TimeClip(MakeDay(if 0 <= year <= 99 then 1900 + year else year, month, day) * 86_400_000)
  {
    MidnightTime();
    hide MakeDay, MakeTime, TimeClip;
  }

  lemma MidnightClip(d: int)
    ensures TimeClip(d * 86_400_000) == if -MAX_DAY <= d <= MAX_DAY then Some(d * 86_400_000) else None
    ensures DayOf(d * 86_400_000) == d && (d * 86_400_000) % 86_400_000 == 0
  {
  }

  /** A real date outside years 0 to 99 becomes the instant of its own day, when that is in range. */
  lemma UtcOfReal(c: Civil)
    requires IsReal(c) && !(0 <= c.year <= 99)
    ensures Utc(c.year, c.month - 1, c.day, 0, 0, 0, 0) ==
            if OnOrBefore(FIRST_DATE, c) && OnOrBefore(c, LAST_DATE) then Some(DayNumber(c) * 86_400_000) else None
  {
    hide OnOrBefore, IsReal, MakeDay, Utc, TimeClip;
    RangeAsDates(c);
    UtcMidnight(c.year, c.month - 1, c.day);
    MidnightClip(DayNumber(c));
  }

  /** The instant of any integral arguments is midnight of some day. */
  lemma UtcIsMidnight(year: int, month: int, day: int)
    ensures var t := Utc(year, month, day, 0, 0, 0, 0);
            t.Some? ==> t.value % 86_400_000 == 0 && DayOf(t.value) * 86_400_000 == t.value
  {
    hide MakeDay, Utc, TimeClip, DayOf;
    UtcMidnight(year, month, day);
    MidnightClip(MakeDay(if 0 <= year <= 99 then 1900 + year else year, month, day));
  }

  lemma TruncateInt(n: int)
    ensures Truncate(n as real) == n
  {
  }

  /** Accepting a date means the getters read the arguments, which are then integers. */
  lemma AcceptedFields(year: Number, month: Number, day: Number)
    requires Of(year, month, day).Success?
    ensures var d := Of(year, month, day).value;
            && year == FromInt(d.Year()) && month == FromInt(d.Month()) && day == FromInt(d.Day())
            && Utc(d.Year(), d.Month() - 1, d.Day(), 0, 0, 0, 0) == Some(d.ms)
  {
    hide YearFromDay, MonthFromDay, DateFromDay, Utc;
    var d := Of(year, month, day).value;
    TruncateInt(d.Year());
    TruncateInt(d.Month() - 1);
    TruncateInt(d.Day());
    assert month.value - 1.0 == (d.Month() - 1) as real;
  }

  /** Integral arguments are used as they are. */
  lemma UtcDateOfInts(c: Civil)
    ensures UtcDate(FromInt(c.year), MinusOne(FromInt(c.month)), FromInt(c.day)) ==
            Utc(c.year, c.month - 1, c.day, 0, 0, 0, 0)
  {
    hide Utc;
    TruncateInt(c.year);
    TruncateInt(c.month - 1);
    TruncateInt(c.day);
    assert c.month as real - 1.0 == (c.month - 1) as real;
  }

  /** Every constructible date is accepted, and the getters give back the three inputs. */
  lemma ConstructibleAccepted(c: Civil)
    requires Constructible(c)
    ensures var r := Of(FromInt(c.year), FromInt(c.month), FromInt(c.day));
            r.Success? && r.value.Fields() == c && r.value.ms == DayNumber(c) * 86_400_000
  {
    hide Utc, UtcDate, DayNumber, YearFromDay, MonthFromDay, DateFromDay, IsReal, OnOrBefore, DayOf, TimeClip;
    UtcOfReal(c);
    UtcDateOfInts(c);
    CivilOfDayNumber(c);
    MidnightClip(DayNumber(c));
    assert c.month as real - 1.0 == (c.month - 1) as real;
  }

  /** Only constructible dates are accepted. */
  lemma AcceptedConstructible(year: Number, month: Number, day: Number)
    requires Of(year, month, day).Success?
    ensures Of(year, month, day).value.Valid()
  {
    hide Of, YearFromDay, MonthFromDay, DateFromDay, DayNumber, IsReal, OnOrBefore, Utc, DayOf;
    AcceptedFields(year, month, day);
    var d := Of(year, month, day).value;
    var c := d.Fields();
    DayNumberOfCivil(DayOf(d.ms));
    UtcIsMidnight(c.year, c.month - 1, c.day);
    if 0 <= c.year <= 99 {
      ShiftedYear(c, d.ms);
      assert false;
    }
    UtcOfReal(c);
  }

  /** `Date.UTC` moves years 0 to 99 by 1900, so the getters cannot read them back. */
  lemma ShiftedYear(c: Civil, ms: int)
    requires IsReal(c) && 0 <= c.year <= 99 && Utc(c.year, c.month - 1, c.day, 0, 0, 0, 0) == Some(ms)
    ensures CivilOf(DayOf(ms)) != c
  {
    hide Utc, TimeClip, DayOf, IsReal, MakeDay, CivilOf;
    var day := MakeDay(c.year + 1900, c.month - 1, c.day);
    UtcMidnight(c.year, c.month - 1, c.day);
    MidnightClip(day);
    ShiftedDay(c);
  }

  lemma ShiftedDay(c: Civil)
    requires IsReal(c)
    ensures CivilOf(MakeDay(c.year + 1900, c.month - 1, c.day)).year == c.year + 1900
  {
    hide MakeDay, CivilOf;
    var y := c.year + 1900;
    if c.day <= DaysInMonth(y, c.month) {
      CivilOfDayNumber(Civil(y, c.month, c.day));
    } else {
      var last := Civil(y, c.month, c.day - 1);
      NextDayNumber(last);
      CivilOfDayNumber(Next(last));
      MakeDayStep(y, c.month - 1, c.day - 1);
    }
  }

  lemma MakeDayStep(year: int, month: int, date: int)
    ensures MakeDay(year, month, date + 1) == MakeDay(year, month, date) + 1
  {
  }

  ghost predicate Denotes(year: Number, month: Number, day: Number, c: Civil) {
    year == FromInt(c.year) && month == FromInt(c.month) && day == FromInt(c.day)
  }

  /**
   `LocalDate.of` accepts exactly the real Gregorian dates in the ECMAScript range outside years 0 to
   99, given as integers, and then the getters give back the inputs.
   */
  lemma OfAcceptsExactly(year: Number, month: Number, day: Number)
    ensures Of(year, month, day).Success? <==>
            exists c: Civil :: Constructible(c) && Denotes(year, month, day, c)
    ensures Of(year, month, day).Success? ==>
              var d := Of(year, month, day).value;
              d.Valid() && Denotes(year, month, day, d.Fields())
  {
    if Of(year, month, day).Success? {
      AcceptedIsReal(year, month, day);
    }
    hide Of, Constructible, Denotes, CivilOf;
    forall c: Civil | Constructible(c) && Denotes(year, month, day, c)
      ensures Of(year, month, day).Success?
    {
      RealIsAccepted(year, month, day, c);
    }
  }

  lemma AcceptedIsReal(year: Number, month: Number, day: Number)
    requires Of(year, month, day).Success?
    ensures var d := Of(year, month, day).value;
            d.Valid() && Constructible(d.Fields()) && Denotes(year, month, day, d.Fields())
  {
    hide Of, Constructible, YearFromDay, MonthFromDay, DateFromDay, Utc, FromInt;
    AcceptedFields(year, month, day);
    AcceptedConstructible(year, month, day);
  }

  lemma RealIsAccepted(year: Number, month: Number, day: Number, c: Civil)
    requires Constructible(c) && Denotes(year, month, day, c)
    ensures Of(year, month, day).Success?
  {
    hide Of, Constructible, FromInt, CivilOf, DayNumber;
    ConstructibleAccepted(c);
  }

  // ---------------------------------------------------------------------------------------------
  // Order
  // ---------------------------------------------------------------------------------------------

  lemma ValidMs(d: LocalDate)
    requires d.Valid()
    ensures d.ms == DayNumber(d.Fields()) * 86_400_000 && IsReal(d.Fields())
  {
    DayNumberOfCivil(DayOf(d.ms));
  }

  /** Millisecond order is calendar order. */
  lemma OrderIsLexicographic(a: LocalDate, b: LocalDate)
    requires a.Valid() && b.Valid()
    ensures a.IsOnOrBefore(b) <==> OnOrBefore(a.Fields(), b.Fields())
    ensures a == b <==> a.Fields() == b.Fields()
  {
    ValidMs(a);
    ValidMs(b);
    DayNumberOrder(a.Fields(), b.Fields());
    hide DayNumber, CivilOf, IsReal;
  }

  // ---------------------------------------------------------------------------------------------
  // Age in completed months
  // ---------------------------------------------------------------------------------------------

  /** `c` moved by `k` months, the day number kept even when that month is too short for it. */
  function Shift(c: Civil, k: int): Civil {
    var m := c.month - 1 + k;
    Civil(c.year + m / 12, m % 12 + 1, c.day)
  }

  function MonthsBetween(from: Civil, to: Civil): int {
    (to.year - from.year) * 12 + (to.month - from.month) - if to.day < from.day then 1 else 0
  }

  /** `MonthsBetween` counts exactly the shifts that are on or before `to`. */
  lemma ShiftsOnOrBefore(from: Civil, to: Civil, k: int)
    requires 1 <= from.month <= 12 && 1 <= to.month <= 12
    ensures OnOrBefore(Shift(from, k), to) <==> k <= MonthsBetween(from, to)
  {
    var m := from.month - 1 + k;
    var s := Shift(from, k);
    assert m == 12 * (m / 12) + m % 12;
    assert 12 * s.year + s.month == 12 * from.year + from.month + k;
    MonthOrder(s, to);
  }

  lemma MonthOrder(a: Civil, b: Civil)
    requires 1 <= a.month <= 12 && 1 <= b.month <= 12
    ensures OnOrBefore(a, b) <==>
            12 * a.year + a.month < 12 * b.year + b.month ||
            (12 * a.year + a.month == 12 * b.year + b.month && a.day <= b.day)
  {
  }

  lemma AgeFromFields(show: LocalDate, from: LocalDate)
    requires from.ms <= show.ms && 0 <= MonthsBetween(from.Fields(), show.Fields())
    ensures show.CompletedMonthsSince(from) == Success(MonthsBetween(from.Fields(), show.Fields()))
  {
    hide YearFromDay, MonthFromDay, DateFromDay, DayOf;
  }

  /**
   The age is the number of whole months: shifting the birth date by k months lands on or before this
   date exactly when k is at most the age. It never trips the age validation.
   */
  lemma AgeIsLargestShift(show: LocalDate, from: LocalDate)
    requires show.Valid() && from.Valid()
    ensures from.IsOnOrBefore(show) ==>
              && show.CompletedMonthsSince(from).Success?
              && forall k: int :: OnOrBefore(Shift(from.Fields(), k), show.Fields()) <==>
                                  k <= show.CompletedMonthsSince(from).value
    ensures !from.IsOnOrBefore(show) ==> show.CompletedMonthsSince(from) == Failure(LocalDateBeforeReference)
  {
    hide CivilOf, OnOrBefore, MonthsBetween, DaysInMonth;
    var a, b := from.Fields(), show.Fields();
    OrderIsLexicographic(from, show);
    ValidMs(show);
    ValidMs(from);
    if from.IsOnOrBefore(show) {
      forall k: int
        ensures OnOrBefore(Shift(a, k), b) <==> k <= MonthsBetween(a, b)
      {
        ShiftsOnOrBefore(a, b, k);
      }
      assert Shift(a, 0) == a;
      AgeFromFields(show, from);
    }
  }

  /** A later show date never lowers the age. */
  lemma AgeIsMonotone(from: LocalDate, early: LocalDate, late: LocalDate)
    requires from.Valid() && early.Valid() && late.Valid()
    requires from.IsOnOrBefore(early) && early.IsOnOrBefore(late)
    ensures early.CompletedMonthsSince(from).Success? && late.CompletedMonthsSince(from).Success?
    ensures early.CompletedMonthsSince(from).value <= late.CompletedMonthsSince(from).value
  {
    AgeIsLargestShift(early, from);
    AgeIsLargestShift(late, from);
    OrderIsLexicographic(early, late);
    hide Shift, Constructible, CivilOf;
    var k := early.CompletedMonthsSince(from).value;
    assert OnOrBefore(Shift(from.Fields(), k), early.Fields());
    assert OnOrBefore(Shift(from.Fields(), k), late.Fields());
  }
}
