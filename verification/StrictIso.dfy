/**
 Parsing the ISO-8601 timestamps of stored events, against the printer that wrote them
 (domain-event-rehydration-registry.ts:120-177, pg-outbox-writer.ts:71).
 */
module StrictIso {
  import opened Wrappers
  import opened EcmaTime
  import LocalDates

  // ---------------------------------------------------------------------------------------------
  // Digits
  // ---------------------------------------------------------------------------------------------

  predicate IsDigit(c: char) { '0' <= c <= '9' }

  function DigitValue(c: char): (n: int)
    requires IsDigit(c)
    ensures 0 <= n <= 9
  {
    c as int - '0' as int
  }

  function Digit(n: int): (c: char)
    requires 0 <= n <= 9
    ensures IsDigit(c) && DigitValue(c) == n
  {
    ('0' as int + n) as char
  }

  /** `\d{n}` at position `i`. */
  predicate DigitsAt(s: string, i: nat, n: nat) {
    i + n <= |s| && forall k :: i <= k < i + n ==> IsDigit(s[k])
  }

  /** The number those digits write. */
  function NumberAt(s: string, i: nat, n: nat): (v: int)
    requires DigitsAt(s, i, n)
    ensures v >= 0
  {
    if n == 0 then 0 else NumberAt(s, i, n - 1) * 10 + DigitValue(s[i + n - 1])
  }

  // ---------------------------------------------------------------------------------------------
  // The parser
  // ---------------------------------------------------------------------------------------------

  datatype IsoComponents = IsoComponents(year: int, month: int, day: int, hour: int, minute: int, second: int, ms: int)

  /** The pattern's fixed part, up to and including the seconds. */
  predicate HeadShape(s: string) {
    && |s| >= 20
    && DigitsAt(s, 0, 4) && s[4] == '-' && DigitsAt(s, 5, 2) && s[7] == '-' && DigitsAt(s, 8, 2) && s[10] == 'T'
    && DigitsAt(s, 11, 2) && s[13] == ':' && DigitsAt(s, 14, 2) && s[16] == ':' && DigitsAt(s, 17, 2)
  }

  /** The pattern's end: `Z`, or three decimals and `Z`. */
  predicate TailShape(s: string)
    requires |s| >= 20
  {
    || (|s| == 20 && s[19] == 'Z')
    || (|s| == 24 && s[19] == '.' && DigitsAt(s, 20, 3) && s[23] == 'Z')
  }

  function Components(s: string): IsoComponents
    requires HeadShape(s) && TailShape(s)
  {
    IsoComponents(
      NumberAt(s, 0, 4), NumberAt(s, 5, 2), NumberAt(s, 8, 2), NumberAt(s, 11, 2), NumberAt(s, 14, 2), NumberAt(s, 17, 2),
      if |s| == 24 then NumberAt(s, 20, 3) else 0)
  }

  function ToUtcDate(c: IsoComponents): Option<int> {
    Utc(c.year, c.month - 1, c.day, c.hour, c.minute, c.second, c.ms)
  }

  predicate IsRoundTripMismatch(t: int, c: IsoComponents) {
    || YearFromDay(DayOf(t)) != c.year
    || MonthFromDay(DayOf(t)) != c.month - 1
    || DateFromDay(DayOf(t)) != c.day
    || HourOf(t) != c.hour
    || MinuteOf(t) != c.minute
    || SecondOf(t) != c.second
  }

  /** The time value of the string, or `None` where the source throws. */
  function ParseStrictIso(s: string): Option<int> {
    if !HeadShape(s) || !TailShape(s) then None
    else
      match ToUtcDate(Components(s))
      case None => None
      case Some(t) => if IsRoundTripMismatch(t, Components(s)) then None else Some(t)
  }

  // ---------------------------------------------------------------------------------------------
  // What it accepts
  // ---------------------------------------------------------------------------------------------

  predicate IsRealTime(c: IsoComponents) {
    0 <= c.hour < 24 && 0 <= c.minute < 60 && 0 <= c.second < 60 && 0 <= c.ms < 1000
  }

  function CivilPart(c: IsoComponents): Civil { Civil(c.year, c.month, c.day) }

  lemma TimeOfDay(hour: int, minute: int, second: int, ms: int, day: int)
    requires 0 <= hour < 24 && 0 <= minute < 60 && 0 <= second < 60 && 0 <= ms < 1000
    ensures var t := day * 86_400_000 + MakeTime(hour, minute, second, ms);
            DayOf(t) == day && HourOf(t) == hour && MinuteOf(t) == minute && SecondOf(t) == second && MsOf(t) == ms
  {
    var tod := hour * 3_600_000 + minute * 60_000 + second * 1000 + ms;
    assert 0 <= tod < 86_400_000;
    var t := day * 86_400_000 + tod;
    assert t / 86_400_000 == day && t % 86_400_000 == tod;
    assert tod / 3_600_000 == hour;
    assert tod / 60_000 == hour * 60 + minute;
    assert tod / 1000 == hour * 3600 + minute * 60 + second;
  }

  /** The clock getters are within their ranges and rebuild the instant. */
  lemma TimeRebuilt(t: int)
    ensures 0 <= HourOf(t) < 24 && 0 <= MinuteOf(t) < 60 && 0 <= SecondOf(t) < 60 && 0 <= MsOf(t) < 1000
    ensures t == DayOf(t) * 86_400_000 + MakeTime(HourOf(t), MinuteOf(t), SecondOf(t), MsOf(t))
  {
    var tod := t % 86_400_000;
    assert tod / 60_000 == (tod / 3_600_000) * 60 + MinuteOf(t);
    assert tod / 1000 == (tod / 60_000) * 60 + SecondOf(t);
  }

  ghost function Power10(n: nat): int { if n == 0 then 1 else 10 * Power10(n - 1) }

  lemma {:induction false} NumberBound(s: string, i: nat, n: nat)
    requires DigitsAt(s, i, n)
    ensures NumberAt(s, i, n) < Power10(n)
  {
    if n > 0 { NumberBound(s, i, n - 1); }
  }

  lemma Powers()
    ensures Power10(2) == 100 && Power10(3) == 1000 && Power10(4) == 10_000
  {
  }

  /** Four-digit years are in the ECMAScript range. */
  lemma FourDigitYearInRange(c: Civil)
    requires IsReal(c) && 100 <= c.year <= 9999
    ensures -MAX_DAY < DayNumber(c) < MAX_DAY
  {
    hide DayNumber, DayFromYear, DaysBeforeMonth, IsLeap;
    DayNumberInYear(c);
    YearsApart(c.year + 1, 10_000);
    YearsApart(100, c.year);
    assert DayFromYear(10_000) < MAX_DAY && -MAX_DAY < DayFromYear(100) by { SomeYears(100); SomeYears(10_000); }
  }

  lemma SomeYears(y: int)
    ensures y == 100 ==> DayFromYear(y) == -683_003
    ensures y == 10_000 ==> DayFromYear(y) == 2_932_897
  {
  }

  /** Real components build their own instant. */
  lemma RealComponents(c: IsoComponents)
    requires IsReal(CivilPart(c)) && 100 <= c.year <= 9999 && IsRealTime(c)
    ensures var t := DayNumber(CivilPart(c)) * 86_400_000 + MakeTime(c.hour, c.minute, c.second, c.ms);
            ToUtcDate(c) == Some(t) && !IsRoundTripMismatch(t, c)
  {
    hide ToUtcDate, IsRoundTripMismatch, IsReal, DayNumber, MakeTime;
    RealInstant(c);
    ReadsBack(c);
  }

  lemma RealInstant(c: IsoComponents)
    requires IsReal(CivilPart(c)) && 100 <= c.year <= 9999 && IsRealTime(c)
    ensures ToUtcDate(c) == Some(DayNumber(CivilPart(c)) * 86_400_000 + MakeTime(c.hour, c.minute, c.second, c.ms))
  {
    hide MakeDay, IsReal, TimeClip;
    FourDigitYearInRange(CivilPart(c));
    ClipInRange(DayNumber(CivilPart(c)), MakeTime(c.hour, c.minute, c.second, c.ms));
  }

  lemma ReadsBack(c: IsoComponents)
    requires IsReal(CivilPart(c)) && IsRealTime(c)
    ensures !IsRoundTripMismatch(DayNumber(CivilPart(c)) * 86_400_000 + MakeTime(c.hour, c.minute, c.second, c.ms), c)
  {
    hide DayNumber, MakeTime, YearFromDay, MonthFromDay, DateFromDay, IsReal, DayOf, HourOf, MinuteOf, SecondOf, MsOf;
    TimeOfDay(c.hour, c.minute, c.second, c.ms, DayNumber(CivilPart(c)));
    CivilOfDayNumber(CivilPart(c));
  }

  lemma ClipInRange(d: int, time: int)
    requires -MAX_DAY < d < MAX_DAY && 0 <= time < 86_400_000
    ensures TimeClip(d * 86_400_000 + time) == Some(d * 86_400_000 + time)
  {
  }

  /** Components that survive the round trip are real. */
  lemma SurvivorsAreReal(c: IsoComponents, t: int)
    requires ToUtcDate(c) == Some(t) && !IsRoundTripMismatch(t, c) && 0 <= c.ms < 1000 && 0 <= c.year
    ensures IsReal(CivilPart(c)) && 100 <= c.year && IsRealTime(c)
  {
    hide Utc, YearFromDay, MonthFromDay, DateFromDay, DayOf, HourOf, MinuteOf, SecondOf, MsOf, IsReal, DayNumber;
    TimeRebuilt(t);
    DayNumberOfCivil(DayOf(t));
    assert CivilOf(DayOf(t)) == CivilPart(c);
    if c.year < 100 {
      ShiftedYearDay(c, t);
      assert false;
    }
  }

  /** A year 0 to 99 is built 1900 years later, so it cannot be read back. */
  lemma ShiftedYearDay(c: IsoComponents, t: int)
    requires ToUtcDate(c) == Some(t) && 0 <= c.year < 100 && IsRealTime(c) && IsReal(CivilPart(c))
    ensures CivilOf(DayOf(t)).year == c.year + 1900
  {
    hide MakeDay, CivilOf, IsReal, DayOf, HourOf, MinuteOf, SecondOf, MsOf, MakeTime;
    var day := MakeDay(c.year + 1900, c.month - 1, c.day);
    LocalDates.ShiftedDay(CivilPart(c));
    TimeOfDay(c.hour, c.minute, c.second, c.ms, day);
  }

  /**
   `parseStrictIso` accepts exactly the strings of its shape that write a real UTC date and time, in
   years 0100 to 9999, and returns that instant: no day, hour 24 or second 60 rolls over.
   */
  lemma AcceptsExactlyRealTimes(s: string)
    ensures ParseStrictIso(s) ==
      if HeadShape(s) && TailShape(s) && IsReal(CivilPart(Components(s))) && Components(s).year >= 100 && IsRealTime(Components(s))
      then
        var c := Components(s);
        Some(DayNumber(CivilPart(c)) * 86_400_000 + MakeTime(c.hour, c.minute, c.second, c.ms))
      else None
  {
    hide IsRoundTripMismatch, ToUtcDate, IsReal, DayNumber, MakeTime, DigitsAt, NumberAt;
    if HeadShape(s) && TailShape(s) {
      var c := Components(s);
      Powers();
      NumberBound(s, 0, 4);
      if |s| == 24 { NumberBound(s, 20, 3); }
      if ParseStrictIso(s).Some? {
        SurvivorsAreReal(c, ParseStrictIso(s).value);
        RealComponents(c);
      } else if IsReal(CivilPart(c)) && c.year >= 100 && IsRealTime(c) {
        RealComponents(c);
      }
    }
  }

  // ---------------------------------------------------------------------------------------------
  // The printer
  // ---------------------------------------------------------------------------------------------

  /** `n` in exactly `width` digits. */
  function Padded(n: int, width: nat): (s: string)
    requires n >= 0
    ensures |s| == width && forall k :: 0 <= k < width ==> IsDigit(s[k])
    decreases width
  {
    if width == 0 then "" else Padded(n / 10, width - 1) + [Digit(n % 10)]
  }

  /** Four digits for years 0 to 9999, otherwise a sign and six. */
  function YearText(y: int): string {
    if 0 <= y <= 9999 then Padded(y, 4)
    else if y < 0 then "-" + Padded(-y, 6)
    else "+" + Padded(y, 6)
  }

  /** `toISOString` of a time value. */
  function ToIso(t: int): string
    requires -MAX_TIME <= t <= MAX_TIME
  {
    var d := DayOf(t);
    TimeRebuilt(t);
    DayNumberOfCivil(d);
    YearText(YearFromDay(d)) + "-" + Padded(MonthFromDay(d) + 1, 2) + "-" + Padded(DateFromDay(d), 2) + "T"
    + Padded(HourOf(t), 2) + ":" + Padded(MinuteOf(t), 2) + ":" + Padded(SecondOf(t), 2) + "." + Padded(MsOf(t), 3) + "Z"
  }

  /** Digits inside a longer string write the same number. */
  lemma {:induction false} NumberAtShift(s: string, i: nat, p: string, n: nat)
    requires DigitsAt(p, 0, n) && i + n <= |s| && forall k :: 0 <= k < n ==> s[i + k] == p[k]
    ensures DigitsAt(s, i, n) && NumberAt(s, i, n) == NumberAt(p, 0, n)
  {
    assert forall k :: i <= k < i + n ==> s[k] == p[k - i];
    if n > 0 { NumberAtShift(s, i, p, n - 1); }
  }

  /** Padding loses nothing when the number fits. */
  lemma {:induction false} PaddedValue(n: int, width: nat)
    requires 0 <= n < Power10(width)
    ensures DigitsAt(Padded(n, width), 0, width) && NumberAt(Padded(n, width), 0, width) == n
  {
    if width > 0 {
      var p, q := Padded(n, width), Padded(n / 10, width - 1);
      PaddedValue(n / 10, width - 1);
      NumberAtShift(p, 0, q, width - 1);
    }
  }

  /** A printed field reads back as the number printed. */
  lemma FieldAt(s: string, i: nat, n: int, width: nat)
    requires 0 <= n < Power10(width) && i + width <= |s| && s[i..i + width] == Padded(n, width)
    ensures DigitsAt(s, i, width) && NumberAt(s, i, width) == n
  {
    PaddedValue(n, width);
    var p := Padded(n, width);
    forall k | 0 <= k < width ensures s[i + k] == p[k] {
      assert s[i..i + width][k] == s[i + k];
    }
    NumberAtShift(s, i, p, width);
  }

  /** The printed text, field by field, when the year has four digits. */
  lemma Layout(y: string, m: string, d: string, h: string, mi: string, sec: string, ms: string, s: string)
    requires |y| == 4 && |m| == |d| == |h| == |mi| == |sec| == 2 && |ms| == 3
    requires s == y + "-" + m + "-" + d + "T" + h + ":" + mi + ":" + sec + "." + ms + "Z"
    ensures |s| == 24 && s[4] == '-' && s[7] == '-' && s[10] == 'T' && s[13] == ':' && s[16] == ':' && s[19] == '.' && s[23] == 'Z'
    ensures s[0..0 + 4] == y && s[5..5 + 2] == m && s[8..8 + 2] == d && s[11..11 + 2] == h && s[14..14 + 2] == mi
    ensures s[17..17 + 2] == sec && s[20..20 + 3] == ms
  {
    var head := y + "-" + m + "-" + d + "T";
    var tail := h + ":" + mi + ":" + sec + "." + ms + "Z";
    assert s == head + tail;
    assert tail[0..2] == h && tail[3..5] == mi && tail[6..8] == sec && tail[9..12] == ms;
    Within(head, tail, 0, 2);
    Within(head, tail, 3, 2);
    Within(head, tail, 6, 2);
    Within(head, tail, 9, 3);
  }

  lemma Within(head: string, tail: string, i: nat, n: nat)
    requires i + n <= |tail|
    ensures (head + tail)[|head| + i..|head| + i + n] == tail[i..i + n]
  {
  }

  lemma PrintedComponents(t: int)
    requires -MAX_TIME <= t <= MAX_TIME && 0 <= YearFromDay(DayOf(t)) <= 9999
    ensures var s := ToIso(t);
            && HeadShape(s) && TailShape(s)
            && Components(s) == IsoComponents(YearFromDay(DayOf(t)), MonthFromDay(DayOf(t)) + 1, DateFromDay(DayOf(t)),
                                              HourOf(t), MinuteOf(t), SecondOf(t), MsOf(t))
  {
    hide NumberAt, DigitsAt, Padded, YearFromDay, MonthFromDay, DateFromDay, DayOf, HourOf, MinuteOf, SecondOf, MsOf, Power10;
    var s, d := ToIso(t), DayOf(t);
    TimeRebuilt(t);
    DayNumberOfCivil(d);
    Powers();
    Layout(Padded(YearFromDay(d), 4), Padded(MonthFromDay(d) + 1, 2), Padded(DateFromDay(d), 2), Padded(HourOf(t), 2),
           Padded(MinuteOf(t), 2), Padded(SecondOf(t), 2), Padded(MsOf(t), 3), s);
    FieldAt(s, 0, YearFromDay(d), 4);
    FieldAt(s, 5, MonthFromDay(d) + 1, 2);
    FieldAt(s, 8, DateFromDay(d), 2);
    FieldAt(s, 11, HourOf(t), 2);
    FieldAt(s, 14, MinuteOf(t), 2);
    FieldAt(s, 17, SecondOf(t), 2);
    FieldAt(s, 20, MsOf(t), 3);
  }

  /** Outside years 0 to 9999 the text starts with a sign, which the pattern does not allow. */
  lemma SignedYear(t: int)
    requires -MAX_TIME <= t <= MAX_TIME && !(0 <= YearFromDay(DayOf(t)) <= 9999)
    ensures !HeadShape(ToIso(t))
  {
    hide YearFromDay, MonthFromDay, DateFromDay, DayOf, HourOf, MinuteOf, SecondOf, MsOf, Padded;
    var y := YearFromDay(DayOf(t));
    assert ToIso(t)[0] == YearText(y)[0];
    assert !IsDigit(YearText(y)[0]);
  }

  /** The parser undoes the printer for every instant in years 0100 to 9999, and refuses all others. */
  lemma ParseUndoesPrint(t: int)
    requires -MAX_TIME <= t <= MAX_TIME
    ensures ParseStrictIso(ToIso(t)) == if 100 <= YearFromDay(DayOf(t)) <= 9999 then Some(t) else None
  {
    hide HeadShape, TailShape, YearFromDay, MonthFromDay, DateFromDay, DayOf, HourOf, MinuteOf, SecondOf, MsOf, ToIso, Components,
      DayNumber, IsReal;
    AcceptsExactlyRealTimes(ToIso(t));
    if 0 <= YearFromDay(DayOf(t)) <= 9999 {
      PrintedComponents(t);
      TimeRebuilt(t);
      DayNumberOfCivil(DayOf(t));
    } else {
      SignedYear(t);
    }
  }

  // ---------------------------------------------------------------------------------------------
  // The other way round
  // ---------------------------------------------------------------------------------------------

  /** Digits are what padding their number gives back. */
  lemma {:induction false} PaddedNumber(s: string, i: nat, n: nat)
    requires DigitsAt(s, i, n)
    ensures Padded(NumberAt(s, i, n), n) == s[i..i + n]
  {
    if n > 0 {
      PaddedNumber(s, i, n - 1);
      var v := NumberAt(s, i, n - 1);
      var d := DigitValue(s[i + n - 1]);
      assert (v * 10 + d) / 10 == v && (v * 10 + d) % 10 == d;
      assert s[i..i + n] == s[i..i + (n - 1)] + [s[i + n - 1]];
    }
  }

  /** Texts of the printer's layout with the same fields are the same. */
  lemma SameFields(s: string, p: string)
    requires |s| == |p| == 24 && HeadShape(s) && TailShape(s) && HeadShape(p) && TailShape(p)
    requires s[0..4] == p[0..4] && s[5..7] == p[5..7] && s[8..10] == p[8..10] && s[11..13] == p[11..13]
    requires s[14..16] == p[14..16] && s[17..19] == p[17..19] && s[20..23] == p[20..23]
    ensures s == p
  {
    hide DigitsAt;
    Piece(s, p, 0, 4);
    Piece(s, p, 5, 7);
    Piece(s, p, 8, 10);
    Piece(s, p, 11, 13);
    Piece(s, p, 14, 16);
    Piece(s, p, 17, 19);
    Piece(s, p, 20, 23);
    forall k | 0 <= k < 24 ensures s[k] == p[k] {
    }
  }

  lemma Piece(s: string, p: string, i: nat, j: nat)
    requires |s| == |p| && i <= j <= |s| && s[i..j] == p[i..j]
    ensures forall k :: i <= k < j ==> s[k] == p[k]
  {
    forall k | i <= k < j ensures s[k] == p[k] {
      assert s[i..j][k - i] == s[k] && p[i..j][k - i] == p[k];
    }
  }

  /** Equal components mean equal texts, for texts with milliseconds. */
  lemma SameComponents(s: string, p: string)
    requires |s| == |p| == 24 && HeadShape(s) && TailShape(s) && HeadShape(p) && TailShape(p) && Components(s) == Components(p)
    ensures s == p
  {
    FieldText(s);
    FieldText(p);
    hide HeadShape, TailShape, Padded, NumberAt;
    SameFields(s, p);
  }

  lemma FieldText(s: string)
    requires |s| == 24 && HeadShape(s) && TailShape(s)
    ensures var c := Components(s);
            && c.year >= 0 && c.month >= 0 && c.day >= 0 && c.hour >= 0 && c.minute >= 0 && c.second >= 0 && c.ms >= 0
            && s[0..4] == Padded(c.year, 4) && s[5..7] == Padded(c.month, 2) && s[8..10] == Padded(c.day, 2)
            && s[11..13] == Padded(c.hour, 2) && s[14..16] == Padded(c.minute, 2) && s[17..19] == Padded(c.second, 2)
            && s[20..23] == Padded(c.ms, 3)
  {
    hide NumberAt, Padded, DigitsAt;
    PaddedNumber(s, 0, 4);
    PaddedNumber(s, 5, 2);
    PaddedNumber(s, 8, 2);
    PaddedNumber(s, 11, 2);
    PaddedNumber(s, 14, 2);
    PaddedNumber(s, 17, 2);
    PaddedNumber(s, 20, 3);
  }

  /** The printer undoes the parser: an accepted text with milliseconds is the one the instant is printed as. */
  lemma PrintUndoesParse(s: string)
    requires |s| == 24 && ParseStrictIso(s).Some?
    ensures -MAX_TIME <= ParseStrictIso(s).value <= MAX_TIME && ToIso(ParseStrictIso(s).value) == s
  {
    var t := ParseStrictIso(s).value;
    var c := Components(s);
    ParsedReadsBack(s);
    hide HeadShape, TailShape, ToIso, Components, YearFromDay, MonthFromDay, DateFromDay, DayOf, HourOf, MinuteOf, SecondOf, MsOf,
      ParseStrictIso, ToUtcDate, IsRoundTripMismatch;
    PrintedComponents(t);
    PrintedLength(t);
    SameComponents(s, ToIso(t));
  }

  lemma PrintedLength(t: int)
    requires -MAX_TIME <= t <= MAX_TIME && 0 <= YearFromDay(DayOf(t)) <= 9999
    ensures |ToIso(t)| == 24
  {
    hide Padded, YearFromDay, MonthFromDay, DateFromDay, DayOf, HourOf, MinuteOf, SecondOf, MsOf;
  }

  /** The instant of an accepted text has exactly the text's components. */
  lemma ParsedReadsBack(s: string)
    requires |s| == 24 && ParseStrictIso(s).Some?
    ensures HeadShape(s) && TailShape(s)
    ensures var t := ParseStrictIso(s).value;
            && -MAX_TIME <= t <= MAX_TIME && 0 <= YearFromDay(DayOf(t)) <= 9999
            && Components(s) == IsoComponents(YearFromDay(DayOf(t)), MonthFromDay(DayOf(t)) + 1, DateFromDay(DayOf(t)),
                                              HourOf(t), MinuteOf(t), SecondOf(t), MsOf(t))
  {
    var t := ParseStrictIso(s).value;
    var c := Components(s);
    hide YearFromDay, MonthFromDay, DateFromDay, DayOf, HourOf, MinuteOf, SecondOf, MsOf, DigitsAt, NumberAt, Components, MakeDay,
      IsReal, DayNumber;
    AcceptsExactlyRealTimes(s);
    Powers();
    YearFits(s);
    TimeOfDay(c.hour, c.minute, c.second, c.ms, DayNumber(CivilPart(c)));
  }

  lemma YearFits(s: string)
    requires HeadShape(s) && TailShape(s)
    ensures 0 <= Components(s).year <= 9999
  {
    Powers();
    NumberBound(s, 0, 4);
  }

  /** Leaving the milliseconds out means zero of them. */
  lemma MillisecondsDefaultToZero(s: string)
    requires |s| == 20 && HeadShape(s) && TailShape(s)
    ensures ParseStrictIso(s) == ParseStrictIso(s[..19] + ".000Z")
  {
    var p := s[..19] + ".000Z";
    assert |p| == 24 && p[19] == '.' && p[23] == 'Z' && p[20] == p[21] == p[22] == '0';
    assert forall k :: 0 <= k < 19 ==> p[k] == s[k];
    assert HeadShape(p) && TailShape(p);
    hide HeadShape, TailShape;
    SameNumber(s, p, 0, 4);
    SameNumber(s, p, 5, 2);
    SameNumber(s, p, 8, 2);
    SameNumber(s, p, 11, 2);
    SameNumber(s, p, 14, 2);
    SameNumber(s, p, 17, 2);
    assert NumberAt(p, 20, 0) == 0 && NumberAt(p, 20, 1) == 0 && NumberAt(p, 20, 2) == 0 && NumberAt(p, 20, 3) == 0;
    hide NumberAt, DigitsAt, ToUtcDate, IsRoundTripMismatch;
  }

  lemma {:induction false} SameNumber(s: string, p: string, i: nat, n: nat)
    requires DigitsAt(s, i, n) && i + n <= |p| && forall k :: i <= k < i + n ==> p[k] == s[k]
    ensures DigitsAt(p, i, n) && NumberAt(p, i, n) == NumberAt(s, i, n)
  {
    if n > 0 { SameNumber(s, p, i, n - 1); }
  }

  /** The printed text without its milliseconds. */
  function WholeSeconds(t: int): string
    requires -MAX_TIME <= t <= MAX_TIME
  {
    if |ToIso(t)| >= 19 then ToIso(t)[..19] + "Z" else ""
  }

  /** An accepted text of 20 characters is a printed one, at a whole second, without the milliseconds. */
  lemma ShortText(s: string)
    requires |s| == 20 && ParseStrictIso(s).Some?
    ensures var t := ParseStrictIso(s).value;
            -MAX_TIME <= t <= MAX_TIME && 100 <= YearFromDay(DayOf(t)) <= 9999 && MsOf(t) == 0 && s == WholeSeconds(t)
  {
    var t, p := ParseStrictIso(s).value, s[..19] + ".000Z";
    assert HeadShape(s) && TailShape(s);
    hide HeadShape, ToIso, YearFromDay, DayOf, MsOf;
    MillisecondsDefaultToZero(s);
    hide ParseStrictIso;
    ParsedReadsBack(p);
    ZeroMilliseconds(p);
    PrintUndoesParse(p);
    ParseUndoesPrint(t);
    assert p[..19] == s[..19] && s == s[..19] + "Z";
  }

  lemma ZeroMilliseconds(p: string)
    requires |p| == 24 && HeadShape(p) && TailShape(p) && p[20] == p[21] == p[22] == '0'
    ensures Components(p).ms == 0
  {
    assert NumberAt(p, 20, 0) == 0 && NumberAt(p, 20, 1) == 0 && NumberAt(p, 20, 2) == 0;
    hide HeadShape, DigitsAt;
  }

  /** A whole second may be written without its milliseconds. */
  lemma ShortTextParses(t: int)
    requires -MAX_TIME <= t <= MAX_TIME && 100 <= YearFromDay(DayOf(t)) <= 9999 && MsOf(t) == 0
    ensures ParseStrictIso(WholeSeconds(t)) == Some(t)
  {
    PrintedEnd(t);
    hide YearFromDay, DayOf, MsOf, ToIso, DigitsAt;
    PrintedComponents(t);
    PrintedLength(t);
    ParseUndoesPrint(t);
    var p, s := ToIso(t), WholeSeconds(t);
    assert forall k :: 0 <= k < 19 ==> s[k] == p[k];
    assert HeadShape(s) by { HeadOfPrefix(s, p); }
    assert TailShape(s);
    hide HeadShape, TailShape, ParseStrictIso;
    MillisecondsDefaultToZero(s);
    assert s[..19] == p[..19];
    assert s[..19] + ".000Z" == p;
  }

  lemma HeadOfPrefix(s: string, p: string)
    requires |s| >= 20 && HeadShape(p) && forall k :: 0 <= k < 19 ==> s[k] == p[k]
    ensures HeadShape(s)
  {
  }

  lemma PrintedEnd(t: int)
    requires -MAX_TIME <= t <= MAX_TIME && 0 <= YearFromDay(DayOf(t)) <= 9999 && MsOf(t) == 0
    ensures |ToIso(t)| == 24 && ToIso(t) == ToIso(t)[..19] + ".000Z"
  {
    PrintedLength(t);
    ZeroPadded();
    hide YearFromDay, MonthFromDay, DateFromDay, DayOf, HourOf, MinuteOf, SecondOf, MsOf, Padded;
    var s := ToIso(t);
    assert s[19..] == "." + Padded(MsOf(t), 3) + "Z";
    assert s == s[..19] + s[19..];
    assert "." + "000" + "Z" == ".000Z";
  }

  lemma ZeroPadded()
    ensures Padded(0, 3) == "000"
  {
    assert Padded(0, 0) == "" && Padded(0, 1) == "0" && Padded(0, 2) == "00";
  }

  /**
   A text is accepted as an instant exactly when it is what the instant is printed as, or that without milliseconds at a
   whole second, in years 0100 to 9999.
   */
  lemma AcceptsExactlyPrinted(s: string, t: int)
    ensures ParseStrictIso(s) == Some(t) <==>
            && -MAX_TIME <= t <= MAX_TIME && 100 <= YearFromDay(DayOf(t)) <= 9999
            && (s == ToIso(t) || (MsOf(t) == 0 && s == WholeSeconds(t)))
  {
    hide ParseStrictIso, ToIso, WholeSeconds, YearFromDay, DayOf, MsOf;
    if ParseStrictIso(s) == Some(t) {
      AcceptedIsPrinted(s);
    }
    if -MAX_TIME <= t <= MAX_TIME && 100 <= YearFromDay(DayOf(t)) <= 9999 {
      ParseUndoesPrint(t);
      if MsOf(t) == 0 { ShortTextParses(t); }
    }
  }

  lemma AcceptedIsPrinted(s: string)
    requires ParseStrictIso(s).Some?
    ensures var t := ParseStrictIso(s).value;
            && -MAX_TIME <= t <= MAX_TIME && 100 <= YearFromDay(DayOf(t)) <= 9999
            && (s == ToIso(t) || (MsOf(t) == 0 && s == WholeSeconds(t)))
  {
    AcceptedLength(s);
    hide ParseStrictIso, ToIso, WholeSeconds, YearFromDay, DayOf, MsOf;
    if |s| == 24 {
      PrintUndoesParse(s);
      ParseUndoesPrint(ParseStrictIso(s).value);
    } else {
      ShortText(s);
    }
  }

  lemma AcceptedLength(s: string)
    requires ParseStrictIso(s).Some?
    ensures |s| == 20 || |s| == 24
  {
    hide DigitsAt, ToUtcDate, IsRoundTripMismatch;
  }
}
