/**
 * UTC civil time in the proleptic Gregorian calendar: conversion between a
 * calendar date-time and integer seconds since 1970-01-01T00:00:00Z, and the
 * strict `YYYY-MM-DDTHH:MM:SSZ` text form that the activity start dates and
 * the GPX point times use (`strptime`/`strftime` with "%Y-%m-%dT%H:%M:%SZ").
 */
module UtcTime {
  import opened Opt
  import opened Decimal

  datatype DateTime = DateTime(year: int, month: int, day: int, hour: int, minute: int, second: int)

  predicate IsLeapYear(y: int) {
    y % 4 == 0 && (y % 100 != 0 || y % 400 == 0)
  }

  function DaysInYear(y: int): int {
    if IsLeapYear(y) then 366 else 365
  }

  function DaysInMonth(y: int, m: int): int
    requires 1 <= m <= 12
  {
    if m == 2 then (if IsLeapYear(y) then 29 else 28)
    else if m == 4 || m == 6 || m == 9 || m == 11 then 30
    else 31
  }

  /** A real calendar instant, at whole-second resolution, in any year. */
  predicate ValidDate(dt: DateTime) {
    && 1 <= dt.month <= 12
    && 1 <= dt.day <= DaysInMonth(dt.year, dt.month)
    && 0 <= dt.hour < 24
    && 0 <= dt.minute < 60
    && 0 <= dt.second < 60
  }

  /** An instant Python's `datetime` can hold: a valid date in years 1 through 9999. */
  predicate Representable(dt: DateTime) {
    ValidDate(dt) && 1 <= dt.year <= 9999
  }

  const SecondsPerDay := 86400

  /** Days from 0001-01-01 to 1970-01-01. */
  const EpochOrdinal := 719162

  /** Days from 1970-01-01 to January 1st of year `y` (negative before 1970). */
  function DaysBeforeYear(y: int): int {
    var p := y - 1;
    365 * p + p / 4 - p / 100 + p / 400 - EpochOrdinal
  }

  /** Days of year `y` before the first of month `m`. */
  function DaysBeforeMonth(y: int, m: int): int
    requires 1 <= m <= 12
  {
    [0, 31, 59, 90, 120, 151, 181, 212, 243, 273, 304, 334][m - 1]
      + (if m > 2 && IsLeapYear(y) then 1 else 0)
  }

  /** Days from 1970-01-01 to the given date. */
  function DayNumber(y: int, m: int, d: int): int
    requires 1 <= m <= 12
  {
    DaysBeforeYear(y) + DaysBeforeMonth(y, m) + d - 1
  }

  /** Seconds since the epoch (what `timestamp()` gives for a UTC instant). */
  function ToEpoch(dt: DateTime): int
    requires ValidDate(dt)
  {
    DayNumber(dt.year, dt.month, dt.day) * SecondsPerDay
      + dt.hour * 3600 + dt.minute * 60 + dt.second
  }

  lemma DaysBeforeNextYear(y: int)
    ensures DaysBeforeYear(y + 1) == DaysBeforeYear(y) + DaysInYear(y)
  {
    var p := y - 1;
    assert (p + 1) / 4 - p / 4 == if y % 4 == 0 then 1 else 0;
    assert (p + 1) / 100 - p / 100 == if y % 100 == 0 then 1 else 0;
    assert (p + 1) / 400 - p / 400 == if y % 400 == 0 then 1 else 0;
  }

  /** Years are laid end to end: each later year starts at least 365 days later. */
  lemma {:induction false} DaysBeforeYearGrows(y1: int, y2: int)
    requires y1 <= y2
    ensures DaysBeforeYear(y1) + 365 * (y2 - y1) <= DaysBeforeYear(y2)
    decreases y2 - y1
  {
    if y1 < y2 {
      DaysBeforeYearGrows(y1, y2 - 1);
      DaysBeforeNextYear(y2 - 1);
    }
  }

  lemma MonthsFillYear(y: int, m: int)
    requires 1 <= m <= 12
    ensures DaysBeforeMonth(y, 1) == 0
    ensures m < 12 ==> DaysBeforeMonth(y, m + 1) == DaysBeforeMonth(y, m) + DaysInMonth(y, m)
    ensures DaysBeforeMonth(y, 12) + DaysInMonth(y, 12) == DaysInYear(y)
  {
  }

  /**
   * The day count from 0001-01-01 of January 1st of year 400a+100b+4c+d+1,
   * read off the 400-, 100- and 4-year cycles of the Gregorian calendar.
   */
  lemma CycleDays(a: int, b: int, c: int, d: int)
    requires 0 <= b < 4 && 0 <= c < 25 && 0 <= d < 4
    ensures DaysBeforeYear(400 * a + 100 * b + 4 * c + d + 1) + EpochOrdinal
         == 146097 * a + 36524 * b + 1461 * c + 365 * d
  {
    var p := 400 * a + 100 * b + 4 * c + d;
    assert p / 4 == 100 * a + 25 * b + c;
    assert p / 100 == 4 * a + b;
    assert p / 400 == a;
  }

  lemma RemainderOf4(q: int)
    ensures (4 * q) % 4 == 0
  {
  }

  lemma RemainderOf100(q: int, r: int)
    requires 0 <= r < 100
    ensures (100 * q + r) % 100 == r
  {
  }

  lemma RemainderOf400(q: int)
    ensures (400 * q) % 400 == 0
  {
  }

  /** A day that is not the last of a 4-year cycle lies in year 400a+100b+4c+d+1. */
  lemma WithinCycleYear(a: int, b: int, c: int, d: int, e: int)
    requires 0 <= b < 4 && 0 <= c < 25 && 0 <= d < 4 && 0 <= e < 365
    ensures var y, n := 400 * a + 100 * b + 4 * c + d + 1, 146097 * a + 36524 * b + 1461 * c + 365 * d + e - EpochOrdinal;
      DaysBeforeYear(y) <= n < DaysBeforeYear(y) + DaysInYear(y)
  {
    CycleDays(a, b, c, d);
  }

  /** The last day of a 4-year cycle is December 31st of the leap year closing it. */
  lemma LastDayOfLeapCycle(a: int, b: int, c: int)
    requires 0 <= b < 4 && 0 <= c < 24
    ensures var y, n := 400 * a + 100 * b + 4 * c + 4, 146097 * a + 36524 * b + 1461 * c + 1460 - EpochOrdinal;
      DaysBeforeYear(y) <= n < DaysBeforeYear(y) + DaysInYear(y)
  {
    CycleDays(a, b, c, 3);
    var y := 400 * a + 100 * b + 4 * c + 4;
    RemainderOf4(100 * a + 25 * b + c + 1);
    RemainderOf100(4 * a + b, 4 * c + 4);
    assert IsLeapYear(y);
  }

  /** The last day of a 400-year cycle is December 31st of the leap century year closing it. */
  lemma LastDayOfCycle(a: int)
    ensures var y, n := 400 * a + 400, 146097 * a + 146096 - EpochOrdinal;
      DaysBeforeYear(y) <= n < DaysBeforeYear(y) + DaysInYear(y)
  {
    CycleDays(a, 3, 24, 3);
    var y := 400 * a + 400;
    RemainderOf400(a + 1);
    RemainderOf4(100 * a + 100);
    assert IsLeapYear(y);
  }

  /** The year holding day `n` (counted from 1970-01-01), found through the calendar cycles. */
  function YearOfDay(n: int): (y: int)
    ensures DaysBeforeYear(y) <= n < DaysBeforeYear(y) + DaysInYear(y)
  {
    var n0 := n + EpochOrdinal;
    var a, r400 := n0 / 146097, n0 % 146097;
    var b, r100 := r400 / 36524, r400 % 36524;
    var c, r4 := r100 / 1461, r100 % 1461;
    var d, e := r4 / 365, r4 % 365;
    assert n0 == 146097 * a + r400 && 0 <= r400 < 146097;
    assert r400 == 36524 * b + r100 && 0 <= r100 < 36524 && 0 <= b <= 4;
    assert r100 == 1461 * c + r4 && 0 <= r4 < 1461 && 0 <= c < 25;
    assert r4 == 365 * d + e && 0 <= e < 365 && 0 <= d <= 4;
    if b == 4 then
      LastDayOfCycle(a);
      400 * a + 400
    else if d == 4 then
      LastDayOfLeapCycle(a, b, c);
      400 * a + 100 * b + 4 * c + 4
    else
      WithinCycleYear(a, b, c, d, e);
      400 * a + 100 * b + 4 * c + d + 1
  }

  /** The month of year `y` holding day `doy` of that year, searching down from month `m`. */
  function MonthFrom(y: int, doy: int, m: int): (r: int)
    requires 1 <= m <= 12
    requires 0 <= doy < DaysBeforeMonth(y, m) + DaysInMonth(y, m)
    ensures 1 <= r <= m
    ensures DaysBeforeMonth(y, r) <= doy < DaysBeforeMonth(y, r) + DaysInMonth(y, r)
  {
    MonthsFillYear(y, m);
    if doy >= DaysBeforeMonth(y, m) || m == 1 then m
    else
      MonthsFillYear(y, m - 1);
      MonthFrom(y, doy, m - 1)
  }

  /** The calendar instant `t` seconds after the epoch (what `fromtimestamp` gives in UTC). */
  function FromEpoch(t: int): (dt: DateTime)
    ensures ValidDate(dt)
    ensures ToEpoch(dt) == t
  {
    var days, secs := t / SecondsPerDay, t % SecondsPerDay;
    assert t == days * SecondsPerDay + secs && 0 <= secs < SecondsPerDay;
    ClockOf(secs);
    var y := YearOfDay(days);
    MonthsFillYear(y, 12);
    var m := MonthFrom(y, days - DaysBeforeYear(y), 12);
    DateTime(y, m, days - DaysBeforeYear(y) - DaysBeforeMonth(y, m) + 1,
             secs / 3600, secs % 3600 / 60, secs % 60)
  }

  /** A second of the day splits into hours, minutes and seconds on the clock. */
  lemma ClockOf(secs: int)
    requires 0 <= secs < SecondsPerDay
    ensures 0 <= secs / 3600 < 24 && 0 <= secs % 3600 / 60 < 60 && 0 <= secs % 60 < 60
    ensures secs == secs / 3600 * 3600 + secs % 3600 / 60 * 60 + secs % 60
  {
    var h, rest := secs / 3600, secs % 3600;
    assert secs == h * 3600 + rest && 0 <= rest < 3600;
    assert rest == rest / 60 * 60 + rest % 60;
    assert rest % 60 == secs % 60;
  }

  /** Converting an instant to epoch seconds and back gives the same instant. */
  lemma EpochRoundTrip(dt: DateTime)
    requires ValidDate(dt)
    ensures FromEpoch(ToEpoch(dt)) == dt
  {
    EpochInjective(FromEpoch(ToEpoch(dt)), dt);
  }

  /** The order `datetime` objects compare in: field by field, most significant first. */
  predicate Before(a: DateTime, b: DateTime) {
    if a.year != b.year then a.year < b.year
    else if a.month != b.month then a.month < b.month
    else if a.day != b.day then a.day < b.day
    else if a.hour != b.hour then a.hour < b.hour
    else if a.minute != b.minute then a.minute < b.minute
    else a.second < b.second
  }

  /** The order is a strict total order: transitive, and any two distinct instants are comparable. */
  lemma BeforeOrder(a: DateTime, b: DateTime, c: DateTime)
    ensures Before(a, b) && Before(b, c) ==> Before(a, c)
    ensures !Before(a, a)
    ensures a != b ==> Before(a, b) || Before(b, a)
  {
  }

  lemma DayNumberWithinYear(y: int, m: int, d: int)
    requires 1 <= m <= 12 && 1 <= d <= DaysInMonth(y, m)
    ensures DaysBeforeYear(y) <= DayNumber(y, m, d) < DaysBeforeYear(y) + DaysInYear(y)
  {
    MonthsFillYear(y, m);
    MonthsFillYear(y, 12);
    if m < 12 {
      assert DaysBeforeMonth(y, m + 1) <= DaysBeforeMonth(y, 12);
    }
  }

  lemma EarlierDayNumber(a: DateTime, b: DateTime)
    requires ValidDate(a) && ValidDate(b)
    requires (a.year, a.month, a.day) != (b.year, b.month, b.day) && Before(a, b)
    ensures DayNumber(a.year, a.month, a.day) < DayNumber(b.year, b.month, b.day)
  {
    if a.year < b.year {
      DayNumberWithinYear(a.year, a.month, a.day);
      DayNumberWithinYear(b.year, b.month, b.day);
      DaysBeforeNextYear(a.year);
      DaysBeforeYearGrows(a.year + 1, b.year);
    } else if a.month < b.month {
      MonthsFillYear(a.year, a.month);
    }
  }

  /** Distinct valid instants have distinct epoch seconds. */
  lemma EpochInjective(a: DateTime, b: DateTime)
    requires ValidDate(a) && ValidDate(b) && ToEpoch(a) == ToEpoch(b)
    ensures a == b
  {
    EpochOrder(a, b);
    EpochOrder(b, a);
    BeforeOrder(a, b, b);
  }

  /** Comparing instants is comparing their epoch seconds. */
  lemma EpochOrder(a: DateTime, b: DateTime)
    requires ValidDate(a) && ValidDate(b)
    ensures Before(a, b) <==> ToEpoch(a) < ToEpoch(b)
  {
    if (a.year, a.month, a.day) != (b.year, b.month, b.day) {
      if Before(a, b) {
        EarlierDayNumber(a, b);
      } else {
        EarlierDayNumber(b, a);
      }
    }
  }

  /** `strftime("%Y-%m-%dT%H:%M:%SZ")`: every field zero-padded, 20 characters in all. */
  function Format(dt: DateTime): (s: string)
    requires Representable(dt)
    ensures |s| == 20
  {
    Padded(dt.year, 4) + "-" + Padded(dt.month, 2) + "-" + Padded(dt.day, 2) + "T"
      + Padded(dt.hour, 2) + ":" + Padded(dt.minute, 2) + ":" + Padded(dt.second, 2) + "Z"
  }

  predicate WellShaped(s: string) {
    && |s| == 20
    && s[4] == '-' && s[7] == '-' && s[10] == 'T' && s[13] == ':' && s[16] == ':' && s[19] == 'Z'
    && AllDigits(s[0..4]) && AllDigits(s[5..7]) && AllDigits(s[8..10])
    && AllDigits(s[11..13]) && AllDigits(s[14..16]) && AllDigits(s[17..19])
  }

  /**
   * `datetime.strptime(s, "%Y-%m-%dT%H:%M:%SZ")` on the strict zero-padded form:
   * `None` where Python raises `ValueError` (wrong shape or an impossible date).
   */
  function Parse(s: string): (r: Option<DateTime>)
    ensures r.Some? ==> Representable(r.value)
  {
    if !WellShaped(s) then None
    else
      var dt := DateTime(Value(s[0..4]), Value(s[5..7]), Value(s[8..10]),
                         Value(s[11..13]), Value(s[14..16]), Value(s[17..19]));
      if Representable(dt) then Some(dt) else None
  }

  /** Parsing a formatted instant gives the instant back. */
  lemma ParseFormat(dt: DateTime)
    requires Representable(dt)
    ensures Parse(Format(dt)) == Some(dt)
  {
    var s := Format(dt);
    assert s[0..4] == Padded(dt.year, 4);
    assert s[5..7] == Padded(dt.month, 2);
    assert s[8..10] == Padded(dt.day, 2);
    assert s[11..13] == Padded(dt.hour, 2);
    assert s[14..16] == Padded(dt.minute, 2);
    assert s[17..19] == Padded(dt.second, 2);
    PaddedRoundTrip(dt.year, 4);
    PaddedRoundTrip(dt.month, 2);
    PaddedRoundTrip(dt.day, 2);
    PaddedRoundTrip(dt.hour, 2);
    PaddedRoundTrip(dt.minute, 2);
    PaddedRoundTrip(dt.second, 2);
  }

  /** A string that parses is exactly the formatted form of what it parses to. */
  lemma FormatParse(s: string)
    requires Parse(s).Some?
    ensures Format(Parse(s).value) == s
  {
    assert WellShaped(s);
    PaddedOfValue(s[0..4]);
    PaddedOfValue(s[5..7]);
    PaddedOfValue(s[8..10]);
    PaddedOfValue(s[11..13]);
    PaddedOfValue(s[14..16]);
    PaddedOfValue(s[17..19]);
    assert Format(Parse(s).value) == s[0..4] + [s[4]] + s[5..7] + [s[7]] + s[8..10] + [s[10]]
      + s[11..13] + [s[13]] + s[14..16] + [s[16]] + s[17..19] + [s[19]];
    Reassembled(s);
  }

  /** A 20-character string is its fields and separators laid end to end. */
  lemma Reassembled(s: string)
    requires |s| == 20
    ensures s == s[0..4] + [s[4]] + s[5..7] + [s[7]] + s[8..10] + [s[10]]
      + s[11..13] + [s[13]] + s[14..16] + [s[16]] + s[17..19] + [s[19]]
  {
  }

  /** The instant `offset` seconds after `start`, as epoch arithmetic rather than text. */
  function Shift(start: DateTime, offset: int): (dt: DateTime)
    requires ValidDate(start)
    ensures ValidDate(dt) && ToEpoch(dt) == ToEpoch(start) + offset
  {
    FromEpoch(ToEpoch(start) + offset)
  }

  /** The strict shape, character by character. */
  predicate ShapedByChar(s: string) {
    && |s| == 20
    && IsDigit(s[0]) && IsDigit(s[1]) && IsDigit(s[2]) && IsDigit(s[3]) && s[4] == '-'
    && IsDigit(s[5]) && IsDigit(s[6]) && s[7] == '-' && IsDigit(s[8]) && IsDigit(s[9]) && s[10] == 'T'
    && IsDigit(s[11]) && IsDigit(s[12]) && s[13] == ':' && IsDigit(s[14]) && IsDigit(s[15]) && s[16] == ':'
    && IsDigit(s[17]) && IsDigit(s[18]) && s[19] == 'Z'
  }

  /** What `Parse` reads from a well-shaped string, digit by digit. */
  lemma ParseDigits(s: string)
    requires ShapedByChar(s)
    ensures Parse(s) == (
      var dt := DateTime(
        1000 * DigitValue(s[0]) + 100 * DigitValue(s[1]) + 10 * DigitValue(s[2]) + DigitValue(s[3]),
        10 * DigitValue(s[5]) + DigitValue(s[6]), 10 * DigitValue(s[8]) + DigitValue(s[9]),
        10 * DigitValue(s[11]) + DigitValue(s[12]), 10 * DigitValue(s[14]) + DigitValue(s[15]),
        10 * DigitValue(s[17]) + DigitValue(s[18]));
      if Representable(dt) then Some(dt) else None)
  {
    assert AllDigits(s[0..4]) by { assert forall i :: 0 <= i < 4 ==> s[0..4][i] == s[i]; }
    assert AllDigits(s[5..7]) by { assert s[5..7][0] == s[5] && s[5..7][1] == s[6]; }
    assert AllDigits(s[8..10]) by { assert s[8..10][0] == s[8] && s[8..10][1] == s[9]; }
    assert AllDigits(s[11..13]) by { assert s[11..13][0] == s[11] && s[11..13][1] == s[12]; }
    assert AllDigits(s[14..16]) by { assert s[14..16][0] == s[14] && s[14..16][1] == s[15]; }
    assert AllDigits(s[17..19]) by { assert s[17..19][0] == s[17] && s[17..19][1] == s[18]; }
    assert WellShaped(s);
    FourDigits(s[0..4]);
    TwoDigits(s[5..7]);
    TwoDigits(s[8..10]);
    TwoDigits(s[11..13]);
    TwoDigits(s[14..16]);
    TwoDigits(s[17..19]);
  }

  lemma ShiftLands(start: DateTime, next: DateTime, offset: int)
    requires ValidDate(start) && ValidDate(next)
    requires ToEpoch(next) == ToEpoch(start) + offset
    ensures Shift(start, offset) == next
  {
    EpochInjective(Shift(start, offset), next);
  }

  lemma FormatsAs(s: string, dt: DateTime)
    requires Parse(s) == Some(dt)
    ensures Format(dt) == s
  {
    FormatParse(s);
  }

  lemma ReadsDayBefore()
    ensures Parse("2024-02-19T23:59:50Z") == Some(DateTime(2024, 2, 19, 23, 59, 50))
  {
    var s := "2024-02-19T23:59:50Z";
    assert s[0] == '2';
    assert s[1] == '0';
    assert s[2] == '2';
    assert s[3] == '4';
    assert s[4] == '-';
    assert s[5] == '0';
    assert s[6] == '2';
    assert s[7] == '-';
    assert s[8] == '1';
    assert s[9] == '9';
    assert s[10] == 'T';
    assert s[11] == '2';
    assert s[12] == '3';
    assert s[13] == ':';
    assert s[14] == '5';
    assert s[15] == '9';
    assert s[16] == ':';
    assert s[17] == '5';
    assert s[18] == '0';
    assert s[19] == 'Z';
    assert ShapedByChar(s);
    ParseDigits(s);
  }

  lemma ReadsDayAfter()
    ensures Parse("2024-02-20T00:00:20Z") == Some(DateTime(2024, 2, 20, 0, 0, 20))
  {
    var s := "2024-02-20T00:00:20Z";
    assert s[0] == '2';
    assert s[1] == '0';
    assert s[2] == '2';
    assert s[3] == '4';
    assert s[4] == '-';
    assert s[5] == '0';
    assert s[6] == '2';
    assert s[7] == '-';
    assert s[8] == '2';
    assert s[9] == '0';
    assert s[10] == 'T';
    assert s[11] == '0';
    assert s[12] == '0';
    assert s[13] == ':';
    assert s[14] == '0';
    assert s[15] == '0';
    assert s[16] == ':';
    assert s[17] == '2';
    assert s[18] == '0';
    assert s[19] == 'Z';
    assert ShapedByChar(s);
    ParseDigits(s);
  }

  /** Elapsed seconds roll over into the next day, in text as the GPX points carry it. */
  lemma DayRollover()
    ensures Parse("2024-02-19T23:59:50Z") == Some(DateTime(2024, 2, 19, 23, 59, 50))
    ensures Shift(DateTime(2024, 2, 19, 23, 59, 50), 30) == DateTime(2024, 2, 20, 0, 0, 20)
    ensures Format(Shift(DateTime(2024, 2, 19, 23, 59, 50), 30)) == "2024-02-20T00:00:20Z"
  {
    ReadsDayBefore();
    ReadsDayAfter();
    FormatsAs("2024-02-20T00:00:20Z", DateTime(2024, 2, 20, 0, 0, 20));
    ShiftLands(DateTime(2024, 2, 19, 23, 59, 50), DateTime(2024, 2, 20, 0, 0, 20), 30);
  }

  /** Elapsed seconds roll over into the next year, and into a leap day. */
  lemma YearAndLeapDayRollover()
    ensures Shift(DateTime(2023, 12, 31, 23, 59, 50), 30) == DateTime(2024, 1, 1, 0, 0, 20)
    ensures Shift(DateTime(2024, 2, 28, 23, 0, 0), 3600) == DateTime(2024, 2, 29, 0, 0, 0)
  {
    ShiftLands(DateTime(2023, 12, 31, 23, 59, 50), DateTime(2024, 1, 1, 0, 0, 20), 30);
    ShiftLands(DateTime(2024, 2, 28, 23, 0, 0), DateTime(2024, 2, 29, 0, 0, 0), 3600);
  }
}
