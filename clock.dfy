/** `minmea_gettimeofday`: a parsed date and time of day as seconds and microseconds
    since 1970-01-01 00:00:00 UTC, or a failure when either carries an absent or
    implausible component. */
module Clock {
  import opened Text
  import opened Directives

  /** `struct timeval`. */
  datatype Timeval = Timeval(seconds: int, microseconds: int)

  /** Every component present and in its range; the two-digit year means 2000-2099,
      and a leap second (60) is allowed. */
  predicate Plausible(date: Date, time: Time) {
    && 0 <= date.year <= 99 && 1 <= date.month <= 12 && 1 <= date.day <= 31
    && 0 <= time.hours <= 23 && 0 <= time.minutes <= 59 && 0 <= time.seconds <= 60
    && 0 <= time.microseconds <= 999999
  }

  /** Days before the first of each month in a common year. */
  const DaysBeforeMonthTable: seq<nat> := [0, 31, 59, 90, 120, 151, 181, 212, 243, 273, 304, 334]

  /** Days from 1970-01-01 to the given day, for years 1970-2099: 365 a year plus one
      per leap year passed (every fourth year in this range, 2000 included), plus the
      days before the month, plus the leap day once past February. */
  function DaysFromCivil(year: int, month: int, day: int): int
    requires 1970 <= year <= 2099 && 1 <= month <= 12
  {
    365 * (year - 1970) + (year - 1969) / 4 + DaysBeforeMonthTable[month - 1]
      + (if month > 2 && year % 4 == 0 then 1 else 0) + day - 1
  }

  /** `minmea_gettimeofday`. A day beyond the end of its month (31 February) runs on
      into the next month, as the C library's calendar conversion does. */
  function ToEpoch(date: Date, time: Time): (r: Option<Timeval>)
    ensures r.Some? <==> Plausible(date, time)
    ensures r.Some? ==> r.value.microseconds == time.microseconds
  {
    if !Plausible(date, time) then None
    else
      var days := DaysFromCivil(2000 + date.year, date.month, date.day);
      Some(Timeval(days * 86400 + time.hours * 3600 + time.minutes * 60 + time.seconds,
        time.microseconds))
  }

  // ------------------------------------------------ the calendar, counted day by day

  predicate IsLeapYear(y: int) {
    y % 4 == 0 && (y % 100 != 0 || y % 400 == 0)
  }

  function YearLength(y: int): nat {
    if IsLeapYear(y) then 366 else 365
  }

  function MonthLength(y: int, m: int): nat
    requires 1 <= m <= 12
  {
    if m == 2 then (if IsLeapYear(y) then 29 else 28)
    else if m == 4 || m == 6 || m == 9 || m == 11 then 30
    else 31
  }

  /** Days in the years from 1970 up to, not including, `y`. */
  function DaysBeforeYear(y: int): nat
    requires y >= 1970
    decreases y
  {
    if y == 1970 then 0 else DaysBeforeYear(y - 1) + YearLength(y - 1)
  }

  /** Days in the months of year `y` before month `m`. */
  function DaysBeforeMonth(y: int, m: int): nat
    requires 1 <= m <= 13
    decreases m
  {
    if m == 1 then 0 else DaysBeforeMonth(y, m - 1) + MonthLength(y, m - 1)
  }

  /** The day count from 1970-01-01, month lengths and leap years added one by one. */
  function CivilDays(y: int, m: int, d: int): int
    requires y >= 1970 && 1 <= m <= 12
  {
    DaysBeforeYear(y) + DaysBeforeMonth(y, m) + d - 1
  }

  /** Between 1970 and 2100 the Gregorian leap years are the multiples of four. */
  lemma LeapYearsInRange(y: int)
    requires 1970 <= y < 2100
    ensures IsLeapYear(y) <==> y % 4 == 0
  {
  }

  lemma {:induction false} DaysBeforeYearClosed(y: int)
    requires 1970 <= y <= 2100
    ensures DaysBeforeYear(y) == 365 * (y - 1970) + (y - 1969) / 4
    decreases y
  {
    if y > 1970 {
      DaysBeforeYearClosed(y - 1);
      LeapYearsInRange(y - 1);
    }
  }

  lemma {:induction false} DaysBeforeMonthClosed(y: int, m: int)
    requires 1970 <= y < 2100 && 1 <= m <= 12
    ensures DaysBeforeMonth(y, m) ==
      DaysBeforeMonthTable[m - 1] + (if m > 2 && y % 4 == 0 then 1 else 0)
    decreases m
  {
    LeapYearsInRange(y);
    if m > 1 {
      DaysBeforeMonthClosed(y, m - 1);
    }
  }

  /** The closed form the conversion uses is the day-by-day count. */
  lemma DaysFromCivilCounts(y: int, m: int, d: int)
    requires 1970 <= y <= 2099 && 1 <= m <= 12
    ensures DaysFromCivil(y, m, d) == CivilDays(y, m, d)
  {
    DaysBeforeYearClosed(y);
    DaysBeforeMonthClosed(y, m);
  }

  /** The timestamp is the day count since the epoch in seconds, plus the seconds of
      the day, plus the microseconds carried over. */
  lemma ToEpochCounts(date: Date, time: Time)
    requires Plausible(date, time)
    ensures ToEpoch(date, time) == Some(Timeval(
      CivilDays(2000 + date.year, date.month, date.day) * 86400
        + time.hours * 3600 + time.minutes * 60 + time.seconds,
      time.microseconds))
  {
    DaysFromCivilCounts(2000 + date.year, date.month, date.day);
  }

  /** A later time on the same day gives a later timestamp, provided the earlier one
      is not a leap second: 23:59:60 and the next day's 00:00:00 share a timestamp. */
  lemma ToEpochOrdersTimes(date: Date, t1: Time, t2: Time)
    requires Plausible(date, t1) && Plausible(date, t2) && t1.seconds < 60
    requires || t1.hours < t2.hours
      || (t1.hours == t2.hours && t1.minutes < t2.minutes)
      || (t1.hours == t2.hours && t1.minutes == t2.minutes && t1.seconds < t2.seconds)
    ensures ToEpoch(date, t1).value.seconds < ToEpoch(date, t2).value.seconds
  {
    var s1 := t1.hours * 3600 + t1.minutes * 60 + t1.seconds;
    var s2 := t2.hours * 3600 + t2.minutes * 60 + t2.seconds;
    if t1.hours < t2.hours {
      assert s1 < (t1.hours + 1) * 3600 <= s2;
    } else if t1.minutes < t2.minutes {
      assert s1 < t1.hours * 3600 + (t1.minutes + 1) * 60 <= s2;
    }
  }

  /** The next calendar day at the same time of day is 86400 seconds later, at the end
      of a month or a year as well. */
  lemma ToEpochNextDay(d1: Date, d2: Date, time: Time)
    requires Plausible(d1, time) && Plausible(d2, time)
    requires d1.day < MonthLength(2000 + d1.year, d1.month) ==>
      d2 == Date(d1.day + 1, d1.month, d1.year)
    requires d1.day == MonthLength(2000 + d1.year, d1.month) && d1.month < 12 ==>
      d2 == Date(1, d1.month + 1, d1.year)
    requires d1.day == MonthLength(2000 + d1.year, d1.month) && d1.month == 12 ==>
      d2 == Date(1, 1, d1.year + 1)
    requires d1.day <= MonthLength(2000 + d1.year, d1.month)
    ensures ToEpoch(d2, time).value.seconds == ToEpoch(d1, time).value.seconds + 86400
  {
    var c1 := CivilDays(2000 + d1.year, d1.month, d1.day);
    var c2 := CivilDays(2000 + d2.year, d2.month, d2.day);
    var clock := time.hours * 3600 + time.minutes * 60 + time.seconds;
    assert c2 == c1 + 1 by {
      NextDateCounts(d1, d2);
    }
    assert c2 * 86400 == c1 * 86400 + 86400;
    assert ToEpoch(d1, time).value.seconds == c1 * 86400 + clock by {
      ToEpochCounts(d1, time);
    }
    assert ToEpoch(d2, time).value.seconds == c2 * 86400 + clock by {
      ToEpochCounts(d2, time);
    }
  }

  /** The two-digit-year dates of a day and the day after it, counted. */
  lemma NextDateCounts(d1: Date, d2: Date)
    requires 0 <= d1.year <= 99 && 1 <= d1.month <= 12 && 1 <= d1.day
    requires 0 <= d2.year <= 99 && 1 <= d2.month <= 12
    requires d1.day < MonthLength(2000 + d1.year, d1.month) ==>
      d2 == Date(d1.day + 1, d1.month, d1.year)
    requires d1.day == MonthLength(2000 + d1.year, d1.month) && d1.month < 12 ==>
      d2 == Date(1, d1.month + 1, d1.year)
    requires d1.day == MonthLength(2000 + d1.year, d1.month) && d1.month == 12 ==>
      d2 == Date(1, 1, d1.year + 1)
    requires d1.day <= MonthLength(2000 + d1.year, d1.month)
    ensures CivilDays(2000 + d2.year, d2.month, d2.day) ==
      CivilDays(2000 + d1.year, d1.month, d1.day) + 1
  {
    CivilDaysNext(2000 + d1.year, d1.month, d1.day, 2000 + d2.year, d2.month, d2.day);
  }

  /** The day count of the next calendar day is one more. */
  lemma CivilDaysNext(y1: int, m1: int, day1: int, y2: int, m2: int, day2: int)
    requires 2000 <= y1 <= 2099 && 1 <= m1 <= 12 && 1 <= day1 <= MonthLength(y1, m1)
    requires y2 >= 1970 && 1 <= m2 <= 12
    requires day1 < MonthLength(y1, m1) ==> (y2, m2, day2) == (y1, m1, day1 + 1)
    requires day1 == MonthLength(y1, m1) && m1 < 12 ==> (y2, m2, day2) == (y1, m1 + 1, 1)
    requires day1 == MonthLength(y1, m1) && m1 == 12 ==> (y2, m2, day2) == (y1 + 1, 1, 1)
    ensures CivilDays(y2, m2, day2) == CivilDays(y1, m1, day1) + 1
  {
    if day1 == MonthLength(y1, m1) {
      if m1 < 12 {
        assert DaysBeforeMonth(y1, m1 + 1) == DaysBeforeMonth(y1, m1) + day1;
      } else {
        DaysBeforeMonthClosed(y1, 12);
        LeapYearsInRange(y1);
        assert DaysBeforeYear(y1 + 1) == DaysBeforeYear(y1) + YearLength(y1);
      }
    }
  }

  /** tests.c:358-373; the test restores the year as 2014, which alone is refused, so
      the last clause shows the -1 hours refused with the year 14 as well. */
  lemma ToEpochExamples()
    ensures ToEpoch(Date(14, 2, 14), Time(13, 0, 9, 123456)) == Some(Timeval(1392382809, 123456))
    ensures ToEpoch(Date(14, 2, -1), Time(13, 0, 9, 123456)).None?
    ensures ToEpoch(Date(14, 2, 2014), Time(-1, 0, 9, 123456)).None?
    ensures ToEpoch(Date(14, 2, 14), Time(-1, 0, 9, 123456)).None?
  {
  }
}
