/** The part of JavaScript's `Date` that the month ranges rely on: the
    constructor `new Date(year, monthIndex, day, h, min, s, ms)`, which
    normalises an out-of-range month or day (month 12 is January of the next
    year, day 0 is the last day of the previous month). Time values are
    milliseconds; local time is taken as naive time (no time-zone offset).
    The day count follows the proleptic Gregorian calendar of ECMAScript
    (ECMA-262, section 21.4.1, "Time Values and Time Range"). */
module Dates {
  import opened Seqs

  /** Largest magnitude of a valid time value; beyond it a `Date` is invalid. */
  const MaxTimeValue: int := 8640000000000000

  /** The Gregorian rule: every fourth year, except centuries not divisible by 400. */
  predicate IsLeapYear(y: int)
  {
    y % 4 == 0 && (y % 100 != 0 || y % 400 == 0)
  }

  function DaysInYear(y: int): int
  {
    if IsLeapYear(y) then 366 else 365
  }

  /** Length of month `m` (zero-based, 0 = January) of year `y`. */
  function DaysInMonth(y: int, m: int): int
    requires 0 <= m < 12
  {
    if m == 1 then (if IsLeapYear(y) then 29 else 28)
    else if m == 3 || m == 5 || m == 8 || m == 10 then 30
    else 31
  }

  /** Days of year `y` that precede month `m`. */
  function DaysBeforeMonth(y: int, m: int): int
    requires 0 <= m <= 12
  {
    if m == 0 then 0 else DaysBeforeMonth(y, m - 1) + DaysInMonth(y, m - 1)
  }

  /** Day number (days since 1970-01-01) of January 1 of year `y`: the
      lengths of the years in between, added up (after 1970) or subtracted
      (before). This is the day count of ECMAScript's DayFromYear. */
  function DayFromYear(y: int): int
    decreases if y < 1970 then 1970 - y else y - 1970
  {
    if y == 1970 then 0
    else if y > 1970 then DayFromYear(y - 1) + DaysInYear(y - 1)
    else DayFromYear(y + 1) - DaysInYear(y)
  }

  /** ECMAScript's MakeDay: the day number of day `date` of month `month`
      (zero-based, any integer) of `year`; the month is first carried into
      the year, then `date - 1` days are added to the first of the month. */
  function MakeDay(year: int, month: int, date: int): int
  {
    var ym := year + month / 12;
    var mn := month % 12;
    DayFromYear(ym) + DaysBeforeMonth(ym, mn) + date - 1
  }

  function MakeTime(hour: int, minute: int, second: int, ms: int): int
  {
    ((hour * 60 + minute) * 60 + second) * 1000 + ms
  }

  /** Milliseconds of day number `day` (86400000 per day) plus `time`. */
  function MakeDate(day: int, time: int): int
  {
    day * 86400000 + time
  }

  /** An out-of-range time value is an Invalid Date (`None`). */
  function TimeClip(t: int): Option<int>
  {
    if t < -MaxTimeValue || MaxTimeValue < t then None else Some(t)
  }

  /** The `Date` constructor reads a year from 0 to 99 as 1900 to 1999. */
  function FullYear(y: int): int
  {
    if 0 <= y <= 99 then 1900 + y else y
  }

  /** `new Date(year, month, day, hour, minute, second, ms)` in naive local time. */
  function NewDate(year: int, month: int, day: int, hour: int, minute: int, second: int, ms: int): Option<int>
  {
    TimeClip(MakeDate(MakeDay(FullYear(year), month, day), MakeTime(hour, minute, second, ms)))
  }

  /** date-fns `startOfMonth` of a date in month `m` of year `y`:
      day 1 at 00:00:00.000. */
  function StartOfMonth(y: int, m: int): Option<int>
  {
    TimeClip(MakeDate(MakeDay(y, m, 1), 0))
  }

  /** date-fns `endOfMonth`: `setFullYear(y, m + 1, 0)`, that is the last day
      of the month, then `setHours(23, 59, 59, 999)`. */
  function EndOfMonth(y: int, m: int): Option<int>
  {
    TimeClip(MakeDate(MakeDay(y, m + 1, 0), MakeTime(23, 59, 59, 999)))
  }

  /** MakeDay carries the month into the year itself, so a month given
      already carried names the same day. */
  lemma MakeDayCarry(y: int, m: int, d: int)
    ensures MakeDay(y, m, d) == MakeDay(y + m / 12, m % 12, d)
  {
    var mn := m % 12;
    assert mn / 12 == 0 && mn % 12 == mn;
  }

  lemma CarryNext(y: int, m: int)
    ensures y + m / 12 + (m % 12 + 1) / 12 == y + (m + 1) / 12
    ensures (m % 12 + 1) % 12 == (m + 1) % 12
  {
  }

  /** `startOfMonth` and `endOfMonth` of month `m` of year `y` do not depend
      on whether the month was carried into the year first. */
  lemma MonthStartCarry(y: int, m: int)
    ensures StartOfMonth(y + m / 12, m % 12) == StartOfMonth(y, m)
  {
    MakeDayCarry(y, m, 1);
  }

  lemma MonthEndCarry(y: int, m: int)
    ensures EndOfMonth(y + m / 12, m % 12) == EndOfMonth(y, m)
  {
    CarryNext(y, m);
  }

  /** Day 1 at midnight to the last millisecond before day 1 of the next month. */
  lemma MonthBounds(y: int, m: int)
    requires StartOfMonth(y, m).Some? && EndOfMonth(y, m).Some?
    ensures StartOfMonth(y, m).value == MakeDate(MakeDay(y, m, 1), 0)
    ensures EndOfMonth(y, m).value + 1 == MakeDate(MakeDay(y, m + 1, 1), 0)
  {
  }

  /** `new Date(year, m, 1)` is already the start of its month. */
  lemma NewDateIsMonthStart(year: int, m: int)
    ensures NewDate(year, m, 1, 0, 0, 0, 0) == StartOfMonth(FullYear(year), m)
  {
  }

  lemma {:induction false} MonthsBounded(y: int, m: int)
    requires 0 <= m <= 12
    ensures 0 <= DaysBeforeMonth(y, m) <= 31 * m
  {
    if m > 0 { MonthsBounded(y, m - 1); }
  }

  /** Days of the years 100 to 9999 are valid time values, whatever the
      time of day. */
  lemma ValidDay(y: int, m: int, d: int, time: int)
    requires 100 <= y < 10000 && 0 <= m <= 12 && 0 <= d <= 31 && 0 <= time < 86400000
    ensures TimeClip(MakeDate(MakeDay(y, m, d), time)).Some?
  {
    var ym, mn := y + m / 12, m % 12;
    assert 100 <= ym <= 10000;
    MonthsBounded(ym, mn);
    DayFromYearBounds(ym);
  }

  /** Consecutive years are `DaysInYear` days apart. */
  lemma DayFromYearStep(y: int)
    ensures DayFromYear(y + 1) == DayFromYear(y) + DaysInYear(y)
  {
  }

  /** Every year has 365 or 366 days, so January 1 of year `y` lies between
      365 and 366 days per year away from 1970. */
  lemma {:induction false} DayFromYearBounds(y: int)
    ensures y >= 1970 ==> 365 * (y - 1970) <= DayFromYear(y) <= 366 * (y - 1970)
    ensures y <= 1970 ==> 366 * (y - 1970) <= DayFromYear(y) <= 365 * (y - 1970)
    decreases if y < 1970 then 1970 - y else y - 1970
  {
    if y > 1970 {
      DayFromYearBounds(y - 1);
    } else if y < 1970 {
      DayFromYearBounds(y + 1);
    }
  }

  /** The twelve months make up the year. */
  lemma MonthsFillYear(y: int)
    ensures DaysBeforeMonth(y, 12) == DaysInYear(y)
  {
    var feb := DaysInMonth(y, 1);
    assert DaysBeforeMonth(y, 1) == 31;
    assert DaysBeforeMonth(y, 2) == 31 + feb;
    assert DaysBeforeMonth(y, 3) == 62 + feb;
    assert DaysBeforeMonth(y, 4) == 92 + feb;
    assert DaysBeforeMonth(y, 5) == 123 + feb;
    assert DaysBeforeMonth(y, 6) == 153 + feb;
    assert DaysBeforeMonth(y, 7) == 184 + feb;
    assert DaysBeforeMonth(y, 8) == 215 + feb;
    assert DaysBeforeMonth(y, 9) == 245 + feb;
    assert DaysBeforeMonth(y, 10) == 276 + feb;
    assert DaysBeforeMonth(y, 11) == 306 + feb;
    assert DaysBeforeMonth(y, 12) == 337 + feb;
  }

  /** Day 1 of the month after month `m` comes `DaysInMonth` days after day 1
      of month `m`, also across a year boundary. */
  lemma NextMonthStart(y: int, m: int)
    ensures MakeDay(y, m + 1, 1) == MakeDay(y, m, 1) + DaysInMonth(y + m / 12, m % 12)
  {
    var ym, mn := y + m / 12, m % 12;
    if mn == 11 {
      assert (m + 1) / 12 == m / 12 + 1 && (m + 1) % 12 == 0;
      DayFromYearStep(ym);
      MonthsFillYear(ym);
    } else {
      assert (m + 1) / 12 == m / 12 && (m + 1) % 12 == mn + 1;
    }
  }

  /** The "day 0 of the next month" idiom: day 0 of month `m + 1` is the
      last day of month `m`. */
  lemma DayZeroIsLastDay(y: int, m: int)
    ensures MakeDay(y, m + 1, 0) == MakeDay(y, m, DaysInMonth(y + m / 12, m % 12))
  {
    NextMonthStart(y, m);
  }

  /** Within a year: day 0 of month `m + 1` is day `DaysInMonth(y, m)` of month `m`. */
  lemma LastDayOfMonth(y: int, m: int)
    requires 0 <= m < 12
    ensures MakeDay(y, m + 1, 0) == MakeDay(y, m, DaysInMonth(y, m))
  {
    assert m / 12 == 0 && m % 12 == m;
    DayZeroIsLastDay(y, m);
  }

  /** Years from 100 on are taken as given. */
  lemma FullYearFrom100(y: int)
    requires y >= 100
    ensures FullYear(y) == y
  {
  }

  lemma DaysInMonthBounds(y: int, m: int)
    requires 0 <= m < 12
    ensures 28 <= DaysInMonth(y, m) <= 31
  {
  }

  /** `new Date(year, month, 0, 23, 59, 59)` is 999 ms before date-fns'
      `endOfMonth` of month `month - 1`, 23:59:59.999 of the same day. */
  lemma DayZeroBeforeEndOfMonth(year: int, month: int)
    ensures NewDate(year, month, 0, 23, 59, 59, 0).Some? && EndOfMonth(FullYear(year), month - 1).Some? ==>
              EndOfMonth(FullYear(year), month - 1).value == NewDate(year, month, 0, 23, 59, 59, 0).value + 999
  {
  }

  /** Within a year from 100 on, `new Date(year, m + 1, 0, 23, 59, 59)` is
      the last day of month `m` at 23:59:59. */
  lemma NewDateLastDay(year: int, m: int)
    requires year >= 100 && 0 <= m < 12
    ensures NewDate(year, m + 1, 0, 23, 59, 59, 0) ==
              TimeClip(MakeDate(MakeDay(year, m, DaysInMonth(year, m)), 86399000))
  {
    FullYearFrom100(year);
    LastDayOfMonth(year, m);
  }
}
