/** Calendar arithmetic in the proleptic Gregorian calendar, in the conventions of
    JavaScript's `Date`: months are numbered 0 (January) to 11 (December), days of
    the month from 1, weekdays from 0 (Sunday) to 6 (Saturday). */
module Dates {

  /** A local calendar date (the year, `getMonth()` and `getDate()` of a `Date`). */
  datatype Date = Date(year: int, month: int, day: int)

  /** A year and month, the cursor of the calendar view. */
  datatype YearMonth = YearMonth(year: int, month: int)

  predicate IsLeapYear(y: int) {
    y % 4 == 0 && (y % 100 != 0 || y % 400 == 0)
  }

  /** Number of days of month `m` (0-based) of year `y`. */
  function DaysInMonth(y: int, m: int): (n: int)
    requires 0 <= m < 12
    ensures 28 <= n <= 31
    ensures n == 28 <==> m == 1 && !IsLeapYear(y)
    ensures n == 29 <==> m == 1 && IsLeapYear(y)
  {
    if m == 1 then (if IsLeapYear(y) then 29 else 28)
    else if m == 3 || m == 5 || m == 8 || m == 10 then 30
    else 31
  }

  predicate ValidDate(d: Date) {
    0 <= d.month < 12 && 1 <= d.day <= DaysInMonth(d.year, d.month)
  }

  /** Chronological order of dates. */
  predicate Before(a: Date, b: Date) {
    a.year < b.year
    || (a.year == b.year && a.month < b.month)
    || (a.year == b.year && a.month == b.month && a.day < b.day)
  }

  /** Counts months from year 0, so that consecutive months differ by one. */
  function MonthIndex(ym: YearMonth): int {
    12 * ym.year + ym.month
  }

  /** The year and month `m` months after January of `y`, for any integer `m`,
      as `new Date(y, m, ...)` carries an out-of-range month into the year. */
  function NormalizeMonth(y: int, m: int): (r: YearMonth)
    ensures 0 <= r.month < 12
    ensures MonthIndex(r) == 12 * y + m
  {
    YearMonth(y + m / 12, m % 12)
  }

  function NextMonth(y: int, m: int): (r: YearMonth)
    requires 0 <= m < 12
    ensures 0 <= r.month < 12 && MonthIndex(r) == MonthIndex(YearMonth(y, m)) + 1
  {
    if m == 11 then YearMonth(y + 1, 0) else YearMonth(y, m + 1)
  }

  function PrevMonth(y: int, m: int): (r: YearMonth)
    requires 0 <= m < 12
    ensures 0 <= r.month < 12 && MonthIndex(r) == MonthIndex(YearMonth(y, m)) - 1
  {
    if m == 0 then YearMonth(y - 1, 11) else YearMonth(y, m - 1)
  }

  /** Days before month `m` in a common year. */
  function CumulativeDays(m: int): int
    requires 0 <= m < 12
  {
    [0, 31, 59, 90, 120, 151, 181, 212, 243, 273, 304, 334][m]
  }

  /** Leap days in the years before `y`, counted from a fixed origin. */
  function LeapDaysBefore(y: int): int {
    YearTerm(y - 1) - (y - 1)
  }

  /** A serial day number: the reference by which "`d` days after the 1st"
      is stated. */
  function DayNumber(d: Date): int
    requires 0 <= d.month < 12
  {
    365 * d.year + LeapDaysBefore(d.year) + CumulativeDays(d.month)
    + (if d.month > 1 && IsLeapYear(d.year) then 1 else 0) + d.day - 1
  }

  /** The 1st of the next month comes a month's length after the 1st of this one. */
  lemma FirstOfNextMonth(y: int, m: int)
    requires 0 <= m < 12
    ensures var n := NextMonth(y, m);
      DayNumber(Date(n.year, n.month, 1)) == DayNumber(Date(y, m, 1)) + DaysInMonth(y, m)
  {
    if m == 11 {
      LeapCountStep(y);
    }
  }

  /** Later valid dates have larger day numbers, so a valid date is fixed by
      its day number. */
  lemma DayNumberIncreasing(a: Date, b: Date)
    requires ValidDate(a) && ValidDate(b) && Before(a, b)
    ensures DayNumber(a) < DayNumber(b)
  {
    if a.year < b.year {
      YearStartsIncrease(a.year + 1, b.year);
      LeapCountStep(a.year);
    }
  }

  /** New Year's Day moves forward by at least 365 days a year. */
  lemma {:induction false} YearStartsIncrease(y: int, z: int)
    requires y <= z
    ensures DayNumber(Date(y, 0, 1)) + 365 * (z - y) <= DayNumber(Date(z, 0, 1))
    decreases z - y
  {
    if y < z {
      YearStartsIncrease(y, z - 1);
      LeapCountStep(z - 1);
    }
  }

  /** Carries a day past the end of month `m` into the following months. */
  function RollForward(y: int, m: int, d: int): (r: Date)
    requires 0 <= m < 12 && 1 <= d
    ensures ValidDate(r)
    ensures d <= DaysInMonth(y, m) ==> r == Date(y, m, d)
    decreases d
  {
    var n := DaysInMonth(y, m);
    if d <= n then Date(y, m, d)
    else
      var next := NextMonth(y, m);
      RollForward(next.year, next.month, d - n)
  }

  /** Carries a day before the 1st of month `m` back into the preceding months. */
  function RollBackward(y: int, m: int, d: int): (r: Date)
    requires 0 <= m < 12 && d < 1
    ensures ValidDate(r)
    decreases -d
  {
    var prev := PrevMonth(y, m);
    var d' := d + DaysInMonth(prev.year, prev.month);
    if 1 <= d' then RollForward(prev.year, prev.month, d')
    else RollBackward(prev.year, prev.month, d')
  }

  /** The date `new Date(y, m, d)` denotes: out-of-range months and days are
      carried into neighbouring months and years (`MakeDateLands` says where). */
  function MakeDate(y: int, m: int, d: int): (r: Date)
    ensures ValidDate(r)
    ensures ValidDate(Date(y, m, d)) ==> r == Date(y, m, d)
  {
    var ym := NormalizeMonth(y, m);
    if 1 <= d then RollForward(ym.year, ym.month, d)
    else RollBackward(ym.year, ym.month, d)
  }

  lemma {:induction false} RollForwardLands(y: int, m: int, d: int)
    requires 0 <= m < 12 && 1 <= d
    ensures DayNumber(RollForward(y, m, d)) == DayNumber(Date(y, m, 1)) + d - 1
    decreases d
  {
    var n := DaysInMonth(y, m);
    if d > n {
      var next := NextMonth(y, m);
      FirstOfNextMonth(y, m);
      RollForwardLands(next.year, next.month, d - n);
    }
  }

  lemma {:induction false} RollBackwardLands(y: int, m: int, d: int)
    requires 0 <= m < 12 && d < 1
    ensures DayNumber(RollBackward(y, m, d)) == DayNumber(Date(y, m, 1)) + d - 1
    decreases -d
  {
    var prev := PrevMonth(y, m);
    var d' := d + DaysInMonth(prev.year, prev.month);
    FirstOfNextMonth(prev.year, prev.month);
    assert NextMonth(prev.year, prev.month) == YearMonth(y, m);
    if 1 <= d' {
      assert RollBackward(y, m, d) == RollForward(prev.year, prev.month, d');
      RollForwardLands(prev.year, prev.month, d');
    } else {
      assert RollBackward(y, m, d) == RollBackward(prev.year, prev.month, d');
      RollBackwardLands(prev.year, prev.month, d');
    }
  }

  /** `new Date(y, m, d)` is the valid date `d - 1` days after the 1st of month
      `m` (carried into the year), or before it when `d < 1`; by
      `DayNumberIncreasing` no other valid date has that day number. */
  lemma MakeDateLands(y: int, m: int, d: int)
    ensures var ym := NormalizeMonth(y, m);
      DayNumber(MakeDate(y, m, d)) == DayNumber(Date(ym.year, ym.month, 1)) + d - 1
  {
    var ym := NormalizeMonth(y, m);
    if 1 <= d {
      RollForwardLands(ym.year, ym.month, d);
    } else {
      RollBackwardLands(ym.year, ym.month, d);
    }
  }

  /** Day 0 of the following month is the last day of this month: the
      `new Date(viewYear, viewMonth + 1, 0).getDate()` idiom yields the
      Gregorian length of the month. */
  lemma DayZeroIsLastDay(y: int, m: int)
    requires 0 <= m < 12
    ensures MakeDate(y, m + 1, 0) == Date(y, m, DaysInMonth(y, m))
  {
    var ym := NormalizeMonth(y, m + 1);
    assert ym == NextMonth(y, m);
  }

  /** The date one day after `d`, as `new Date(y, m, day + 1)` computes it. */
  function NextDay(d: Date): (r: Date)
    requires ValidDate(d)
    ensures ValidDate(r) && Before(d, r)
    ensures d.day < DaysInMonth(d.year, d.month) ==> r == Date(d.year, d.month, d.day + 1)
    ensures d.day == DaysInMonth(d.year, d.month) ==>
              r.day == 1 && MonthIndex(YearMonth(r.year, r.month)) == MonthIndex(YearMonth(d.year, d.month)) + 1
  {
    MakeDate(d.year, d.month, d.day + 1)
  }

  /** Sakamoto's year term: the year plus the leap days up to it. */
  function YearTerm(y: int): int {
    y + y / 4 - y / 100 + y / 400
  }

  /** Sakamoto's month offsets, indexed by the 0-based month. */
  function MonthTerm(m: int): int
    requires 0 <= m < 12
  {
    [0, 3, 2, 5, 0, 3, 5, 1, 4, 6, 2, 4][m]
  }

  /** The weekday before reduction modulo 7 (January and February count
      with the previous year, so that the leap day comes last). */
  function WeekdayCount(d: Date): int
    requires 0 <= d.month < 12
  {
    (if d.month < 2 then YearTerm(d.year - 1) else YearTerm(d.year)) + MonthTerm(d.month) + d.day
  }

  /** Day of the week of a date, 0 = Sunday (what `getDay()` returns), by
      Sakamoto's method on the proleptic Gregorian calendar. */
  function Weekday(d: Date): (w: int)
    requires 0 <= d.month < 12
    ensures 0 <= w < 7
  {
    WeekdayCount(d) % 7
  }

  /** The year term grows by one more at leap years. */
  lemma LeapCountStep(y: int)
    ensures YearTerm(y) - YearTerm(y - 1) == if IsLeapYear(y) then 2 else 1
  {
    FloorSteps(y);
    MultipleOf400(y);
    MultipleOf100(y);
  }

  /** Floor division by 4, 100 and 400 steps up by one exactly at multiples. */
  lemma FloorSteps(y: int)
    ensures y / 4 - (y - 1) / 4 == if y % 4 == 0 then 1 else 0
    ensures y / 100 - (y - 1) / 100 == if y % 100 == 0 then 1 else 0
    ensures y / 400 - (y - 1) / 400 == if y % 400 == 0 then 1 else 0
  {
  }

  lemma MultipleOf400(y: int)
    ensures y % 400 == 0 ==> y % 100 == 0
  {
    if y % 400 == 0 {
      var q := y / 400;
      assert y == 100 * (4 * q) + 0;
    }
  }

  lemma MultipleOf100(y: int)
    ensures y % 100 == 0 ==> y % 4 == 0
  {
    if y % 100 == 0 {
      var q := y / 100;
      assert y == 4 * (25 * q) + 0;
    }
  }

  lemma ModSevenStep(a: int, b: int, k: int)
    requires b == a + 1 + 7 * k
    ensures b % 7 == (a % 7 + 1) % 7
  {
  }

  /** At a month's last day, the next day is the 1st of the following month. */
  lemma NextDayAtMonthEnd(d: Date)
    requires ValidDate(d) && d.day == DaysInMonth(d.year, d.month)
    ensures NextDay(d) == if d.month == 11 then Date(d.year + 1, 0, 1) else Date(d.year, d.month + 1, 1)
  {
    var ym := NormalizeMonth(d.year, d.month);
    assert ym == YearMonth(d.year, d.month);
    assert RollForward(d.year, d.month, d.day + 1)
        == RollForward(NextMonth(d.year, d.month).year, NextMonth(d.year, d.month).month, 1);
  }

  /** Weekdays of consecutive days are consecutive (mod 7): with an anchor such
      as `WeekdayOfEpoch`, this determines `Weekday` on every date. */
  lemma WeekdayOfNextDay(d: Date)
    requires ValidDate(d)
    ensures Weekday(NextDay(d)) == (Weekday(d) + 1) % 7
  {
    if d.day < DaysInMonth(d.year, d.month) {
      ModSevenStep(WeekdayCount(d), WeekdayCount(NextDay(d)), 0);
    } else {
      NextDayAtMonthEnd(d);
      WeekdayAcrossMonthEnd(d.year, d.month);
    }
  }

  /** From the last day of month `m` to the 1st of the next month the weekday advances by one. */
  lemma WeekdayAcrossMonthEnd(y: int, m: int)
    requires 0 <= m < 12
    ensures var next := if m == 11 then Date(y + 1, 0, 1) else Date(y, m + 1, 1);
      Weekday(next) == (Weekday(Date(y, m, DaysInMonth(y, m))) + 1) % 7
  {
    var last := Date(y, m, DaysInMonth(y, m));
    var a := WeekdayCount(last);
    if m == 1 {
      LeapCountStep(y);
      ModSevenStep(a, WeekdayCount(Date(y, 2, 1)), -4);
    } else if m == 11 {
      ModSevenStep(a, WeekdayCount(Date(y + 1, 0, 1)), -5);
    } else {
      MonthEndStep(y, m);
      var k :| WeekdayCount(Date(y, m + 1, 1)) == a + 1 + 7 * k;
      ModSevenStep(a, WeekdayCount(Date(y, m + 1, 1)), k);
    }
  }

  /** Within a year, the month offsets absorb the month lengths modulo 7. */
  lemma MonthEndStep(y: int, m: int)
    requires 0 <= m < 11 && m != 1
    ensures exists k :: MonthTerm(m + 1) + 1 == MonthTerm(m) + DaysInMonth(y, m) + 1 + 7 * k
  {
    var lhs := MonthTerm(m + 1) + 1;
    var rhs := MonthTerm(m) + DaysInMonth(y, m) + 1;
    assert (lhs - rhs) % 7 == 0;
    assert lhs == rhs + 7 * ((lhs - rhs) / 7);
  }

  /** 1 January 1970 was a Thursday. */
  lemma WeekdayOfEpoch()
    ensures Weekday(Date(1970, 0, 1)) == 4
  {
  }

  // The calendar cursor. `changeMonth(dir)` calls `setMonth(getMonth() + dir)`
  // on a full date whose day is still today's day of the month.

  /** The month shift as written: the cursor keeps its day of the month, and
      `setMonth` carries a day that the target month lacks into the next month. */
  function ShiftCursorAsWritten(cursor: Date, dir: int): (r: Date)
    ensures ValidDate(r)
    ensures ValidDate(cursor) && cursor.day <= 28 ==>
              MonthIndex(YearMonth(r.year, r.month)) == MonthIndex(YearMonth(cursor.year, cursor.month)) + dir
    ensures ValidDate(cursor) ==>
              var t := NormalizeMonth(cursor.year, cursor.month + dir);
              var n := DaysInMonth(t.year, t.month);
              && (cursor.day <= n ==> r == Date(t.year, t.month, cursor.day))
              && (cursor.day > n ==> var next := NextMonth(t.year, t.month);
                    r == Date(next.year, next.month, cursor.day - n))
  {
    MakeDate(cursor.year, cursor.month + dir, cursor.day)
  }

  /** On 31 January 2025 one click on "next month" shows March 2025:
      February is skipped. */
  lemma ShiftCursorSkipsFebruary()
    ensures ShiftCursorAsWritten(Date(2025, 0, 31), 1) == Date(2025, 2, 3)
  {
    var ym := NormalizeMonth(2025, 1);
    assert ym == YearMonth(2025, 1);
    assert RollForward(2025, 1, 31) == RollForward(2025, 2, 3);
  }

  /** The intended month shift: the view moves by exactly `dir` months,
      whatever the day of the month. */
  function ShiftMonth(view: YearMonth, dir: int): (r: YearMonth)
    requires 0 <= view.month < 12
    ensures 0 <= r.month < 12
    ensures MonthIndex(r) == MonthIndex(view) + dir
  {
    NormalizeMonth(view.year, view.month + dir)
  }

  /** Going forward and back by the same number of months returns to the same view. */
  lemma ShiftMonthRoundTrip(view: YearMonth, dir: int)
    requires 0 <= view.month < 12
    ensures ShiftMonth(ShiftMonth(view, dir), -dir) == view
  {
    var r := ShiftMonth(ShiftMonth(view, dir), -dir);
    MonthIndexInjective(r, view);
  }

  lemma MonthIndexInjective(a: YearMonth, b: YearMonth)
    requires 0 <= a.month < 12 && 0 <= b.month < 12
    requires MonthIndex(a) == MonthIndex(b)
    ensures a == b
  {
  }
}
