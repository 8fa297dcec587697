/** The month calendar on the dashboard: for the viewed month, the weekday
    offset of the 1st and one classified cell per day. */
module Calendar {
  import opened Dates
  import opened Records

  /** The current moment `new Date()` on the local clock: the date and the
      milliseconds since local midnight. */
  datatype Moment = Moment(date: Date, msOfDay: int)

  /** 23:59:59.000 in milliseconds since midnight. */
  const EndOfDayMs := ((23 * 60 + 59) * 60 + 59) * 1000

  /** `checkDate < now`, where `checkDate` is day `d` at 23:59:59.000. */
  predicate EndOfDayPassed(d: Date, now: Moment) {
    Before(d, now.date) || (d == now.date && now.msOfDay > EndOfDayMs)
  }

  /** A day that ended before today's date is over; a day after today's date
      is not; today is over only in the last second of the day. */
  lemma EndOfDayPassedCases(d: Date, now: Moment)
    requires ValidDate(d) && ValidDate(now.date)
    ensures Before(d, now.date) ==> EndOfDayPassed(d, now)
    ensures Before(now.date, d) ==> !EndOfDayPassed(d, now)
    ensures d == now.date ==> (EndOfDayPassed(d, now) <==> now.msOfDay > 86399000)
  {
  }

  /** One day of the grid: its number, its three style flags and the workouts
      its click handler summarises. */
  datatype DayCell = DayCell(day: int, today: bool, active: bool, absent: bool, entries: seq<Workout>)

  /** The workouts logged on date `d`, in insertion order. */
  function OnDay(ws: seq<Workout>, d: Date): seq<Workout> {
    if ws == [] then []
    else OnDay(ws[..|ws| - 1], d) + (if ws[|ws| - 1].date == d then [ws[|ws| - 1]] else [])
  }

  /** `OnDay` keeps exactly the workouts of that date. */
  lemma {:induction false} OnDayMembers(ws: seq<Workout>, d: Date)
    ensures forall w :: w in OnDay(ws, d) <==> w in ws && w.date == d
  {
    if ws != [] {
      var init := ws[..|ws| - 1];
      OnDayMembers(init, d);
      assert ws == init + [ws[|ws| - 1]];
    }
  }

  /** Extending the list by one workout extends each day's list by at most that workout. */
  lemma OnDaySnoc(ws: seq<Workout>, i: int)
    requires 0 <= i < |ws|
    ensures forall d :: OnDay(ws[..i + 1], d) == OnDay(ws[..i], d) + (if ws[i].date == d then [ws[i]] else [])
  {
    assert ws[..i + 1][..i] == ws[..i];
  }

  /** The classification of day `day` of the viewed month. */
  function DayClass(ws: seq<Workout>, view: YearMonth, now: Moment, day: int): (c: DayCell)
    ensures c.day == day
    ensures c.entries == OnDay(ws, Date(view.year, view.month, day))
    ensures !(c.active && c.absent)
  {
    var d := Date(view.year, view.month, day);
    var entries := OnDay(ws, d);
    var active := entries != [];
    DayCell(day, now.date == d, active, !active && EndOfDayPassed(d, now), entries)
  }

  /** A day is active exactly when some workout was logged on it. */
  lemma DayActiveIff(ws: seq<Workout>, view: YearMonth, now: Moment, day: int)
    ensures DayClass(ws, view, now, day).active
        <==> exists i :: 0 <= i < |ws| && ws[i].date == Date(view.year, view.month, day)
  {
    var d := Date(view.year, view.month, day);
    OnDayMembers(ws, d);
    if exists i :: 0 <= i < |ws| && ws[i].date == d {
      var i :| 0 <= i < |ws| && ws[i].date == d;
      assert ws[i] in OnDay(ws, d);
    }
    if OnDay(ws, d) != [] {
      var w := OnDay(ws, d)[0];
      assert w in ws && w.date == d;
      var i :| 0 <= i < |ws| && ws[i] == w;
    }
  }

  /** A day is absent only when it is not active and it is over (never a
      future day); "today" depends on the clock alone, not on the workouts. */
  lemma DayFlags(ws: seq<Workout>, view: YearMonth, now: Moment, day: int)
    ensures var c := DayClass(ws, view, now, day);
      && (c.absent ==> !c.active && !Before(now.date, Date(view.year, view.month, day)))
      && (c.today <==> now.date == Date(view.year, view.month, day))
      && (!c.active ==> (c.absent <==> EndOfDayPassed(Date(view.year, view.month, day), now)))
      && (c.entries != [] <==> c.active)
  {
  }

  /** The first loop of `renderCalendar`: the workouts of the viewed month,
      grouped by day of the month, each day's list in insertion order. */
  method GroupByDay(ws: seq<Workout>, view: YearMonth) returns (workoutMap: map<int, seq<Workout>>)
    ensures forall day :: day in workoutMap <==> OnDay(ws, Date(view.year, view.month, day)) != []
    ensures forall day :: day in workoutMap ==> workoutMap[day] == OnDay(ws, Date(view.year, view.month, day))
  {
    workoutMap := map[];
    var i := 0;
    while i < |ws|
      invariant 0 <= i <= |ws|
      invariant forall day :: day in workoutMap <==> OnDay(ws[..i], Date(view.year, view.month, day)) != []
      invariant forall day :: day in workoutMap ==> workoutMap[day] == OnDay(ws[..i], Date(view.year, view.month, day))
    {
      OnDaySnoc(ws, i);
      var w := ws[i];
      if w.date.month == view.month && w.date.year == view.year {
        var day := w.date.day;
        if day !in workoutMap {
          workoutMap := workoutMap[day := []];
        }
        workoutMap := workoutMap[day := workoutMap[day] + [w]];
      }
      i := i + 1;
    }
    assert ws[..i] == ws;
  }

  /** `renderCalendar`: the offset of the 1st (how many blank cells precede it)
      and a cell for each day 1..daysInMonth of the viewed month. */
  method RenderCalendar(ws: seq<Workout>, view: YearMonth, now: Moment) returns (offset: int, cells: seq<DayCell>)
    requires 0 <= view.month < 12
    ensures 0 <= offset < 7 && offset == Weekday(Date(view.year, view.month, 1))
    ensures |cells| == DaysInMonth(view.year, view.month)
    ensures forall k :: 0 <= k < |cells| ==> cells[k] == DayClass(ws, view, now, k + 1)
  {
    var daysInMonth := MakeDate(view.year, view.month + 1, 0).day;
    DayZeroIsLastDay(view.year, view.month);
    offset := Weekday(MakeDate(view.year, view.month, 1));

    var workoutMap := GroupByDay(ws, view);

    cells := [];
    var day := 1;
    while day <= daysInMonth
      invariant 1 <= day <= daysInMonth + 1
      invariant |cells| == day - 1
      invariant forall k :: 0 <= k < |cells| ==> cells[k] == DayClass(ws, view, now, k + 1)
    {
      var cell := ClassifyDay(ws, view, now, workoutMap, day);
      cells := cells + [cell];
      day := day + 1;
    }
  }

  /** The body of `renderCalendar`'s day loop: the cell of day `day`, read
      from the grouping map. */
  method ClassifyDay(ws: seq<Workout>, view: YearMonth, now: Moment, workoutMap: map<int, seq<Workout>>, day: int)
    returns (cell: DayCell)
    requires 0 <= view.month < 12 && 1 <= day <= DaysInMonth(view.year, view.month)
    requires forall d :: d in workoutMap <==> OnDay(ws, Date(view.year, view.month, d)) != []
    requires forall d :: d in workoutMap ==> workoutMap[d] == OnDay(ws, Date(view.year, view.month, d))
    ensures cell == DayClass(ws, view, now, day)
  {
    var today := now.date.month == view.month && now.date.year == view.year && day == now.date.day;
    if day in workoutMap {
      cell := DayCell(day, today, true, false, workoutMap[day]);
    } else {
      var checkDate := MakeDate(view.year, view.month, day);
      cell := DayCell(day, today, false, EndOfDayPassed(checkDate, now), []);
    }
  }
}
