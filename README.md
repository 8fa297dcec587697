# FitnessPro tracker core in Dafny

A verified model of the core of the FitnessPro single-user fitness tracker
(`fitnesspro/scripts/app.js`): the in-memory state store and the views that
the dashboard derives from it.

- **State store** (`Store.dfy`): the `data` object is the class `Store.Store`. Its fields are
  the workout list, the current weight text, the weight history and the water counter.
  It also holds the index that the pending confirm-dialog callback will delete.
  Methods model the workout form's submit handler, delete-by-index with JavaScript
  `splice(index, 1)` semantics behind the confirm dialog, `addWater`/`resetWater` and
  `saveWeight`. A ghost field `persisted` mirrors what local storage holds after each
  mutation.
- **Records** (`Records.dfy`): workout and weight-sample records, the defaults the form
  handler fills in, and `splice(index, 1)` as a function on sequences.
- **Dates** (`Dates.dfy`): the proleptic Gregorian calendar in JavaScript `Date`
  conventions (0-based months). It covers leap years, month lengths, the carrying of
  out-of-range fields that `new Date(y, m, d)` performs, and the day of the week by
  Sakamoto's method, proved consistent from each day to the next.
- **Calendar** (`Calendar.dfy`): `renderCalendar`'s classification of every day of the
  viewed month as today / active / absent. It is a method with the source's two loops,
  proved against a per-day specification.
- **History** (`History.dfy`): the five most recent workouts, newest first, each with the
  index its delete button targets.
- **Absence** (`Absence.dfy`): the "you have been away" alert.
- **Plan** (`Plan.dfy`): the personal plan and the exercise-guide strategy key. The plan
  covers calorie target, macronutrient grams and workout programme. It is computed in
  exact `real` arithmetic.

Clock values, parsed numbers and locale date labels are parameters. `now` is a local
date plus milliseconds since midnight for the calendar, and epoch milliseconds for the
absence alert. A workout carries both its local calendar date and its epoch
timestamp.

In these places the code's behaviour is easy to misread:
- Loading is not fail-soft. `JSON.parse` on corrupt stored workouts or weight-history
  JSON throws at start-up. Absent keys, stored JSON that parses to a falsy value
  (`null`, `0`, `false`, `""`), an empty weight and a non-numeric water count fall
  back to defaults (`Store.Store.Load`).
- Deleting at a negative index removes an element counted from the end, as `splice`
  does. It is not a no-op.
- The water counter has no lower clamp and no `setWater` operation.
- Appending a workout returns nothing.
- The calendar flags are set independently. A day can be both today and active.
  During today's last second (after 23:59:59.000) today is also flagged absent when
  no workout was logged today, because the cut-off `checkDate` has zero milliseconds.

## Model

| member | source | states |
|---|---|---|
| Dates.DaysInMonth | fitnesspro/scripts/app.js:619 | every month has 28 to 31 days; 28 and 29 occur only in February, 29 exactly in leap years |
| Dates.MakeDate | fitnesspro/scripts/app.js:619-622 | `new Date(y, m, d)` always yields a valid calendar date, and yields the given date unchanged when it is already valid |
| Dates.RollForwardLands | fitnesspro/scripts/app.js:619 | a day past the end of a month is carried forward to the date exactly `d - 1` days after that month's 1st |
| Dates.RollBackwardLands | fitnesspro/scripts/app.js:619 | a day 0 or below is carried back to the date exactly `1 - d` days before that month's 1st |
| Dates.MakeDateLands | fitnesspro/scripts/app.js:619-622 | `new Date(y, m, d)` lands exactly `d - 1` days after the 1st of month `m` carried into the year, so it carries rather than clamps |
| Dates.FirstOfNextMonth | fitnesspro/scripts/app.js:619 | the 1st of the next month (January of the next year after December) comes one month-length after the 1st of this month |
| Dates.DayNumberIncreasing | fitnesspro/scripts/app.js:619-622 | later valid dates have larger day numbers, so the date `MakeDateLands` describes is unique |
| Dates.YearStartsIncrease | fitnesspro/scripts/app.js:619-622 | New Year's Day moves forward by at least 365 days a year |
| Dates.DayZeroIsLastDay | fitnesspro/scripts/app.js:619 | day 0 of the next month is the last day of the viewed month, so `daysInMonth` is the Gregorian month length (December included) |
| Dates.NextDay | fitnesspro/scripts/app.js:619 | the day after a valid date is a later valid date, the 1st of the next month at a month's end |
| Dates.Weekday | fitnesspro/scripts/app.js:622 | the first-day offset is always in 0..6 |
| Dates.WeekdayOfNextDay | fitnesspro/scripts/app.js:622 | the weekdays of consecutive days are consecutive modulo 7, across month and year ends and leap days |
| Dates.WeekdayAcrossMonthEnd | fitnesspro/scripts/app.js:622 | from the last day of any month to the 1st of the next (including December to January and the end of February) the weekday advances by one |
| Dates.LeapCountStep | fitnesspro/scripts/app.js:622 | the leap-day count in the weekday formula grows by one more exactly at Gregorian leap years |
| Dates.WeekdayOfEpoch | fitnesspro/scripts/app.js:622 | 1 January 1970 falls on weekday 4 (Thursday), anchoring the weekday function |
| Dates.ShiftCursorAsWritten | fitnesspro/scripts/app.js:601-604 | `setMonth(getMonth() + dir)` keeps the cursor's day when the target month has it, so the view moves by exactly `dir` months (always when the day is at most 28); a day the target month lacks rolls over to day `day - length` of the month after |
| Dates.ShiftCursorSkipsFebruary | fitnesspro/scripts/app.js:602 | from 31 January 2025 one step forward lands on 3 March 2025, skipping February |
| Dates.ShiftMonth | fitnesspro/scripts/app.js:601-604 | the intended month step moves the viewed year/month by exactly `dir` months |
| Dates.ShiftMonthRoundTrip | fitnesspro/scripts/app.js:601-604 | stepping forward then back by the same amount returns to the same month |
| Records.MakeWorkout | fitnesspro/scripts/app.js:893-901 | the new record copies name and type, keeps every non-empty field, replaces empty sets/reps by "-" and empty weight/duration by 0, and is stamped with now |
| Records.OrElse | fitnesspro/scripts/app.js:896-899 | `value \|\| fallback` on text: a non-empty value is kept, an empty one takes the fallback |
| Records.SpliceStart | fitnesspro/scripts/app.js:781 | `splice`'s start index: a negative index counts from the end, and the result is clamped into 0..len |
| Records.SpliceOne | fitnesspro/scripts/app.js:781 | `splice(index, 1)` removes at most one element, at the clamped start index, keeps the others in order, and leaves the multiset otherwise intact |
| Records.SpliceOneCases | fitnesspro/scripts/app.js:779-782 | deleting at `0 <= i < len` yields `w[..i] + w[i+1..]`; an index `>= len` leaves the list unchanged |
| Store.Store.Load | fitnesspro/scripts/app.js:19-27 | start-up state: stored values, or `[]`, `'--'`, `[]`, `0` when a key is absent, a stored list is falsy, the weight is empty or the water count is not a number; the ghost mirror then holds what a reload would give back |
| Store.Store.LogWorkout | fitnesspro/scripts/app.js:889-907 | the list grows by exactly one, the new record is last, earlier entries are unchanged, nothing else changes; only the workouts key is written to storage |
| Store.Store.RequestDelete | fitnesspro/scripts/app.js:766-768 | the delete button registers a pending delete of that index |
| Store.Store.CloseConfirm | fitnesspro/scripts/app.js:771-777 | confirming runs the pending delete and keeps it registered; cancelling drops it and changes no data |
| Store.Store.DeleteWorkout | fitnesspro/scripts/app.js:779-782 | the list becomes `splice(index, 1)` of the old one; in range exactly one element goes, past the end nothing changes; only the workouts key is written |
| Store.Store.AddWater | fitnesspro/scripts/app.js:923-926 | the counter increases by exactly one with no upper clamp; only water changes, and only the water key is written |
| Store.Store.ResetWater | fitnesspro/scripts/app.js:928-931 | the counter becomes 0; only water changes, and only the water key is written |
| Store.Store.SaveWeight | fitnesspro/scripts/app.js:939-957 | a non-empty value becomes the current weight and is appended once to the history, becoming the chart's current stat, and only the weight and history keys are written; an empty value is refused and changes nothing |
| Store.ChartStats | fitnesspro/scripts/app.js:992-998 | the stats exist iff the history is non-empty; "start" is the first reading and "current" the last |
| Store.ChartStatsAfterAppend | fitnesspro/scripts/app.js:993-994 | after a reading is appended, "current" is that reading and "start" is the first reading ever taken |
| Store.NineCups | fitnesspro/scripts/app.js:923-926 | eight cups from 0 read 8 and a ninth reads 9 |
| History.Recent | fitnesspro/scripts/app.js:713 | the recent list has `min(5, len)` entries, and entry `k` is the workout `k` places before the last |
| History.Reverse | fitnesspro/scripts/app.js:713 | the reversed list has the same length and position `k` holds element `len-1-k` |
| History.HistoryRows | fitnesspro/scripts/app.js:713-736 | the list has `min(5, len)` rows, and each row's delete index is in range and points at the very workout the row shows |
| History.RowsAreNewestFirst | fitnesspro/scripts/app.js:712-713 | rows are ordered newest first with index `len-1-k`, and show exactly the last `min(5, len)` workouts inserted, reversed |
| History.NewestOnTop | fitnesspro/scripts/app.js:713 | a workout just logged is the first row, with index `len` |
| History.DeleteTargetsDisplayedRow | fitnesspro/scripts/app.js:753 | deleting via a row's button removes exactly the workout shown in that row |
| Calendar.OnDayMembers | fitnesspro/scripts/app.js:631-642 | a day's workout list holds exactly the workouts logged on that date |
| Calendar.DayClass | fitnesspro/scripts/app.js:655-677 | each cell carries its day number and exactly that day's workouts, and is never both active and absent (its flags are stated in Calendar.DayActiveIff and Calendar.DayFlags) |
| Calendar.EndOfDayPassedCases | fitnesspro/scripts/app.js:672-675 | `checkDate < now` with `checkDate` at 23:59:59.000: earlier days have passed, later days have not, and today has passed only after 23:59:59.000 |
| Calendar.DayActiveIff | fitnesspro/scripts/app.js:659 | a day is active iff some workout falls on that year, month and day |
| Calendar.DayFlags | fitnesspro/scripts/app.js:655-677 | absent implies not active and never a future day; today iff the clock's date is that day, independent of workouts; a day is active iff it has a non-empty list for its click summary |
| Calendar.GroupByDay | fitnesspro/scripts/app.js:631-642 | the grouping map has a key for exactly the days of the viewed month with a logged workout, and each key's list is that day's workouts in insertion order |
| Calendar.ClassifyDay | fitnesspro/scripts/app.js:655-677 | the loop body's cell, read from the grouping map, is exactly that day's classification |
| Calendar.RenderCalendar | fitnesspro/scripts/app.js:606-682 | the offset is the weekday of the 1st (0..6), there is one cell per day 1..daysInMonth, and each cell is that day's classification |
| Absence.CeilDiv | fitnesspro/scripts/app.js:592 | the day count is the least whole number of days covering the elapsed time |
| Absence.DaysBetween | fitnesspro/scripts/app.js:591-592 | the day gap is the least whole number of days covering the absolute time difference |
| Absence.AbsenceAlert | fitnesspro/scripts/app.js:583-598 | the alert shows iff the list is non-empty and the ceiling day gap to the last-inserted workout exceeds 3, and then shows that gap |
| Absence.WholeDays | fitnesspro/scripts/app.js:591-592 | an instant exactly k days before or after counts as k days |
| Absence.PartialDayRoundsUp | fitnesspro/scripts/app.js:592 | any fraction of a day beyond k whole days counts as k+1 |
| Absence.AlertBoundary | fitnesspro/scripts/app.js:594 | a gap of 3 days shows nothing, a gap of 5 days shows 5 |
| Absence.AlertUsesLastInserted | fitnesspro/scripts/app.js:587 | only the last inserted workout matters, not the latest date |
| Plan.WeightOrDefault | fitnesspro/scripts/app.js:262 | an unreadable or zero weight counts as 70 kg |
| Plan.AgeOrDefault | fitnesspro/scripts/app.js:264 | an unreadable or zero age counts as 25 |
| Plan.Round | fitnesspro/scripts/app.js:275 | `Math.round` is within half a unit, halves rounding up |
| Plan.Bmr | fitnesspro/scripts/app.js:267-272 | the Mifflin-St Jeor BMR at 175 cm is 1673.75 kcal for a 70 kg man of 25, plus 10 kcal per extra kg, minus 5 kcal per extra year, and 166 kcal less for any gender other than "Male" |
| Plan.Tdee | fitnesspro/scripts/app.js:275 | TDEE is the BMR times the activity factor, rounded to within half a kcal |
| Plan.ReferenceMan | fitnesspro/scripts/app.js:262-275 | 70 kg, age 25, male: BMR 1673.75 and, at activity 1.55, TDEE 2594 |
| Plan.CalorieOffset | fitnesspro/scripts/app.js:277-291 | loss gives -500 kcal, gain +300, every other goal 0 |
| Plan.GoalSplit | fitnesspro/scripts/app.js:278-291 | every goal's protein/carb/fat split is positive and sums to exactly 1 |
| Plan.SplitEmphasis | fitnesspro/scripts/app.js:283-291 | only loss puts protein above carbohydrate; every other goal gives carbohydrate the largest share |
| Plan.Grams | fitnesspro/scripts/app.js:294-296 | grams are the calorie share over the energy per gram, within half a gram |
| Plan.Programme | fitnesspro/scripts/app.js:298-313 | endurance always gives "Hybrid Athlete" with its 3x strength, 3x cardio description; otherwise Advanced, Intermediate and any other level give "5-Day Split", "Upper/Lower Split" and "Standard Full Body", each with its own description |
| Plan.PersonalPlan | fitnesspro/scripts/app.js:257-313 | a plan exists iff there is a profile with an activity factor; its target is TDEE plus the goal offset, each macro's grams are the goal's share of that target at 4/4/9 kcal per gram, and its title and description are the programme for goal and experience |
| Plan.PlanEnergyMatchesTarget | fitnesspro/scripts/app.js:293-296 | at 4/4/9 kcal per gram, the plan's grams give back its calorie target to within 8.5 kcal |
| Plan.StrategyKey | fitnesspro/scripts/app.js:406-412 | the guide key is always one the guide has: the goal itself for loss/gain/endurance, "maintain" for anything else |

## Findings

| source | as written | input that shows it | evidently intended | confidence | as-written member | corrected member |
|---|---|---|---|---|---|---|
| fitnesspro/scripts/app.js:601-604 | `changeMonth` calls `setMonth(getMonth() + dir)` on a cursor that keeps today's day of the month, so a day the target month lacks rolls into the month after | cursor 31 January 2025, `dir = 1`: the view shows March 2025 | each click moves the view by exactly one month | high (not executed) | Dates.ShiftCursorAsWritten, Dates.ShiftCursorSkipsFebruary | Dates.ShiftMonth, Dates.ShiftMonthRoundTrip |

The calendar view (`Calendar.RenderCalendar`) takes the viewed year and month
directly, as the corrected cursor `Dates.ShiftMonth` produces them.

## Left out

- DOM work: toasts, modals, page switching, the sidebar, HTML templating of the history list, the guide and the daily summary text. These are presentation only.
- Chart.js rendering, the chart labels and values, and the "change" stat's `toFixed(1)` and colour. These are a foreign library and float formatting. Only the start/current stat selection is modelled.
- Local storage and JSON serialisation. The ghost `persisted` field stands for the stored copy. `location.reload` and `localStorage.clear` are left out too.
- Dates.MakeDate: JavaScript's `new Date(y, m, d)` maps years 0 to 99 to 1900 to 1999 and yields an Invalid Date beyond 8.64e15 ms from the epoch; the model uses the proleptic Gregorian year as given and has no range limit, so for view years 0 to 99 (reachable by paging back with `setMonth`) the model's month lengths and offsets are those of the literal year.
- Store.ChartStats: when Chart.js fails to load, `renderChart` returns before updating the stats (app.js lines 973-984); the model assumes the library is loaded.
- Store.Store.Load: corrupt stored workouts or weight-history JSON makes the code throw at start-up. That path is not modelled; absent keys, falsy stored JSON, an empty weight and a non-numeric water count are, as the defaults they fall back to.
- Login, signup, logout and profile editing. These are driven by the DOM and `confirm()`.
- The BMI, BMR and one-rep-max calculators on the tools page. They read DOM inputs and format floats.
- `Date` parsing, locale formatting and time zones. A workout's local date and its epoch timestamp are independent fields, and their relation through the time zone is not modelled.
- `generateFeedback`, its 300 ms delay and its texts. These are cosmetic.
- The static meal plans and exercise lists. They are constant data with no behaviour. Only the set of strategy keys is kept.
- The first `renderDashboard` (app.js line 251). The later declaration replaces it.
- Text-to-number parsing (`parseFloat`, `parseInt`). Parsed values are parameters, with `None` for NaN.
- Plan.PersonalPlan: computes in exact reals. The source computes in IEEE doubles, where a product such as `calories * 0.45` can land just beside a .5 boundary and round the other way.
- Records.MakeWorkout: an empty weight or duration becomes the text "0". The source stores the number 0, which displays the same.
