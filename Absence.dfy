/** The dashboard's absence alert: shown when the last logged workout is more
    than three whole days away from now. */
module Absence {
  import opened Records

  /** Milliseconds in a day (`1000 * 60 * 60 * 24`). */
  const DayMs := 86400000

  /** Days of silence above which the alert is shown. */
  const AbsenceThreshold := 3

  function Abs(x: int): nat {
    if x < 0 then -x else x
  }

  /** `Math.ceil(x / d)` for a non-negative `x`: the least `q` with `q * d >= x`. */
  function CeilDiv(x: nat, d: nat): (q: nat)
    requires d > 0
    ensures q * d >= x
    ensures q > 0 ==> (q - 1) * d < x
  {
    (x + d - 1) / d
  }

  /** Whole days between two instants, rounded up: `Math.ceil(|a - b| / day)`. */
  function DaysBetween(a: int, b: int): (n: nat)
    ensures n * DayMs >= Abs(a - b)
    ensures n > 0 ==> (n - 1) * DayMs < Abs(a - b)
  {
    CeilDiv(Abs(a - b), DayMs)
  }

  /** The alert: the day count to show, or `None` when there is nothing to show.
      It looks at the last workout in insertion order only. */
  function AbsenceAlert(workouts: seq<Workout>, now: int): (r: Option<nat>)
    ensures r.Some? <==> workouts != [] && DaysBetween(now, workouts[|workouts| - 1].stamp) > AbsenceThreshold
    ensures r.Some? ==> r.value == DaysBetween(now, workouts[|workouts| - 1].stamp) && r.value > AbsenceThreshold
  {
    if workouts == [] then None
    else
      var days := DaysBetween(now, workouts[|workouts| - 1].stamp);
      if days > AbsenceThreshold then Some(days) else None
  }

  /** An instant exactly `k` days away counts as `k` days, in either direction. */
  lemma WholeDays(t: int, k: nat)
    ensures DaysBetween(t + k * DayMs, t) == k
    ensures DaysBetween(t - k * DayMs, t) == k
  {
  }

  /** Any part of a day counts as a whole one: 1 ms past three days is four. */
  lemma PartialDayRoundsUp(t: int, k: nat, ms: int)
    requires 0 < ms < DayMs
    ensures DaysBetween(t + k * DayMs + ms, t) == k + 1
  {
  }

  /** Three days of silence show nothing; five days show the alert with 5. */
  lemma AlertBoundary(workouts: seq<Workout>, last: Workout)
    ensures AbsenceAlert(workouts + [last], last.stamp + 3 * DayMs) == None
    ensures AbsenceAlert(workouts + [last], last.stamp + 5 * DayMs) == Some(5)
  {
    WholeDays(last.stamp, 3);
    WholeDays(last.stamp, 5);
  }

  /** Only the most recently inserted workout matters, whatever the dates of
      the earlier ones. */
  lemma AlertUsesLastInserted(earlier: seq<Workout>, last: Workout, now: int)
    ensures AbsenceAlert(earlier + [last], now) == AbsenceAlert([last], now)
  {
  }
}
