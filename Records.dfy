/** The records kept by the tracker and the list operation used to delete one. */
module Records {
  import opened Dates

  datatype Option<T> = None | Some(value: T)

  /** One logged exercise. `sets`, `reps`, `weight` and `duration` are the form's
      text; `date` is the local calendar day and `stamp` the milliseconds since
      the epoch of the moment it was logged. */
  datatype Workout = Workout(
    name: string,
    kind: string,
    sets: string,
    reps: string,
    weight: string,
    duration: string,
    date: Date,
    stamp: int)

  /** The values of the log form's inputs, as typed (possibly empty). */
  datatype WorkoutForm = WorkoutForm(
    name: string,
    kind: string,
    sets: string,
    reps: string,
    weight: string,
    duration: string)

  /** One body-weight reading: the locale date label and the value as typed. */
  datatype WeightSample = WeightSample(dateLabel: string, weight: string)

  /** `value || fallback` on a text input: an empty input takes the fallback. */
  function OrElse(value: string, fallback: string): (r: string)
    ensures r != "" <== fallback != ""
    ensures value != "" ==> r == value
    ensures value == "" ==> r == fallback
  {
    if value != "" then value else fallback
  }

  /** The record the submit handler builds from the form at the moment `now`:
      empty sets and reps read "-", empty weight and duration read 0. */
  function MakeWorkout(form: WorkoutForm, today: Date, now: int): (w: Workout)
    ensures w.name == form.name && w.kind == form.kind
    ensures w.sets != "" && w.reps != "" && w.weight != "" && w.duration != ""
    ensures form.sets != "" ==> w.sets == form.sets
    ensures form.reps != "" ==> w.reps == form.reps
    ensures form.weight != "" ==> w.weight == form.weight
    ensures form.duration != "" ==> w.duration == form.duration
    ensures form.sets == "" ==> w.sets == "-"
    ensures form.reps == "" ==> w.reps == "-"
    ensures form.weight == "" ==> w.weight == "0"
    ensures form.duration == "" ==> w.duration == "0"
    ensures w.date == today && w.stamp == now
  {
    Workout(form.name, form.kind,
            OrElse(form.sets, "-"), OrElse(form.reps, "-"),
            OrElse(form.weight, "0"), OrElse(form.duration, "0"),
            today, now)
  }

  /** Where `splice(index, 1)` starts on a list of length `len`: a negative
      index counts from the end, and any index is clamped into 0..len. */
  function SpliceStart(len: nat, index: int): (p: nat)
    ensures p <= len
    ensures 0 <= index <= len ==> p == index
    ensures index > len ==> p == len
    ensures index < 0 ==> p == if len + index < 0 then 0 else len + index
  {
    if index < 0 then (if len + index < 0 then 0 else len + index)
    else if index > len then len
    else index
  }

  /** The list after `s.splice(index, 1)`: at most one element is removed, at
      `SpliceStart(|s|, index)`, and the rest keep their order. */
  function SpliceOne<T>(s: seq<T>, index: int): (r: seq<T>)
    ensures var p := SpliceStart(|s|, index);
      && (p < |s| ==> |r| == |s| - 1 && multiset(r) + multiset{s[p]} == multiset(s))
      && (p == |s| ==> r == s)
      && (forall k :: 0 <= k < |r| ==> r[k] == s[if k < p then k else k + 1])
  {
    var p := SpliceStart(|s|, index);
    if p < |s| then
      assert s == s[..p] + [s[p]] + s[p + 1..];
      s[..p] + s[p + 1..]
    else s
  }

  /** Deleting at an index inside the list removes exactly that element;
      deleting at an index at or past the end leaves the list as it was. */
  lemma SpliceOneCases<T>(s: seq<T>, i: int)
    ensures 0 <= i < |s| ==> SpliceOne(s, i) == s[..i] + s[i + 1..]
    ensures i >= |s| ==> SpliceOne(s, i) == s
  {
    if 0 <= i < |s| {
      var r := SpliceOne(s, i);
      assert |r| == |s[..i] + s[i + 1..]|;
      forall k | 0 <= k < |r| ensures r[k] == (s[..i] + s[i + 1..])[k] {
      }
    }
  }
}
