/** The dashboard's "recent history" list: the five most recently logged
    workouts, newest first, each with the index its delete button targets. */
module History {
  import opened Records

  /** A displayed entry and its index in the full workout list. */
  datatype Row = Row(entry: Workout, index: int)

  const RecentCount := 5

  function Min(a: int, b: int): int {
    if a <= b then a else b
  }

  /** `s.slice().reverse()`: the list back to front. */
  function Reverse<T>(s: seq<T>): (r: seq<T>)
    ensures |r| == |s|
    ensures forall k :: 0 <= k < |s| ==> r[k] == s[|s| - 1 - k]
  {
    if s == [] then [] else [s[|s| - 1]] + Reverse(s[..|s| - 1])
  }

  /** `workouts.slice().reverse().slice(0, 5)`. */
  function Recent(workouts: seq<Workout>): (r: seq<Workout>)
    ensures |r| == Min(RecentCount, |workouts|)
    ensures forall k :: 0 <= k < |r| ==> r[k] == workouts[|workouts| - 1 - k]
  {
    var reversed := Reverse(workouts);
    reversed[..Min(RecentCount, |reversed|)]
  }

  /** The rows of the list: display position `k` shows `Recent(workouts)[k]`
      and its button deletes at `|workouts| - 1 - k`. */
  function HistoryRows(workouts: seq<Workout>): (rows: seq<Row>)
    ensures |rows| == Min(RecentCount, |workouts|)
    ensures forall k :: 0 <= k < |rows| ==>
              0 <= rows[k].index < |workouts| && rows[k].entry == workouts[rows[k].index]
  {
    var recent := Recent(workouts);
    seq(|recent|, k requires 0 <= k < |recent| => Row(recent[k], |workouts| - 1 - k))
  }

  /** The list shows the newest entries first: it is the last
      `Min(5, |workouts|)` entries inserted, in reverse order. */
  lemma {:induction false} RowsAreNewestFirst(workouts: seq<Workout>)
    ensures forall i, j :: 0 <= i < j < |HistoryRows(workouts)| ==>
              HistoryRows(workouts)[i].index > HistoryRows(workouts)[j].index
    ensures forall k :: 0 <= k < |HistoryRows(workouts)| ==>
              HistoryRows(workouts)[k].index == |workouts| - 1 - k
    ensures Recent(workouts) == Reverse(workouts[|workouts| - Min(RecentCount, |workouts|)..])
  {
    var tail := workouts[|workouts| - Min(RecentCount, |workouts|)..];
    assert |Recent(workouts)| == |Reverse(tail)|;
    forall k | 0 <= k < |tail| ensures Recent(workouts)[k] == Reverse(tail)[k] {
      assert Reverse(tail)[k] == tail[|tail| - 1 - k];
    }
  }

  /** A workout just logged is shown at the top of the list. */
  lemma NewestOnTop(workouts: seq<Workout>, w: Workout)
    ensures HistoryRows(workouts + [w])[0] == Row(w, |workouts|)
  {
  }

  /** Pressing the delete button of the row at display position `k` removes
      the workout that row shows, and nothing else. */
  lemma DeleteTargetsDisplayedRow(workouts: seq<Workout>, k: int)
    requires 0 <= k < |HistoryRows(workouts)|
    ensures var row := HistoryRows(workouts)[k];
      && SpliceOne(workouts, row.index) == workouts[..row.index] + workouts[row.index + 1..]
      && workouts[row.index] == row.entry
      && |SpliceOne(workouts, row.index)| == |workouts| - 1
  {
    SpliceOneCases(workouts, HistoryRows(workouts)[k].index);
  }
}
