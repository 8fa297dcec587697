/** The tracker's in-memory state (the `data` object) and the operations that
    change it in place. Every mutation is followed by a write of the keys it
    changed, and only those, to local storage; `persisted` is a ghost mirror
    of what a reload would read back (for a key never written, the default
    it falls back to). */
module Store {
  import opened Dates
  import opened Records

  /** The persisted keys, as the state after a mutation writes them. */
  datatype Snapshot = Snapshot(
    workouts: seq<Workout>,
    weight: string,
    weightHistory: seq<WeightSample>,
    water: int)

  /** The first and last weight readings the chart reports as "start" and "current". */
  datatype WeightStats = WeightStats(start: string, current: string)

  /** The chart's summary of the weight history, absent when it is empty. */
  function ChartStats(history: seq<WeightSample>): (r: Option<WeightStats>)
    ensures r.None? <==> history == []
    ensures r.Some? ==> (r.value.start == history[0].weight
                         && r.value.current == history[|history| - 1].weight)
  {
    if history == [] then None
    else Some(WeightStats(history[0].weight, history[|history| - 1].weight))
  }

  /** After a reading is appended, the chart's "current" is that reading and
      its "start" is still the first reading ever taken. */
  lemma ChartStatsAfterAppend(history: seq<WeightSample>, s: WeightSample)
    ensures ChartStats(history + [s])
         == Some(WeightStats(if history == [] then s.weight else history[0].weight, s.weight))
  {
  }

  class Store {
    var workouts: seq<Workout>
    var weight: string
    var weightHistory: seq<WeightSample>
    var water: int
    /** The index captured by the confirm dialog's pending callback, if any. */
    var pendingDelete: Option<int>
    ghost var persisted: Snapshot

    function State(): Snapshot
      reads this
    {
      Snapshot(workouts, weight, weightHistory, water)
    }

    /** Local storage holds what is in memory. */
    ghost predicate Synced()
      reads this
    {
      persisted == State()
    }

    /** Start-up: each key read back from storage, or its default. A stored
        list is `None` when the key is absent or its JSON is falsy, and
        `storedWater` is the result of `parseInt`, `None` for NaN. */
    constructor Load(storedWorkouts: Option<seq<Workout>>, storedWeight: Option<string>,
                     storedHistory: Option<seq<WeightSample>>, storedWater: Option<int>)
      ensures workouts == (if storedWorkouts.Some? then storedWorkouts.value else [])
      ensures weight == (if storedWeight.Some? && storedWeight.value != "" then storedWeight.value else "--")
      ensures weightHistory == (if storedHistory.Some? then storedHistory.value else [])
      ensures water == (if storedWater.Some? then storedWater.value else 0)
      ensures pendingDelete == None
      ensures Synced()
    {
      workouts := if storedWorkouts.Some? then storedWorkouts.value else [];
      weight := if storedWeight.Some? && storedWeight.value != "" then storedWeight.value else "--";
      weightHistory := if storedHistory.Some? then storedHistory.value else [];
      water := if storedWater.Some? then storedWater.value else 0;
      pendingDelete := None;
      persisted := Snapshot(workouts, weight, weightHistory, water);
    }

    /** The workout form's submit handler: the new record goes last and every
        earlier record stays where it was. */
    method LogWorkout(form: WorkoutForm, today: Date, now: int)
      modifies this
      ensures workouts == old(workouts) + [MakeWorkout(form, today, now)]
      ensures |workouts| == |old(workouts)| + 1
      ensures workouts[..|old(workouts)|] == old(workouts)
      ensures weight == old(weight) && weightHistory == old(weightHistory) && water == old(water)
      ensures pendingDelete == old(pendingDelete)
      ensures persisted == old(persisted).(workouts := workouts)
      ensures old(Synced()) ==> Synced()
    {
      workouts := workouts + [MakeWorkout(form, today, now)];
      persisted := persisted.(workouts := workouts);
    }

    /** The delete button: opens the confirm dialog with a callback that
        deletes the workout at `index`. */
    method RequestDelete(index: int)
      modifies this`pendingDelete
      ensures pendingDelete == Some(index)
    {
      pendingDelete := Some(index);
    }

    /** Closing the confirm dialog: on confirmation the pending callback runs
        (and stays registered); on cancel it is dropped. */
    method CloseConfirm(confirmed: bool)
      modifies this
      ensures confirmed && old(pendingDelete).Some? ==>
                workouts == SpliceOne(old(workouts), old(pendingDelete).value)
                && persisted == old(persisted).(workouts := workouts)
      ensures !(confirmed && old(pendingDelete).Some?) ==> workouts == old(workouts) && persisted == old(persisted)
      ensures pendingDelete == if confirmed then old(pendingDelete) else None
      ensures old(Synced()) ==> Synced()
      ensures weight == old(weight) && weightHistory == old(weightHistory) && water == old(water)
    {
      if confirmed && pendingDelete.Some? {
        DeleteWorkout(pendingDelete.value);
      }
      if !confirmed {
        pendingDelete := None;
      }
    }

    /** The confirm callback: `workouts.splice(index, 1)`, then persist. */
    method DeleteWorkout(index: int)
      modifies this`workouts, this`persisted
      ensures workouts == SpliceOne(old(workouts), index)
      ensures 0 <= index < |old(workouts)| ==> workouts == old(workouts)[..index] + old(workouts)[index + 1..]
      ensures index >= |old(workouts)| ==> workouts == old(workouts)
      ensures persisted == old(persisted).(workouts := workouts)
      ensures old(Synced()) ==> Synced()
    {
      SpliceOneCases(workouts, index);
      workouts := SpliceOne(workouts, index);
      persisted := persisted.(workouts := workouts);
    }

    /** One more cup of water, with no upper bound. */
    method AddWater()
      modifies this`water, this`persisted
      ensures water == old(water) + 1
      ensures persisted == old(persisted).(water := water)
      ensures old(Synced()) ==> Synced()
    {
      water := water + 1;
      persisted := persisted.(water := water);
    }

    method ResetWater()
      modifies this`water, this`persisted
      ensures water == 0
      ensures persisted == old(persisted).(water := water)
      ensures old(Synced()) ==> Synced()
    {
      water := 0;
      persisted := persisted.(water := water);
    }

    /** Records a weight reading taken on the day labelled `dateLabel`. An empty
        input is refused (`ok` is false) and changes nothing. */
    method SaveWeight(input: string, dateLabel: string) returns (ok: bool)
      modifies this`weight, this`weightHistory, this`persisted
      ensures ok <==> input != ""
      ensures ok ==> weight == input && weightHistory == old(weightHistory) + [WeightSample(dateLabel, input)]
      ensures ok ==> persisted == old(persisted).(weight := weight, weightHistory := weightHistory)
      ensures old(Synced()) ==> Synced()
      ensures !ok ==> weight == old(weight) && weightHistory == old(weightHistory) && persisted == old(persisted)
      ensures ok ==> ChartStats(weightHistory).Some? && ChartStats(weightHistory).value.current == input
    {
      ok := input != "";
      if ok {
        weight := input;
        weightHistory := weightHistory + [WeightSample(dateLabel, input)];
        persisted := persisted.(weight := weight, weightHistory := weightHistory);
      }
    }
  }

  /** Eight cups from an empty counter read 8, and a ninth is still counted. */
  method NineCups() returns (afterEight: int, afterNine: int)
    ensures afterEight == 8 && afterNine == 9
  {
    var store := new Store.Load(None, None, None, None);
    store.AddWater(); store.AddWater(); store.AddWater(); store.AddWater();
    store.AddWater(); store.AddWater(); store.AddWater(); store.AddWater();
    afterEight := store.water;
    store.AddWater();
    afterNine := store.water;
  }
}
