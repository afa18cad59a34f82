/**
 * The computable part of `saveWorkout`: the authentication guard and the
 * row it asks the store to insert.  The insert itself is I/O and is not
 * modelled; its result is taken to be the row as submitted.
 */
module WorkoutSave {
  import opened Wrappers
  import WorkoutStats

  /** One exercise of a session: its name and the reps of each of its sets. */
  datatype ExerciseEntry = ExerciseEntry(name: string, reps: seq<int>)

  /** The `workoutData` argument of `saveWorkout`. */
  datatype WorkoutDraft = WorkoutDraft(
    exercises: seq<ExerciseEntry>,
    duration: int,
    totalSets: int,
    totalReps: int,
    date: string)

  /** The row inserted into the workouts table. */
  datatype WorkoutInsert = WorkoutInsert(
    clerkUserId: string,
    exercises: seq<ExerciseEntry>,
    duration: int,
    totalSets: int,
    totalReps: int,
    workoutDate: string)

  datatype SaveError = NotAuthenticated

  /** `!clerkUserId` in the source: both null and the empty string are falsy. */
  predicate Authenticated(clerkUserId: Option<string>)
  {
    clerkUserId.Some? && clerkUserId.value != ""
  }

  /**
   * `saveWorkout` up to the store call: it throws when no user is signed in,
   * and otherwise builds the insert row, renaming the camel-case fields.
   */
  function SaveWorkout(draft: WorkoutDraft, clerkUserId: Option<string>): (r: Result<WorkoutInsert, SaveError>)
    ensures r.Failure? <==> !Authenticated(clerkUserId)
    ensures r.Failure? ==> r.error == NotAuthenticated
    ensures r.Success? ==>
              && r.value.clerkUserId == clerkUserId.value
              && r.value.exercises == draft.exercises
              && r.value.duration == draft.duration
              && r.value.totalSets == draft.totalSets
              && r.value.totalReps == draft.totalReps
              && r.value.workoutDate == draft.date
  {
    if !Authenticated(clerkUserId) then Failure(NotAuthenticated)
    else Success(WorkoutInsert(clerkUserId.value, draft.exercises, draft.duration,
                               draft.totalSets, draft.totalReps, draft.date))
  }

  /** The statistics columns of a stored row, as `getWorkoutStats` fetches them back. */
  function StatsRow(w: WorkoutInsert): WorkoutStats.WorkoutRow
  {
    WorkoutStats.WorkoutRow(Some(w.totalSets), Some(w.totalReps), Some(w.duration))
  }

  /**
   * Saving a workout and fetching the history again adds exactly one workout
   * and the submitted sets, reps and minutes to the statistics totals.
   */
  lemma SaveThenStats(history: seq<WorkoutStats.WorkoutRow>, draft: WorkoutDraft, clerkUserId: Option<string>)
    requires Authenticated(clerkUserId)
    ensures var before := WorkoutStats.ComputeStats(history);
      var after := WorkoutStats.ComputeStats(history + [StatsRow(SaveWorkout(draft, clerkUserId).value)]);
      && after.totalWorkouts == before.totalWorkouts + 1
      && after.totalSets == before.totalSets + draft.totalSets
      && after.totalReps == before.totalReps + draft.totalReps
      && after.totalMinutes == before.totalMinutes + draft.duration
  {
    var row := StatsRow(SaveWorkout(draft, clerkUserId).value);
    WorkoutStats.ColumnSumConcat(history, [row], WorkoutStats.Sets);
    WorkoutStats.ColumnSumConcat(history, [row], WorkoutStats.Reps);
    WorkoutStats.ColumnSumConcat(history, [row], WorkoutStats.Minutes);
  }

  /** A single saved workout reads back with its own totals as the averages. */
  lemma SaveThenStatsAlone(draft: WorkoutDraft, clerkUserId: Option<string>)
    requires Authenticated(clerkUserId)
    ensures var s := WorkoutStats.ComputeStats([StatsRow(SaveWorkout(draft, clerkUserId).value)]);
      s == WorkoutStats.Stats(1, draft.totalSets, draft.totalReps, draft.duration,
                              draft.duration, draft.totalSets, draft.totalReps)
  {
    var rows := [StatsRow(SaveWorkout(draft, clerkUserId).value)];
    assert rows[1..] == [];
    assert WorkoutStats.ColumnSum(rows, WorkoutStats.Minutes) == draft.duration;
    assert WorkoutStats.ColumnSum(rows, WorkoutStats.Sets) == draft.totalSets;
    assert WorkoutStats.ColumnSum(rows, WorkoutStats.Reps) == draft.totalReps;
    WorkoutStats.RoundDivExact(draft.duration, 1);
    WorkoutStats.RoundDivExact(draft.totalSets, 1);
    WorkoutStats.RoundDivExact(draft.totalReps, 1);
  }
}
