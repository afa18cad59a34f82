# Workout logger: statistics, streaks and exercise-card helpers

This project models the deterministic core of a mobile workout-logging app. The app keeps its
workouts in a hosted table store. After fetching a user's rows it computes two things:

- **Workout statistics** (`getWorkoutStats`). The rows of `total_sets`, `total_reps` and
  `duration` are folded into a workout count and three sums. A null column counts as 0. Three
  averages come from `Math.round(total / count)`. An empty history gives seven zeros without
  dividing.
- **Streaks and achievements** (`getWorkoutAchievements`). The workout dates are sorted. A loop
  over adjacent pairs keeps a running streak (`tempStreak`) and a best streak (`maxStreak`). Two
  dates at most one day apart extend the streak. This includes two workouts on the same day. Any
  wider gap closes the streak and starts a new one of length 1. After the loop the last streak is
  folded into the maximum. The current streak is the last streak when the latest workout is within
  one day of today, and 0 otherwise.

It also models the guard and the insert row of `saveWorkout`, and the two lookup tables of the
exercise card: the badge classes for a difficulty and the emoji for a muscle group. It also models
the `split(' ')[0]` that takes the text-colour class out of the badge classes.

Modules, one file each:

- `Wrappers` (`wrappers.dfy`): `Option` and `Result`.
- `WorkoutStats` (`workout_stats.dfy`): the rows, the `reduce` fold as a left fold, and a
  reference column sum that the fold is proved to equal. It has `Math.round(t / n)` as `RoundDiv`,
  the statistics function, and ordering independence.
- `WorkoutSave` (`workout_save.dfy`): `saveWorkout` up to the store call, and what a saved
  workout adds to the statistics.
- `WorkoutAchievements` (`workout_achievements.dfy`): the date sort, the loop as a `while` method
  with invariants, and the functional specification the method is proved equal to (`Achieve`).
  It also holds a declarative reading of streaks as maximal chained segments of the sorted dates.
- `ExerciseCard` (`exercise_card.dfy`): ASCII lower-casing, `getDifficultyColor`,
  `getMuscleGroupEmoji` and `split(' ')[0]`.

Representation choices:

- A workout date (`YYYY-MM-DD`, parsed at UTC midnight) is an `int` day number. The string order
  of `.sort()` is then the numeric order, and the millisecond difference divided by one day is
  the difference of the day numbers. "Today" is a parameter.
- `Math.round(t / n)` for an integer total `t` and a count `n > 0` is `(2t + n) div (2n)` with
  floor division. Dafny's `/` is floor division for a positive divisor, so this holds for negative
  totals too: `Math.round(-2.5)` is `-2`. `RoundDiv` is specified by the rounding condition
  `n(2r - 1) <= 2t < n(2r + 1)`, which says the result is the nearest integer with ties rounded up.
- `x || 0` on a nullable number is `OrZero`: `None` and `Some(0)` both give 0.
- `!clerkUserId` is true for both null and the empty string. Both make `SaveWorkout` fail.

Quirks of the streak code that the model keeps:

- With no dates, line 317 starts `tempStreak` at 1 and line 332 makes `maxStreak` 1, not 0.
  `SummarizeBounds` and `AchieveCounts` state this.
- `totalWorkoutDays` is `dates.length`, duplicates included, not the number of distinct days.
- The current-streak test at line 339 uses the absolute difference from today. In the model,
  where "today" is a whole day number, a workout dated tomorrow therefore counts like one dated
  yesterday. The source's clock also carries the time of day; see the clock line under
  "## Left out".
- Duplicate dates are not removed before the scan. A difference of 0 extends the streak
  (`SameDayWorkoutsStack`).

## Model

| member | source | states |
|---|---|---|
| `WorkoutStats.ComputeStats` | src/app/services/workout.service.ts:227-261 | no rows give the all-zero record; otherwise totalWorkouts is the row count, each total is the column sum with missing values as 0, and each average is RoundDiv of its total by the count |
| `WorkoutStats.OrZero` | src/app/services/workout.service.ts:241-243 | the default-to-0 of a nullable column: a missing value and a stored 0 both give 0; the column sums built on it are stated by `ReduceAddsSums` and `ComputeStats` |
| `WorkoutStats.Accumulate` | src/app/services/workout.service.ts:239-244 | the `reduce` callback: one more workout and the row's three columns added; its effect over a whole history is stated by `ReduceAddsSums` |
| `WorkoutStats.Reduce` | src/app/services/workout.service.ts:239-249 | `data.reduce(callback, initial)` as a left fold, first row first; `ReduceAddsSums` proves it equals the count plus the reference column sums |
| `WorkoutStats.ReduceAddsSums` | src/app/services/workout.service.ts:239-249 | the left-to-right `reduce` from any accumulator adds the row count and the reference column sums to it |
| `WorkoutStats.RoundDiv` | src/app/services/workout.service.ts:252-254 | the result r satisfies n(2r-1) <= 2t < n(2r+1): the nearest integer to t/n, a tie rounding up |
| `WorkoutStats.RoundDivUnique` | src/app/services/workout.service.ts:252-254 | only one integer satisfies the rounding condition, so RoundDiv is exactly Math.round of the quotient |
| `WorkoutStats.RoundDivExact` | src/app/services/workout.service.ts:252-254 | an exact quotient k*n/n rounds to k |
| `WorkoutStats.RoundDivBounds` | src/app/services/workout.service.ts:252-254 | a non-negative total has an average between 0 and the total |
| `WorkoutStats.AveragesBounded` | src/app/services/workout.service.ts:239-254 | with no negative column, each of the three averages lies between 0 and its total |
| `WorkoutStats.ColumnSumReorder` | src/app/services/workout.service.ts:239-249 | two row lists with the same multiset have the same column sums |
| `WorkoutStats.StatsReorder` | src/app/services/workout.service.ts:227-261 | the whole statistics record is the same for any order of the rows |
| `WorkoutSave.Authenticated` | src/app/services/workout.service.ts:72 | the negation of `!clerkUserId`: a user id that is neither null nor empty; `SaveWorkout` fails exactly when it is false |
| `WorkoutSave.SaveWorkout` | src/app/services/workout.service.ts:63-90 | fails with NotAuthenticated exactly when the user id is null or empty; otherwise the insert row carries the user id and the draft's exercises, duration, sets, reps and date |
| `WorkoutSave.SaveThenStats` | src/app/services/workout.service.ts:81-88 | appending a saved workout to a history adds one workout and exactly the submitted sets, reps and minutes to the totals |
| `WorkoutSave.SaveThenStatsAlone` | src/app/services/workout.service.ts:239-261 | a history of one saved workout has its submitted values as totals and as averages |
| `WorkoutAchievements.SortDays` | src/app/services/workout.service.ts:314 | `.sort()` on the dates; `SortDaysOrdered`, `SortDaysLength` and `SortDaysKeepsAscending` state that the result is the ascending permutation of the input |
| `WorkoutAchievements.SortDaysOrdered` | src/app/services/workout.service.ts:314 | the sorted dates are ascending and are the same multiset as the fetched dates |
| `WorkoutAchievements.SortDaysLength` | src/app/services/workout.service.ts:314 | sorting keeps every date, duplicates included |
| `WorkoutAchievements.SortDaysKeepsAscending` | src/app/services/workout.service.ts:314 | already ascending dates are returned unchanged |
| `WorkoutAchievements.ScanTo` | src/app/services/workout.service.ts:317-330 | the values of tempStreak and maxStreak after the pairs below n; `ScanStep` and `ScanTracksRuns` state that they are the current streak and the best closed streak |
| `WorkoutAchievements.Summarize` | src/app/services/workout.service.ts:332-347 | the final Math.max, the current-streak test and the returned record over sorted dates; `SummarizeBounds`, `MaxStreakIsLongestRun` and `CurrentStreakIsFinalRun` state its meaning |
| `WorkoutAchievements.Achieve` | src/app/services/workout.service.ts:313-347 | the whole computation on the fetched dates; the loop `ComputeAchievements` is proved equal to it, and `AchieveCounts`, `LastWorkoutIsLatest` and `SameDayWorkoutsStack` state its properties |
| `WorkoutAchievements.ComputeAchievements` | src/app/services/workout.service.ts:313-347 | the loop with mutable tempStreak and maxStreak returns exactly the functional specification Achieve |
| `WorkoutAchievements.RunAtIsLongestRunEndingAt` | src/app/services/workout.service.ts:319-329 | the streak length at k is at least 1 and at most k+1; its entries are chained, it cannot be extended to the left, and no chained segment ending at k is longer |
| `WorkoutAchievements.ScanTracksRuns` | src/app/services/workout.service.ts:317-330 | after the pairs up to n-1, tempStreak is the streak ending at n-1, maxStreak is at least every streak already closed by a gap, and their maximum is the longest streak so far |
| `WorkoutAchievements.ScanStep` | src/app/services/workout.service.ts:324-329 | a gap of more than one day resets tempStreak to 1; a gap of at most one day increments it; it is always at least 1 |
| `WorkoutAchievements.SummarizeBounds` | src/app/services/workout.service.ts:317-346 | totalWorkoutDays is the number of dates, 1 <= maxStreak <= max(1, count), 0 <= currentStreak <= maxStreak; with no dates maxStreak is 1, currentStreak 0 and the last date undefined |
| `WorkoutAchievements.MaxStreakIsLongestRun` | src/app/services/workout.service.ts:319-332 | no chained segment of the sorted dates is longer than maxStreak, and some chained segment has exactly that length |
| `WorkoutAchievements.CurrentStreakIsFinalRun` | src/app/services/workout.service.ts:335-340 | currentStreak is nonzero exactly when there are dates and the latest is within one day of today; then it is the streak ending at the latest date; it never exceeds maxStreak |
| `WorkoutAchievements.UnbrokenRunIsCurrent` | src/app/services/workout.service.ts:319-340 | if all sorted dates form one streak ending within a day of today, currentStreak = maxStreak = number of dates |
| `WorkoutAchievements.AchieveCounts` | src/app/services/workout.service.ts:314-346 | on the unsorted input: totalWorkoutDays is its length, 1 <= maxStreak <= max(1, length), and the empty-input values |
| `WorkoutAchievements.LastWorkoutIsLatest` | src/app/services/workout.service.ts:345-346 | lastWorkoutDate is defined exactly when there are dates, is one of them, and is no earlier than any of them |
| `WorkoutAchievements.SameDayWorkoutsStack` | src/app/services/workout.service.ts:314-325 | n workouts all on one day give maxStreak n: duplicates extend the streak and are not merged |
| `WorkoutAchievements.ThreeConsecutiveDays` | src/app/services/workout.service.ts:319-332 | three consecutive days give maxStreak 3 and three workout days |
| `WorkoutAchievements.GapBreaksStreak` | src/app/services/workout.service.ts:319-332 | two workouts four days apart give maxStreak 1 and two workout days |
| `ExerciseCard.ToLower` | src/app/components/ExerciseCard.tsx:14 | `toLowerCase()` as used at lines 14 and 28: same length, each character lowered (ASCII letters only); `ToLowerIdempotent` states that lowering twice is lowering once |
| `ExerciseCard.DifficultyColor` | src/app/components/ExerciseCard.tsx:13-24 | the green, yellow and red pairs are returned exactly for the lower-cased difficulty 'beginner', 'intermediate' and 'advanced'; the gray pair exactly for every other string |
| `ExerciseCard.DifficultyColorIgnoresCase` | src/app/components/ExerciseCard.tsx:14 | the classes of a difficulty equal those of its lower-case form, so 'Beginner' and 'beginner' agree |
| `ExerciseCard.FirstToken` | src/app/components/ExerciseCard.tsx:91 | `split(' ')[0]`: a prefix of the string that holds no space and is followed by a space or the end |
| `ExerciseCard.BadgeFirstToken` | src/app/components/ExerciseCard.tsx:91 | for a colour name without spaces, the first token of its class pair is its text class |
| `ExerciseCard.DifficultyBadgeTextClass` | src/app/components/ExerciseCard.tsx:15-22 | every result is `text-C-600 bg-C-100` for one colour C, and its `split(' ')[0]` is `text-C-600` |
| `ExerciseCard.MuscleGroupEmoji` | src/app/components/ExerciseCard.tsx:27-46 | the flexed biceps exactly for chest, shoulders and arms; the lifter, leg, fire and heart exactly for back, legs, core and cardio; the runner exactly for every unlisted group (after lower-casing) |
| `ExerciseCard.MuscleGroupEmojiIgnoresCase` | src/app/components/ExerciseCard.tsx:28 | the emoji of a muscle group equals that of its lower-case form |

## Left out

- The store calls are network I/O through a client library that is not part of this model. This
  covers every fetch, insert, update, delete, ordering, limit and date-range filter. The model
  takes the already-fetched rows or dates as input, and for `saveWorkout` the row it would insert.
- The early returns on a missing user id in the fetch functions, the `error` branches, try/catch,
  rethrowing and `console` logging. These belong to the I/O wrapper.
- `updateExistingWorkout`, `deleteExistingWorkout`, `fetchAllExercises`,
  `fetchExercisesByMuscleGroup`, `fetchUserWorkouts`, `fetchRecentWorkouts` and
  `getWorkoutsByDateRange`: each only forwards a query to the store.
- src/app/services/exercise.service.ts and src/app/services/superbasse.ts are not part of this
  model. They hold store wrappers and client configuration only.
- Floating point. Totals are unbounded integers. The model does not cover the rounding error of
  the double quotient in `Math.round` for very large totals, or non-integer or NaN column values.
- Date parsing is left out. There are no malformed dates, and no string comparison other than
  the order of the day numbers.
- The clock: "today" is a whole day number passed as a parameter. The source's `new Date()` at
  line 337 carries the time of day f, and that is not modelled. With f, a last workout dated
  yesterday is 1 + f days away and counts only at exact midnight. One dated tomorrow is 1 - f
  days away and always counts.
- The store is assumed to return a saved row's `total_sets`, `total_reps` and `duration`
  unchanged. `SaveThenStats` and `SaveThenStatsAlone` read the saved workout back through
  `StatsRow` under that assumption. Column defaults, triggers and type coercion in the store are
  not modelled.
- `.sort()` sorts the array in place. It is modelled as a pure insertion sort on values, because
  the source calls the library sort and only its result is used.
- `toLowerCase` outside ASCII: only `A`-`Z` are lowered.
- The JSX rendering and styling of the exercise card.
- The `workout_date` column that `getWorkoutStats` fetches but never uses.
- WorkoutAchievements.ThreeConsecutiveDays: does not restate the current streak for this input.
  `CurrentStreakIsFinalRun` and `UnbrokenRunIsCurrent` state it for every input.
