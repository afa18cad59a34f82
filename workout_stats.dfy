/**
 * Workout statistics: the reduction inside `getWorkoutStats`.
 *
 * The fetched rows (columns total_sets, total_reps, duration; each may be
 * null) are folded left to right into four running totals, and three
 * averages are taken with `Math.round(total / count)`.  An empty history is
 * answered with seven zeros before any division happens.
 */
module WorkoutStats {
  import opened Wrappers

  /** One fetched workout row; a null column is `None`. */
  datatype WorkoutRow = WorkoutRow(totalSets: Option<int>, totalReps: Option<int>, duration: Option<int>)

  /** The accumulator of the `reduce` call. */
  datatype Totals = Totals(totalWorkouts: int, totalSets: int, totalReps: int, totalMinutes: int)

  /** The `WorkoutStats` record handed to the screens. */
  datatype Stats = Stats(
    totalWorkouts: int,
    totalSets: int,
    totalReps: int,
    totalMinutes: int,
    averageWorkoutDuration: int,
    averageSetsPerWorkout: int,
    averageRepsPerWorkout: int)

  /** `v || 0` on a nullable number: a missing value counts as 0, and so does a stored 0. */
  function OrZero(v: Option<int>): int
  {
    match v
    case None => 0
    case Some(x) => x
  }

  /** The `reduce` callback: one more workout, and its columns added to the sums. */
  function Accumulate(acc: Totals, w: WorkoutRow): Totals
  {
    Totals(acc.totalWorkouts + 1,
           acc.totalSets + OrZero(w.totalSets),
           acc.totalReps + OrZero(w.totalReps),
           acc.totalMinutes + OrZero(w.duration))
  }

  /** `rows.reduce(Accumulate, acc)`: a left fold, first row first. */
  function Reduce(rows: seq<WorkoutRow>, acc: Totals): Totals
    decreases |rows|
  {
    if rows == [] then acc else Reduce(rows[1..], Accumulate(acc, rows[0]))
  }

  /** The three summed columns. */
  datatype Column = Sets | Reps | Minutes

  /** The contribution of one row to the sum of a column. */
  function ColumnValue(w: WorkoutRow, c: Column): int
  {
    match c
    case Sets => OrZero(w.totalSets)
    case Reps => OrZero(w.totalReps)
    case Minutes => OrZero(w.duration)
  }

  /** Reference definition of a column total: the plain sum over the rows. */
  function ColumnSum(rows: seq<WorkoutRow>, c: Column): int
    decreases |rows|
  {
    if rows == [] then 0 else ColumnValue(rows[0], c) + ColumnSum(rows[1..], c)
  }

  /** Folding from a given accumulator adds the row count and the column sums to it. */
  lemma {:induction false} ReduceAddsSums(rows: seq<WorkoutRow>, acc: Totals)
    ensures Reduce(rows, acc) == Totals(acc.totalWorkouts + |rows|,
                                        acc.totalSets + ColumnSum(rows, Sets),
                                        acc.totalReps + ColumnSum(rows, Reps),
                                        acc.totalMinutes + ColumnSum(rows, Minutes))
    decreases |rows|
  {
    if rows != [] {
      ReduceAddsSums(rows[1..], Accumulate(acc, rows[0]));
    }
  }

  /**
   * `Math.round(total / count)` for integers: the nearest integer to the
   * quotient, a tie going up (Math.round(2.5) is 3, Math.round(-2.5) is -2).
   */
  function RoundDiv(total: int, count: int): (r: int)
    requires count > 0
    ensures count * (2 * r - 1) <= 2 * total < count * (2 * r + 1)
  {
    var q := (2 * total + count) / (2 * count);
    assert 2 * count * q <= 2 * total + count < 2 * count * q + 2 * count;
    q
  }

  /** The rounding condition of RoundDiv has only one solution. */
  lemma RoundDivUnique(total: int, count: int, r: int)
    requires count > 0
    requires count * (2 * r - 1) <= 2 * total < count * (2 * r + 1)
    ensures r == RoundDiv(total, count)
  {
    var q := RoundDiv(total, count);
    if r < q {
      MulLeq(count, 2 * r + 1, 2 * q - 1);
    } else if q < r {
      MulLeq(count, 2 * q + 1, 2 * r - 1);
    }
  }

  lemma MulLeq(k: int, a: int, b: int)
    requires k > 0 && a <= b
    ensures k * a <= k * b
  {}

  /** An exact quotient is returned unchanged. */
  lemma RoundDivExact(k: int, count: int)
    requires count > 0
    ensures RoundDiv(k * count, count) == k
  {
    RoundDivUnique(k * count, count, k);
  }

  /** A non-negative total has a non-negative average no larger than the total. */
  lemma RoundDivBounds(total: int, count: int)
    requires total >= 0 && count > 0
    ensures 0 <= RoundDiv(total, count) <= total
  {
    var r := RoundDiv(total, count);
    if r < 0 {
      MulLeq(count, 2 * r + 1, -1);
    }
    if r > total {
      MulLeq(count, 2 * total + 1, 2 * r - 1);
      MulLeq(2 * total + 1, 1, count);
    }
  }

  /**
   * The computation of `getWorkoutStats` once the rows are fetched: all
   * zeros for no rows, otherwise the fold and the three rounded averages.
   */
  function ComputeStats(rows: seq<WorkoutRow>): (s: Stats)
    ensures s.totalWorkouts == |rows|
    ensures s.totalSets == ColumnSum(rows, Sets)
    ensures s.totalReps == ColumnSum(rows, Reps)
    ensures s.totalMinutes == ColumnSum(rows, Minutes)
    ensures |rows| == 0 ==> s == Stats(0, 0, 0, 0, 0, 0, 0)
    ensures |rows| > 0 ==> s.averageWorkoutDuration == RoundDiv(s.totalMinutes, |rows|)
    ensures |rows| > 0 ==> s.averageSetsPerWorkout == RoundDiv(s.totalSets, |rows|)
    ensures |rows| > 0 ==> s.averageRepsPerWorkout == RoundDiv(s.totalReps, |rows|)
  {
    if |rows| == 0 then
      Stats(0, 0, 0, 0, 0, 0, 0)
    else
      ReduceAddsSums(rows, Totals(0, 0, 0, 0));
      var t := Reduce(rows, Totals(0, 0, 0, 0));
      Stats(t.totalWorkouts, t.totalSets, t.totalReps, t.totalMinutes,
            RoundDiv(t.totalMinutes, t.totalWorkouts),
            RoundDiv(t.totalSets, t.totalWorkouts),
            RoundDiv(t.totalReps, t.totalWorkouts))
  }

  /** No stored column is negative. */
  predicate NonNegativeRows(rows: seq<WorkoutRow>)
  {
    forall i, c :: 0 <= i < |rows| ==> ColumnValue(rows[i], c) >= 0
  }

  lemma {:induction false} ColumnSumNonNegative(rows: seq<WorkoutRow>, c: Column)
    requires NonNegativeRows(rows)
    ensures ColumnSum(rows, c) >= 0
    decreases |rows|
  {
    if rows != [] {
      assert ColumnValue(rows[0], c) >= 0;
      assert NonNegativeRows(rows[1..]) by {
        forall i, c' | 0 <= i < |rows[1..]| ensures ColumnValue(rows[1..][i], c') >= 0 {
          assert rows[1..][i] == rows[i + 1];
        }
      }
      ColumnSumNonNegative(rows[1..], c);
    }
  }

  /** With non-negative columns every average lies between 0 and its total. */
  lemma AveragesBounded(rows: seq<WorkoutRow>)
    requires NonNegativeRows(rows)
    ensures var s := ComputeStats(rows);
      && 0 <= s.averageWorkoutDuration <= s.totalMinutes
      && 0 <= s.averageSetsPerWorkout <= s.totalSets
      && 0 <= s.averageRepsPerWorkout <= s.totalReps
  {
    if |rows| > 0 {
      ColumnSumNonNegative(rows, Minutes);
      ColumnSumNonNegative(rows, Sets);
      ColumnSumNonNegative(rows, Reps);
      RoundDivBounds(ColumnSum(rows, Minutes), |rows|);
      RoundDivBounds(ColumnSum(rows, Sets), |rows|);
      RoundDivBounds(ColumnSum(rows, Reps), |rows|);
    }
  }

  lemma {:induction false} ColumnSumConcat(a: seq<WorkoutRow>, b: seq<WorkoutRow>, c: Column)
    ensures ColumnSum(a + b, c) == ColumnSum(a, c) + ColumnSum(b, c)
    decreases |a|
  {
    if a == [] {
      assert a + b == b;
    } else {
      assert (a + b)[1..] == a[1..] + b;
      ColumnSumConcat(a[1..], b, c);
    }
  }

  /** Removing the row at index j takes that row out of the multiset. */
  lemma RemoveAtMultiset(b: seq<WorkoutRow>, j: int)
    requires 0 <= j < |b|
    ensures multiset(b[..j] + b[j + 1..]) == multiset(b) - multiset{b[j]}
  {
    assert b == b[..j] + [b[j]] + b[j + 1..];
  }

  /** Removing the row at index j takes its value out of the column sum. */
  lemma RemoveAtSum(b: seq<WorkoutRow>, j: int, c: Column)
    requires 0 <= j < |b|
    ensures ColumnSum(b, c) == ColumnValue(b[j], c) + ColumnSum(b[..j] + b[j + 1..], c)
  {
    assert b == b[..j] + ([b[j]] + b[j + 1..]);
    ColumnSumConcat(b[..j], [b[j]] + b[j + 1..], c);
    ColumnSumConcat(b[..j], b[j + 1..], c);
    assert ([b[j]] + b[j + 1..])[1..] == b[j + 1..];
  }

  /** A column sum does not depend on the order of the rows. */
  lemma {:induction false} ColumnSumReorder(a: seq<WorkoutRow>, b: seq<WorkoutRow>, c: Column)
    requires multiset(a) == multiset(b)
    ensures ColumnSum(a, c) == ColumnSum(b, c)
    decreases |a|
  {
    if a == [] {
      assert |b| == |multiset(b)| == 0;
    } else {
      var x := a[0];
      assert x in multiset(a);
      assert x in b;
      var j :| 0 <= j < |b| && b[j] == x;
      var rest := b[..j] + b[j + 1..];
      RemoveAtMultiset(b, j);
      RemoveAtMultiset(a, 0);
      assert a[..0] + a[1..] == a[1..];
      assert multiset(a[1..]) == multiset(rest);
      ColumnSumReorder(a[1..], rest, c);
      RemoveAtSum(b, j, c);
      assert ColumnSum(a, c) == ColumnValue(x, c) + ColumnSum(a[1..], c);
    }
  }

  /** The statistics are the same for any order in which the rows arrive. */
  lemma StatsReorder(a: seq<WorkoutRow>, b: seq<WorkoutRow>)
    requires multiset(a) == multiset(b)
    ensures ComputeStats(a) == ComputeStats(b)
  {
    assert |a| == |multiset(a)| == |multiset(b)| == |b|;
    ColumnSumReorder(a, b, Sets);
    ColumnSumReorder(a, b, Reps);
    ColumnSumReorder(a, b, Minutes);
  }
}
