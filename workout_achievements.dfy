/**
 * Workout streaks: the computation inside `getWorkoutAchievements`.
 *
 * A workout date is an ISO `YYYY-MM-DD` string, which the source parses to
 * UTC midnight; it is modelled here as its day number, so that the string
 * order used by `.sort()` is the order of the numbers and the millisecond
 * difference divided by a day is the difference of the numbers.  The current
 * day is passed in as `today`.
 */
module WorkoutAchievements {
  import opened Wrappers

  /** The object `getWorkoutAchievements` returns; `lastWorkoutDate` is undefined for no dates. */
  datatype Achievements = Achievements(
    currentStreak: int,
    maxStreak: int,
    totalWorkoutDays: int,
    lastWorkoutDate: Option<int>)

  function Abs(x: int): int
  {
    if x < 0 then -x else x
  }

  function Max(a: int, b: int): int
  {
    if a >= b then a else b
  }

  // ---------------------------------------------------------------------------
  // Sorting the dates

  ghost predicate Ascending(s: seq<int>)
  {
    forall i, j :: 0 <= i < j < |s| ==> s[i] <= s[j]
  }

  /** Inserts a day into an ascending list of days, before the first larger or equal one. */
  function InsertDay(d: int, s: seq<int>): seq<int>
    decreases |s|
  {
    if s == [] then [d]
    else if d <= s[0] then [d] + s
    else [s[0]] + InsertDay(d, s[1..])
  }

  /** `dates.sort()`: an insertion sort. */
  function SortDays(s: seq<int>): seq<int>
    decreases |s|
  {
    if s == [] then [] else InsertDay(s[0], SortDays(s[1..]))
  }

  /** A day no later than every entry of an ascending list can go in front of it. */
  lemma AscendingCons(x: int, t: seq<int>)
    requires Ascending(t)
    requires forall k :: 0 <= k < |t| ==> x <= t[k]
    ensures Ascending([x] + t)
  {
    var r := [x] + t;
    forall i, j | 0 <= i < j < |r| ensures r[i] <= r[j] {
      assert r[j] == t[j - 1];
      if i > 0 {
        assert r[i] == t[i - 1];
      }
    }
  }

  /** Inserting a day no earlier than x into days no earlier than x gives days no earlier than x. */
  lemma {:induction false} InsertDayLowerBound(x: int, d: int, s: seq<int>)
    requires x <= d
    requires forall k :: 0 <= k < |s| ==> x <= s[k]
    ensures forall k :: 0 <= k < |InsertDay(d, s)| ==> x <= InsertDay(d, s)[k]
    decreases |s|
  {
    if s != [] && d > s[0] {
      InsertDayLowerBound(x, d, s[1..]);
    }
  }

  /** Inserting adds exactly the new day. */
  lemma {:induction false} InsertDayMultiset(d: int, s: seq<int>)
    ensures multiset(InsertDay(d, s)) == multiset(s) + multiset{d}
    decreases |s|
  {
    if s != [] && d > s[0] {
      InsertDayMultiset(d, s[1..]);
      assert s == [s[0]] + s[1..];
    }
  }

  /** Inserting into an ascending list keeps it ascending. */
  lemma {:induction false} InsertDayAscending(d: int, s: seq<int>)
    requires Ascending(s)
    ensures Ascending(InsertDay(d, s))
    decreases |s|
  {
    if s == [] {
    } else if d <= s[0] {
      AscendingCons(d, s);
    } else {
      InsertDayAscending(d, s[1..]);
      InsertDayLowerBound(s[0], d, s[1..]);
      AscendingCons(s[0], InsertDay(d, s[1..]));
    }
  }

  /** SortDays returns the same days, in ascending order. */
  lemma {:induction false} SortDaysOrdered(s: seq<int>)
    ensures Ascending(SortDays(s))
    ensures multiset(SortDays(s)) == multiset(s)
    decreases |s|
  {
    if s != [] {
      var t := SortDays(s[1..]);
      SortDaysOrdered(s[1..]);
      InsertDayAscending(s[0], t);
      InsertDayMultiset(s[0], t);
      calc {
        multiset(SortDays(s));
        multiset(InsertDay(s[0], t));
        multiset(s[1..]) + multiset{s[0]};
        { assert s == [s[0]] + s[1..]; }
        multiset(s);
      }
    }
  }

  /** Sorting keeps the number of dates, duplicates included. */
  lemma SortDaysLength(s: seq<int>)
    ensures |SortDays(s)| == |s|
  {
    SortDaysOrdered(s);
    assert |SortDays(s)| == |multiset(SortDays(s))| == |multiset(s)| == |s|;
  }

  /** Dates that arrive in ascending order are left as they are. */
  lemma {:induction false} SortDaysKeepsAscending(s: seq<int>)
    requires Ascending(s)
    ensures SortDays(s) == s
    decreases |s|
  {
    if s != [] {
      SortDaysKeepsAscending(s[1..]);
      assert s == [s[0]] + s[1..];
    }
  }

  // ---------------------------------------------------------------------------
  // The scan of lines 317-332, as a function

  /** The mutable pair (tempStreak, maxStreak) of the loop. */
  datatype ScanState = ScanState(temp: int, best: int)

  /** Whether the sorted entries k and k+1 are at most one day apart. */
  predicate Linked(s: seq<int>, k: int)
    requires 0 <= k < |s| - 1
  {
    Abs(s[k + 1] - s[k]) <= 1
  }

  /**
   * The loop state once the pairs (i-1, i) for 1 <= i < n have been
   * processed: a linked pair extends the running streak, any other pair
   * closes it into the maximum and starts a new streak of 1.
   */
  function ScanTo(s: seq<int>, n: nat): ScanState
    requires n <= |s|
  {
    if n <= 1 then ScanState(1, 0)
    else
      var st := ScanTo(s, n - 1);
      if Linked(s, n - 2) then ScanState(st.temp + 1, st.best)
      else ScanState(1, Max(st.best, st.temp))
  }

  /** What lines 315-347 compute from the sorted dates. */
  function Summarize(sorted: seq<int>, today: int): Achievements
  {
    var st := ScanTo(sorted, |sorted|);
    var maxStreak := Max(st.best, st.temp);
    var currentStreak := if |sorted| > 0 && Abs(today - sorted[|sorted| - 1]) <= 1 then st.temp else 0;
    Achievements(currentStreak, maxStreak, |sorted|,
                 if |sorted| > 0 then Some(sorted[|sorted| - 1]) else None)
  }

  /** Functional specification of `getWorkoutAchievements` on the fetched dates. */
  function Achieve(dates: seq<int>, today: int): Achievements
  {
    Summarize(SortDays(dates), today)
  }

  // ---------------------------------------------------------------------------
  // The scan of lines 313-347, as the source writes it

  /** The loop of `getWorkoutAchievements` over the sorted dates. */
  method ComputeAchievements(dates: seq<int>, today: int) returns (a: Achievements)
    ensures a == Achieve(dates, today)
  {
    var sorted := SortDays(dates);
    var currentStreak := 0;
    var maxStreak := 0;
    var tempStreak := 1;

    var i := 1;
    while i < |sorted|
      invariant |sorted| == 0 ==> i == 1 && tempStreak == 1 && maxStreak == 0
      invariant |sorted| > 0 ==> 1 <= i <= |sorted| && ScanState(tempStreak, maxStreak) == ScanTo(sorted, i)
    {
      var diffDays := Abs(sorted[i] - sorted[i - 1]);
      if diffDays <= 1 {
        tempStreak := tempStreak + 1;
      } else {
        maxStreak := Max(maxStreak, tempStreak);
        tempStreak := 1;
      }
      i := i + 1;
    }

    maxStreak := Max(maxStreak, tempStreak);

    if |sorted| > 0 {
      var diffDays := Abs(today - sorted[|sorted| - 1]);
      currentStreak := if diffDays <= 1 then tempStreak else 0;
    }

    a := Achievements(currentStreak, maxStreak, |sorted|,
                      if |sorted| > 0 then Some(sorted[|sorted| - 1]) else None);
  }

  // ---------------------------------------------------------------------------
  // Runs: a declarative reading of the scan

  /** The entries lo..hi (inclusive) form one streak: every adjacent pair is linked. */
  ghost predicate Chained(s: seq<int>, lo: int, hi: int)
    requires 0 <= lo <= hi < |s|
  {
    forall k :: lo <= k < hi ==> Linked(s, k)
  }

  /** Length of the streak that ends at entry k. */
  function RunAt(s: seq<int>, k: nat): nat
    requires k < |s|
  {
    if k == 0 then 1
    else if Linked(s, k - 1) then RunAt(s, k - 1) + 1
    else 1
  }

  /** The longest streak ending at one of the first n entries. */
  function BestRun(s: seq<int>, n: nat): nat
    requires 1 <= n <= |s|
  {
    if n == 1 then RunAt(s, 0) else Max(BestRun(s, n - 1), RunAt(s, n - 1))
  }

  /**
   * RunAt(s, k) is the length of the longest streak ending at k: that
   * streak is chained, cannot be extended to the left, and every chained
   * segment ending at k is at most as long.
   */
  lemma {:induction false} RunAtIsLongestRunEndingAt(s: seq<int>, k: nat)
    requires k < |s|
    ensures 1 <= RunAt(s, k) <= k + 1
    ensures Chained(s, k + 1 - RunAt(s, k), k)
    ensures k + 1 - RunAt(s, k) > 0 ==> !Linked(s, k - RunAt(s, k))
    ensures forall lo :: 0 <= lo <= k && Chained(s, lo, k) ==> k + 1 - lo <= RunAt(s, k)
  {
    if k > 0 {
      RunAtIsLongestRunEndingAt(s, k - 1);
      if Linked(s, k - 1) {
        forall lo | 0 <= lo <= k && Chained(s, lo, k) ensures k + 1 - lo <= RunAt(s, k) {
          if lo < k {
            assert Chained(s, lo, k - 1);
          }
        }
      } else {
        forall lo | 0 <= lo < k ensures !Chained(s, lo, k) {
        }
      }
    }
  }

  /** BestRun(s, n) is the largest RunAt of the first n entries, and one of them. */
  lemma {:induction false} BestRunIsMaximum(s: seq<int>, n: nat)
    requires 1 <= n <= |s|
    ensures forall k :: 0 <= k < n ==> RunAt(s, k) <= BestRun(s, n)
    ensures exists k :: 0 <= k < n && RunAt(s, k) == BestRun(s, n)
  {
    if n > 1 {
      BestRunIsMaximum(s, n - 1);
    } else {
      assert RunAt(s, 0) == BestRun(s, 1);
    }
  }

  /**
   * The loop invariant of lines 319-330: after the pairs up to index n-1,
   * tempStreak is the streak ending at n-1, maxStreak covers every streak
   * already closed by a gap, and together they give the longest streak so far.
   */
  lemma {:induction false} ScanTracksRuns(s: seq<int>, n: nat)
    requires 1 <= n <= |s|
    ensures ScanTo(s, n).temp == RunAt(s, n - 1)
    ensures 0 <= ScanTo(s, n).best <= BestRun(s, n)
    ensures forall k :: 0 <= k < n - 1 && !Linked(s, k) ==> RunAt(s, k) <= ScanTo(s, n).best
    ensures Max(ScanTo(s, n).best, ScanTo(s, n).temp) == BestRun(s, n)
  {
    if n > 1 {
      ScanTracksRuns(s, n - 1);
      RunAtIsLongestRunEndingAt(s, n - 2);
    }
  }

  /** A gap of more than one day resets the running streak to 1; otherwise it grows by one. */
  lemma ScanStep(s: seq<int>, n: nat)
    requires 2 <= n <= |s|
    ensures !Linked(s, n - 2) ==> ScanTo(s, n).temp == 1
    ensures Linked(s, n - 2) ==> ScanTo(s, n).temp == ScanTo(s, n - 1).temp + 1
    ensures ScanTo(s, n).temp >= 1
  {
    ScanTracksRuns(s, n);
    RunAtIsLongestRunEndingAt(s, n - 1);
  }

  // ---------------------------------------------------------------------------
  // Properties of the result

  /** Bounds, and the empty-list quirk: maxStreak is 1 when there are no dates. */
  lemma SummarizeBounds(s: seq<int>, today: int)
    ensures var a := Summarize(s, today);
      && a.totalWorkoutDays == |s|
      && 1 <= a.maxStreak <= Max(1, |s|)
      && 0 <= a.currentStreak <= a.maxStreak
      && (|s| == 0 ==> a.currentStreak == 0 && a.maxStreak == 1 && a.lastWorkoutDate == None)
  {
    if |s| > 0 {
      ScanTracksRuns(s, |s|);
      BestRunIsMaximum(s, |s|);
      var k :| 0 <= k < |s| && RunAt(s, k) == BestRun(s, |s|);
      RunAtIsLongestRunEndingAt(s, k);
      RunAtIsLongestRunEndingAt(s, |s| - 1);
    }
  }

  /**
   * maxStreak is the length of the longest streak in the sorted dates:
   * no chained segment is longer, and one chained segment is that long.
   */
  lemma MaxStreakIsLongestRun(s: seq<int>, today: int)
    ensures var m := Summarize(s, today).maxStreak;
      && (forall lo, hi :: 0 <= lo <= hi < |s| && Chained(s, lo, hi) ==> hi + 1 - lo <= m)
      && (|s| > 0 ==> exists lo, hi :: 0 <= lo <= hi < |s| && Chained(s, lo, hi) && hi + 1 - lo == m)
  {
    if |s| > 0 {
      var m := Summarize(s, today).maxStreak;
      ScanTracksRuns(s, |s|);
      BestRunIsMaximum(s, |s|);
      forall lo, hi | 0 <= lo <= hi < |s| && Chained(s, lo, hi) ensures hi + 1 - lo <= m {
        RunAtIsLongestRunEndingAt(s, hi);
      }
      var k :| 0 <= k < |s| && RunAt(s, k) == BestRun(s, |s|);
      RunAtIsLongestRunEndingAt(s, k);
      assert Chained(s, k + 1 - m, k) && k + 1 - (k + 1 - m) == m;
    }
  }

  /**
   * currentStreak is the streak that ends at the last workout when that
   * workout is within a day of today, and 0 otherwise.
   */
  lemma CurrentStreakIsFinalRun(s: seq<int>, today: int)
    ensures var a := Summarize(s, today);
      && (a.currentStreak != 0 <==> |s| > 0 && Abs(today - s[|s| - 1]) <= 1)
      && (a.currentStreak != 0 ==> a.currentStreak == RunAt(s, |s| - 1))
      && a.currentStreak <= a.maxStreak
  {
    if |s| > 0 {
      ScanTracksRuns(s, |s|);
      RunAtIsLongestRunEndingAt(s, |s| - 1);
    }
  }

  /**
   * When the sorted dates form one unbroken streak that ends within a day of
   * today, the current streak is the maximum streak and counts every date.
   */
  lemma UnbrokenRunIsCurrent(s: seq<int>, today: int)
    requires |s| > 0 && Chained(s, 0, |s| - 1) && Abs(today - s[|s| - 1]) <= 1
    ensures Summarize(s, today).currentStreak == Summarize(s, today).maxStreak == |s|
  {
    RunAtIsLongestRunEndingAt(s, |s| - 1);
    CurrentStreakIsFinalRun(s, today);
    SummarizeBounds(s, today);
  }

  /** Sorting changes neither the number of dates nor the bounds on the streaks. */
  lemma AchieveCounts(dates: seq<int>, today: int)
    ensures var a := Achieve(dates, today);
      && a.totalWorkoutDays == |dates|
      && 1 <= a.maxStreak <= Max(1, |dates|)
      && (|dates| == 0 ==> a.currentStreak == 0 && a.maxStreak == 1 && a.lastWorkoutDate == None)
  {
    SortDaysLength(dates);
    SummarizeBounds(SortDays(dates), today);
  }

  /** The last sorted date is the latest workout date. */
  lemma LastWorkoutIsLatest(dates: seq<int>, today: int)
    ensures var a := Achieve(dates, today);
      && (a.lastWorkoutDate.Some? <==> |dates| > 0)
      && (a.lastWorkoutDate.Some? ==>
            && a.lastWorkoutDate.value in dates
            && forall d :: d in dates ==> d <= a.lastWorkoutDate.value)
  {
    var s := SortDays(dates);
    SortDaysOrdered(dates);
    SortDaysLength(dates);
    if |s| > 0 {
      var last := s[|s| - 1];
      assert last in multiset(s);
      forall d | d in dates ensures d <= last {
        assert d in multiset(s);
        var j :| 0 <= j < |s| && s[j] == d;
      }
    }
  }

  /**
   * Several workouts on one day are not merged: n workouts all on the same
   * day make a streak of n.
   */
  lemma SameDayWorkoutsStack(dates: seq<int>, today: int)
    requires |dates| > 0
    requires forall i :: 0 <= i < |dates| ==> dates[i] == dates[0]
    ensures Achieve(dates, today).maxStreak == |dates|
  {
    var s := SortDays(dates);
    SortDaysOrdered(dates);
    SortDaysLength(dates);
    forall k | 0 <= k < |s| ensures s[k] == dates[0] {
      assert s[k] in multiset(dates);
    }
    assert Chained(s, 0, |s| - 1);
    MaxStreakIsLongestRun(s, today);
    SummarizeBounds(s, today);
  }

  /** Three consecutive days give a streak of three. */
  lemma ThreeConsecutiveDays(d: int, today: int)
    ensures Achieve([d, d + 1, d + 2], today).maxStreak == 3
    ensures Achieve([d, d + 1, d + 2], today).totalWorkoutDays == 3
  {
    var s := [d, d + 1, d + 2];
    SortDaysKeepsAscending(s);
    assert ScanTo(s, 2) == ScanState(2, 0);
    assert ScanTo(s, 3) == ScanState(3, 0);
  }

  /** A four-day gap splits two workouts into two streaks of one. */
  lemma GapBreaksStreak(d: int, today: int)
    ensures Achieve([d, d + 4], today).maxStreak == 1
    ensures Achieve([d, d + 4], today).totalWorkoutDays == 2
  {
    var s := [d, d + 4];
    SortDaysKeepsAscending(s);
    assert !Linked(s, 0);
    assert ScanTo(s, 2) == ScanState(1, 1);
  }
}
