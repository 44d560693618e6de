/**
 * The score endpoints: the date range of the daily-score listing, the best-effort
 * recalculation of a range of days, the summary (today, yesterday, week averages, streaks,
 * momentum of every habit) and the trend analytics (average, extremes, 7-day moving averages).
 */
module Scores {
  import opened Models
  import Series
  import Scoring
  import Momentum

  /** The final scores of a run of daily rows. */
  function Finals(rows: seq<(int, DailyScore)>): (r: seq<real>)
    ensures |r| == |rows|
    ensures forall i :: 0 <= i < |rows| ==> r[i] == rows[i].1.finalScore
  {
    seq(|rows|, i requires 0 <= i < |rows| => rows[i].1.finalScore)
  }

  // ---------------------------------------------------------------------------
  // get_daily_scores: the requested range

  /** Python truthiness of an optional day count: present and non-zero. */
  predicate Given(days: Option<int>) { days.Some? && days.value != 0 }

  /**
   * The [start, end] range of the daily listing. A non-zero day count wins and ends the
   * range today; with nothing given the count defaults to 30; otherwise a missing bound
   * lies 30 days from the given one.
   */
  function DailyRange(startDate: Option<int>, endDate: Option<int>, days: Option<int>, today: int): (r: (int, int))
    ensures Given(days) ==> r.1 == today && r.1 - r.0 + 1 == days.value
    ensures !Given(days) && startDate.None? && endDate.None? ==> r.1 == today && r.1 - r.0 + 1 == 30
    ensures !Given(days) && startDate.None? && endDate.Some? ==> r == (endDate.value - 30, endDate.value)
    ensures !Given(days) && startDate.Some? && endDate.None? ==> r == (startDate.value, startDate.value + 30)
    ensures !Given(days) && startDate.Some? && endDate.Some? ==> r == (startDate.value, endDate.value)
  {
    var days' := if startDate.None? && endDate.None? && !Given(days) then Some(30) else days;
    if Given(days') then (today - (days'.value - 1), today)
    else if startDate.None? then (endDate.value - 30, endDate.value)
    else if endDate.None? then (startDate.value, startDate.value + 30)
    else (startDate.value, endDate.value)
  }

  /** get_daily_scores: the daily rows of the range, ascending by date. */
  function GetDailyScores(dailyScores: map<int, DailyScore>, startDate: Option<int>, endDate: Option<int>,
                          days: Option<int>, today: int): (rows: seq<(int, DailyScore)>)
    ensures var (lo, hi) := DailyRange(startDate, endDate, days, today);
      && (forall i :: 0 <= i < |rows| ==> lo <= rows[i].0 <= hi && rows[i].0 in dailyScores && dailyScores[rows[i].0] == rows[i].1)
      && (forall i, j :: 0 <= i < j < |rows| ==> rows[i].0 < rows[j].0)
  {
    var (lo, hi) := DailyRange(startDate, endDate, days, today);
    Window(dailyScores, lo, hi)
  }

  // ---------------------------------------------------------------------------
  // recalculate_scores

  /** The default range: the last 30 days up to today. */
  function RecalculationRange(startDate: Option<int>, endDate: Option<int>, today: int): (int, int) {
    (if startDate.Some? then startDate.value else today - 30, if endDate.Some? then endDate.value else today)
  }

  /** The tables after recomputing lo, lo+1, ..., hi in that order, the failing days leaving them as they were. */
  function RecomputeRange(t: Tables, lo: int, hi: int, failing: set<int>): Tables
    decreases hi - lo
  {
    if hi < lo then t
    else
      var before := RecomputeRange(t, lo, hi - 1, failing);
      if hi in failing then before else Scoring.DailyRecompute(before, hi)
  }

  /** One more day of the range: recomputed, or left as it was when it fails. */
  lemma RecomputeRangeStep(t: Tables, lo: int, hi: int, failing: set<int>)
    requires lo <= hi
    ensures hi in failing ==> RecomputeRange(t, lo, hi, failing) == RecomputeRange(t, lo, hi - 1, failing)
    ensures hi !in failing ==>
      RecomputeRange(t, lo, hi, failing) == Scoring.DailyRecompute(RecomputeRange(t, lo, hi - 1, failing), hi)
  {
  }

  /** The days of [lo, hi] that did not fail, in the order they were visited. */
  function Recalculated(lo: int, hi: int, failing: set<int>): seq<int>
    decreases hi - lo
  {
    if hi < lo then []
    else
      var before := Recalculated(lo, hi - 1, failing);
      if hi in failing then before else before + [hi]
  }

  /** The reported dates are exactly the days of the range that did not fail, ascending. */
  lemma {:induction false} RecalculatedIsAscendingSubset(lo: int, hi: int, failing: set<int>)
    ensures var dates := Recalculated(lo, hi, failing);
      && (forall i :: 0 <= i < |dates| ==> lo <= dates[i] <= hi && dates[i] !in failing)
      && (forall i, j :: 0 <= i < j < |dates| ==> dates[i] < dates[j])
      && (forall day :: lo <= day <= hi && day !in failing ==> day in dates)
    decreases hi - lo
  {
    if lo <= hi {
      RecalculatedIsAscendingSubset(lo, hi - 1, failing);
    }
  }

  /**
   * The body of the try block: recompute the day, or report failure with the tables as
   * they were (the failing days stand for the aggregation raising).
   */
  method TryRecalculate(db: Db, d: int, failing: set<int>) returns (ok: bool)
    modifies db
    ensures ok <==> d !in failing
    ensures db.Snapshot() == if ok then Scoring.DailyRecompute(old(db.Snapshot()), d) else old(db.Snapshot())
  {
    if d in failing {
      return false;
    }
    var _ := Scoring.CalculateDailyScores(db, d);
    ok := true;
  }

  /**
   * recalculate_scores: recompute every day of the range in ascending order; a day whose
   * recomputation raises (a day of `failing`) is skipped and the loop goes on.
   */
  method RecalculateScores(db: Db, startDate: Option<int>, endDate: Option<int>, today: int, failing: set<int>)
    returns (recalculatedDates: seq<int>)
    modifies db
    ensures var (lo, hi) := RecalculationRange(startDate, endDate, today);
      && recalculatedDates == Recalculated(lo, hi, failing)
      && db.Snapshot() == RecomputeRange(old(db.Snapshot()), lo, hi, failing)
  {
    var start := if startDate.Some? then startDate.value else today - 30;
    var end := if endDate.Some? then endDate.value else today;
    recalculatedDates := RecalculateRange(db, start, end, failing);
  }

  /** The loop of recalculate_scores: one day per step from start to end, skipping failures. */
  method RecalculateRange(db: Db, start: int, end: int, failing: set<int>) returns (recalculatedDates: seq<int>)
    modifies db
    ensures recalculatedDates == Recalculated(start, end, failing)
    ensures db.Snapshot() == RecomputeRange(old(db.Snapshot()), start, end, failing)
  {
    ghost var t0 := db.Snapshot();
    recalculatedDates := [];
    var currentDate := start;
    while currentDate <= end
      invariant start <= currentDate <= if start <= end then end + 1 else start
      invariant recalculatedDates == Recalculated(start, currentDate - 1, failing)
      invariant db.Snapshot() == RecomputeRange(t0, start, currentDate - 1, failing)
      decreases end - currentDate
    {
      RecomputeRangeStep(t0, start, currentDate, failing);
      var ok := TryRecalculate(db, currentDate, failing);
      if ok {
        recalculatedDates := recalculatedDates + [currentDate];
      }
      currentDate := currentDate + 1;
    }
    if start <= end {
      assert currentDate - 1 == end;
    }
  }

  /**
   * Because the days are visited in ascending order, every day of the range that did not
   * fail is up to date afterwards: recomputing it again would store the same records.
   */
  lemma {:induction false} RangeLeavesDaysUpToDate(t: Tables, lo: int, hi: int, failing: set<int>, day: int)
    requires lo <= day <= hi && day !in failing
    ensures Scoring.UpToDate(RecomputeRange(t, lo, hi, failing), day)
    decreases hi - lo
  {
    var before := RecomputeRange(t, lo, hi - 1, failing);
    RecomputeRangeStep(t, lo, hi, failing);
    if hi == day {
      Scoring.DailyRecomputeIdempotent(before, day);
    } else {
      RangeLeavesDaysUpToDate(t, lo, hi - 1, failing, day);
      if hi !in failing {
        Scoring.UpToDatePreserved(before, day, hi);
      }
    }
  }

  /** Days outside the range keep their daily record, whatever the recomputation does. */
  lemma {:induction false} RangeKeepsOtherDays(t: Tables, lo: int, hi: int, failing: set<int>, day: int)
    requires day < lo || hi < day
    ensures var t' := RecomputeRange(t, lo, hi, failing);
      && (day in t'.dailyScores <==> day in t.dailyScores)
      && (day in t.dailyScores ==> t'.dailyScores[day] == t.dailyScores[day])
    decreases hi - lo
  {
    if lo <= hi {
      var before := RecomputeRange(t, lo, hi - 1, failing);
      RangeKeepsOtherDays(t, lo, hi - 1, failing, day);
      Scoring.DailyRecomputeFrame(before, hi);
    }
  }

  // ---------------------------------------------------------------------------
  // get_scores_summary

  /** The mean final score of some rows, 0 when there are none. */
  function WeekAverage(rows: seq<(int, DailyScore)>): real {
    if rows == [] then 0.0 else Series.Mean(Finals(rows))
  }

  /** Rows whose final scores lie in [lo, hi] average in [lo, hi]; no rows average 0. */
  lemma WeekAverageBounds(rows: seq<(int, DailyScore)>, lo: real, hi: real)
    requires forall i :: 0 <= i < |rows| ==> lo <= rows[i].1.finalScore <= hi
    ensures rows == [] ==> WeekAverage(rows) == 0.0
    ensures rows != [] ==> lo <= WeekAverage(rows) <= hi
  {
    if rows != [] {
      Series.MeanBounds(Finals(rows), lo, hi);
    }
  }

  /** The week-over-week change in percent; 0 when the previous average is not positive. */
  function WeekOverWeek(current: real, previous: real): (c: real)
    ensures previous <= 0.0 ==> c == 0.0
    ensures previous > 0.0 ==> (c > 0.0 <==> current > previous)
    ensures previous > 0.0 ==> (c == 0.0 <==> current == previous)
    ensures previous > 0.0 ==> (c < 0.0 <==> current < previous)
  {
    if previous > 0.0 then (current - previous) / previous * 100.0 else 0.0
  }

  /** The date-descending final scores of every day up to today. */
  function DescendingFinals(dailyScores: map<int, DailyScore>, today: int): seq<real> {
    Series.Reversed(Finals(RowsUpTo(dailyScores, today)))
  }

  datatype Summary = Summary(
    todayScore: Option<real>,
    yesterdayScore: Option<real>,
    cumulativeScore: real,
    currentWeekAverage: real,
    previousWeekAverage: real,
    weekOverWeekChange: real,
    currentStreak: nat,
    longestStreak: nat,
    momentumStatus: map<string, Momentum.MomentumReport>)

  /** get_scores_summary as a function of the tables. */
  function SummaryOf(t: Tables, today: int): (s: Summary)
    ensures s.currentStreak <= s.longestStreak <= |RowsUpTo(t.dailyScores, today)|
    ensures today in t.dailyScores ==> s.cumulativeScore == t.dailyScores[today].cumulativeScore
    ensures today !in t.dailyScores && today - 1 in t.dailyScores ==>
      s.cumulativeScore == t.dailyScores[today - 1].cumulativeScore
    ensures today !in t.dailyScores && today - 1 !in t.dailyScores ==> s.cumulativeScore == 0.0
  {
    var ds := t.dailyScores;
    var desc := DescendingFinals(ds, today);
    var current := WeekAverage(Window(ds, today - 6, today));
    var previous := WeekAverage(Window(ds, today - 13, today - 7));
    LongestRunBounds(desc);
    Summary(
      if today in ds then Some(ds[today].finalScore) else None,
      if today - 1 in ds then Some(ds[today - 1].finalScore) else None,
      if today in ds then ds[today].cumulativeScore
      else if today - 1 in ds then ds[today - 1].cumulativeScore
      else 0.0,
      current,
      previous,
      WeekOverWeek(current, previous),
      Series.TrailingRun(desc),
      Series.LongestRun(desc),
      Momentum.AllMomentum(ActiveHabits(t.habits), t.habitScores, today))
  }

  /** The trailing run is one of the runs, and no run is longer than the sequence. */
  lemma {:induction false} LongestRunBounds(s: seq<real>)
    ensures Series.TrailingRun(s) <= Series.LongestRun(s) <= |s|
    decreases |s|
  {
    if s != [] {
      LongestRunBounds(s[..|s| - 1]);
    }
  }

  /**
   * The streak scan of get_scores_summary over date-descending final scores: a positive
   * score extends the current run and may raise the longest, any other score resets it.
   */
  method ScanStreaks(finals: seq<real>) returns (currentStreak: nat, longestStreak: nat)
    ensures currentStreak == Series.TrailingRun(finals)
    ensures longestStreak == Series.LongestRun(finals)
  {
    longestStreak, currentStreak := 0, 0;
    var i := 0;
    while i < |finals|
      invariant 0 <= i <= |finals|
      invariant currentStreak == Series.TrailingRun(finals[..i])
      invariant longestStreak == Series.LongestRun(finals[..i])
    {
      assert finals[..i + 1][..i] == finals[..i];
      if finals[i] > 0.0 {
        currentStreak := currentStreak + 1;
        longestStreak := Series.Max(longestStreak, currentStreak);
      } else {
        currentStreak := 0;
      }
      i := i + 1;
    }
    assert finals[..i] == finals;
  }

  /** get_scores_summary: today's and yesterday's records, week averages, streaks, momentum of every habit. */
  method GetScoresSummary(db: Db, today: int) returns (s: Summary)
    ensures s == SummaryOf(db.Snapshot(), today)
  {
    var ds := db.dailyScores;
    var yesterday := today - 1;
    var momentumStatus := Momentum.GetAllMomentumStatus(db, today);
    var weekStart := today - 6;
    var prevWeekStart := weekStart - 7;
    var prevWeekEnd := weekStart - 1;
    var currentWeekAvg := WeekAverage(Window(ds, weekStart, today));
    var prevWeekAvg := WeekAverage(Window(ds, prevWeekStart, prevWeekEnd));
    var currentStreak, longestStreak := ScanStreaks(DescendingFinals(ds, today));
    s := Summary(
      if today in ds then Some(ds[today].finalScore) else None,
      if yesterday in ds then Some(ds[yesterday].finalScore) else None,
      if today in ds then ds[today].cumulativeScore
      else if yesterday in ds then ds[yesterday].cumulativeScore
      else 0.0,
      currentWeekAvg,
      prevWeekAvg,
      WeekOverWeek(currentWeekAvg, prevWeekAvg),
      currentStreak,
      longestStreak,
      momentumStatus);
  }

  /**
   * The reported current streak counts the OLDEST records: the scan runs from the newest
   * record back and ends on the run of records at the start of the history.
   */
  lemma CurrentStreakIsOldestRun(t: Tables, today: int)
    ensures var rows := RowsUpTo(t.dailyScores, today);
      var n := SummaryOf(t, today).currentStreak;
      && n <= |rows|
      && (forall i :: 0 <= i < n ==> rows[i].1.finalScore > 0.0)
      && (n < |rows| ==> rows[n].1.finalScore <= 0.0)
  {
    var rows := RowsUpTo(t.dailyScores, today);
    assert SummaryOf(t, today).currentStreak == Series.TrailingRun(Series.Reversed(Finals(rows)));
    LeadingRunOf(rows);
  }

  /** The trailing run of the reversed final scores is the run at the start of the rows. */
  lemma LeadingRunOf(rows: seq<(int, DailyScore)>)
    ensures var n := Series.TrailingRun(Series.Reversed(Finals(rows)));
      && n <= |rows|
      && (forall i :: 0 <= i < n ==> rows[i].1.finalScore > 0.0)
      && (n < |rows| ==> rows[n].1.finalScore <= 0.0)
  {
    var desc := Series.Reversed(Finals(rows));
    var n := Series.TrailingRun(desc);
    assert Series.AllPositive(desc, |desc| - n, |desc|);
    forall i | 0 <= i < n ensures rows[i].1.finalScore > 0.0 {
      assert desc[|desc| - 1 - i] == rows[i].1.finalScore;
    }
    if n < |rows| {
      assert desc[|desc| - 1 - n] == rows[n].1.finalScore;
    }
  }

  /**
   * The streak of the latest records: the newest n records have a positive final score and
   * the one before them does not.
   */
  function RecentStreak(dailyScores: map<int, DailyScore>, today: int): (n: nat)
    ensures var rows := RowsUpTo(dailyScores, today);
      && n <= |rows|
      && (forall i :: |rows| - n <= i < |rows| ==> rows[i].1.finalScore > 0.0)
      && (n < |rows| ==> rows[|rows| - 1 - n].1.finalScore <= 0.0)
  {
    var finals := Finals(RowsUpTo(dailyScores, today));
    var n := Series.TrailingRun(finals);
    assert Series.AllPositive(finals, |finals| - n, |finals|);
    n
  }

  /**
   * Whenever the oldest record scored nothing and the newest scored, the summary reports a
   * current streak of 0 although the latest records form a streak of at least one day.
   */
  lemma StreakCountsFromOldest(t: Tables, today: int)
    requires var rows := RowsUpTo(t.dailyScores, today);
      rows != [] && rows[0].1.finalScore <= 0.0 && rows[|rows| - 1].1.finalScore > 0.0
    ensures SummaryOf(t, today).currentStreak == 0
    ensures RecentStreak(t.dailyScores, today) >= 1
  {
    CurrentStreakIsOldestRun(t, today);
  }

  /** Day 1 scored 0 and day 2 scored 1: on day 2 the summary reports no current streak. */
  lemma StreakCountsFromOldestExample()
    ensures var t := Tables([], map[], map[], map[1 := DailyScore(0.0, 1.0, 0.0, 0.0), 2 := DailyScore(1.0, 1.0, 1.0, 1.0)], map[]);
      SummaryOf(t, 2).currentStreak == 0 && RecentStreak(t.dailyScores, 2) >= 1
  {
    var ds := map[1 := DailyScore(0.0, 1.0, 0.0, 0.0), 2 := DailyScore(1.0, 1.0, 1.0, 1.0)];
    var rows := RowsUpTo(ds, 2);
    RowsUpToComplete(ds, 2, 1);
    RowsUpToComplete(ds, 2, 2);
    var i :| 0 <= i < |rows| && rows[i] == (1, ds[1]);
    var j :| 0 <= j < |rows| && rows[j] == (2, ds[2]);
    assert rows[0].0 == 1 by {
      assert rows[0].0 in ds;
      assert rows[0].0 <= rows[i].0;
    }
    assert rows[|rows| - 1].0 == 2 by {
      assert rows[|rows| - 1].0 in ds;
      assert rows[j].0 <= rows[|rows| - 1].0;
    }
    StreakCountsFromOldest(Tables([], map[], map[], ds, map[]), 2);
  }

  // ---------------------------------------------------------------------------
  // get_score_trends

  datatype Trends = Trends(
    startDate: int,
    endDate: int,
    days: int,
    averageScore: real,
    maxScore: real,
    minScore: real,
    totalCumulative: real,
    bestDay: (int, real),
    worstDay: (int, real),
    movingAverages: seq<(int, real)>)

  /** The 7-point moving averages, one per row from the seventh on, dated by its last row. */
  function MovingAveragesOf(rows: seq<(int, DailyScore)>): (mas: seq<(int, real)>)
    ensures |mas| == Series.Max(0, |rows| - 6)
    ensures forall k :: 0 <= k < |mas| ==>
      mas[k] == (rows[k + 6].0, Series.Sum(Finals(rows)[k..k + 7]) / 7.0)
  {
    if |rows| <= 6 then []
    else seq(|rows| - 6, k requires 0 <= k < |rows| - 6 => (rows[k + 6].0, Series.Sum(Finals(rows)[k..k + 7]) / 7.0))
  }

  /** A moving average lies between the smallest and the largest score. */
  lemma MovingAverageBounds(rows: seq<(int, DailyScore)>, k: nat)
    requires k < |MovingAveragesOf(rows)|
    ensures var finals := Finals(rows);
      finals[Series.FirstMinIndex(finals)] <= MovingAveragesOf(rows)[k].1 <= finals[Series.FirstMaxIndex(finals)]
  {
    var finals := Finals(rows);
    var lo, hi := finals[Series.FirstMinIndex(finals)], finals[Series.FirstMaxIndex(finals)];
    var window := finals[k..k + 7];
    assert forall i :: 0 <= i < 7 ==> lo <= window[i] <= hi by {
      forall i | 0 <= i < 7 ensures lo <= window[i] <= hi { assert window[i] == finals[k + i]; }
    }
    Series.MeanBounds(window, lo, hi);
  }

  /** The moving-average loop of get_score_trends. */
  method MovingAverages(rows: seq<(int, DailyScore)>) returns (movingAverages: seq<(int, real)>)
    ensures movingAverages == MovingAveragesOf(rows)
  {
    var scores := Finals(rows);
    movingAverages := [];
    var i := 6;
    while i < |scores|
      invariant 6 <= i && (|scores| < 6 ==> i == 6) && (|scores| >= 6 ==> i <= |scores|)
      invariant |movingAverages| == i - 6
      invariant forall k :: 0 <= k < i - 6 ==> movingAverages[k] == (rows[k + 6].0, Series.Sum(scores[k..k + 7]) / 7.0)
    {
      var ma := Series.Sum(scores[i - 6..i + 1]) / 7.0;
      movingAverages := movingAverages + [(rows[i].0, ma)];
      i := i + 1;
    }
  }

  /** get_score_trends as a function of the daily table: None stands for the "no data" message. */
  function ScoreTrends(dailyScores: map<int, DailyScore>, today: int, days: int): (r: Option<Trends>)
    ensures r.None? <==> RowsFrom(dailyScores, today - (days - 1)) == []
    ensures r.Some? ==> r.value.minScore <= r.value.averageScore <= r.value.maxScore
    ensures r.Some? ==> r.value.bestDay.1 == r.value.maxScore && r.value.worstDay.1 == r.value.minScore
  {
    var startDate := today - (days - 1);
    var rows := RowsFrom(dailyScores, startDate);
    if rows == [] then None
    else
      var scores := Finals(rows);
      var best, worst := Series.FirstMaxIndex(scores), Series.FirstMinIndex(scores);
      Series.MeanBounds(scores, scores[worst], scores[best]);
      Some(Trends(startDate, today, days, Series.Mean(scores), scores[best], scores[worst],
        rows[|rows| - 1].1.cumulativeScore, (rows[best].0, scores[best]), (rows[worst].0, scores[worst]),
        MovingAveragesOf(rows)))
  }

  /** The best day has the largest score and no earlier row ties it; likewise the worst day. */
  lemma BestAndWorstDays(dailyScores: map<int, DailyScore>, today: int, days: int)
    requires ScoreTrends(dailyScores, today, days).Some?
    ensures var tr := ScoreTrends(dailyScores, today, days).value;
      var rows := RowsFrom(dailyScores, today - (days - 1));
      && tr.bestDay.0 in dailyScores && dailyScores[tr.bestDay.0].finalScore == tr.maxScore
      && tr.worstDay.0 in dailyScores && dailyScores[tr.worstDay.0].finalScore == tr.minScore
      && (forall i :: 0 <= i < |rows| ==> tr.minScore <= rows[i].1.finalScore <= tr.maxScore)
      && (forall i :: 0 <= i < |rows| && rows[i].0 < tr.bestDay.0 ==> rows[i].1.finalScore < tr.maxScore)
      && (forall i :: 0 <= i < |rows| && rows[i].0 < tr.worstDay.0 ==> rows[i].1.finalScore > tr.minScore)
  {
    var rows := RowsFrom(dailyScores, today - (days - 1));
    var scores := Finals(rows);
    var best, worst := Series.FirstMaxIndex(scores), Series.FirstMinIndex(scores);
    forall i | 0 <= i < |rows| && rows[i].0 < rows[best].0 ensures rows[i].1.finalScore < scores[best] {
      assert i < best;
    }
    forall i | 0 <= i < |rows| && rows[i].0 < rows[worst].0 ensures rows[i].1.finalScore > scores[worst] {
      assert i < worst;
    }
  }

  /** get_score_trends: statistics over the daily rows from the start date on, and their moving averages. */
  method GetScoreTrends(db: Db, today: int, days: int) returns (r: Option<Trends>)
    ensures r == ScoreTrends(db.dailyScores, today, days)
  {
    var startDate := today - (days - 1);
    var dailyScores := RowsFrom(db.dailyScores, startDate);
    if dailyScores == [] {
      return None;
    }
    var scores := Finals(dailyScores);
    var avgScore := Series.Mean(scores);
    var best, worst := Series.FirstMaxIndex(scores), Series.FirstMinIndex(scores);
    var movingAverages := MovingAverages(dailyScores);
    r := Some(Trends(startDate, today, days, avgScore, scores[best], scores[worst],
      dailyScores[|dailyScores| - 1].1.cumulativeScore,
      (dailyScores[best].0, scores[best]), (dailyScores[worst].0, scores[worst]), movingAverages));
  }
}
