/**
 * The momentum reporter: a read-only summary of the last two weeks of a habit's stored
 * scores (status bucket of the latest multiplier, trend over the last week, streak of
 * positive raw scores), and the same summary for every active habit keyed by its name.
 */
module Momentum {
  import opened Models
  import Series

  /** The status buckets; NoData when the window holds no score. */
  datatype Status = NoData | Excellent | Good | Stable | Declining | Poor

  /** The trend labels "growing", "decaying" and "stable". */
  datatype Trend = Growing | Decaying | Steady

  datatype MomentumReport = MomentumReport(status: Status, currentMultiplier: real, trend: Trend, streakDays: nat)

  /** The report for a habit without any score in the window. */
  const NoDataReport := MomentumReport(NoData, 1.0, Steady, 0)

  /** The habit's stored scores dated in [d - 13, d], ascending by date. */
  function RecentScores(habitScores: map<DayKey, HabitScore>, habitId: int, d: int): (rows: seq<(int, HabitScore)>)
    ensures |rows| <= 14
  {
    HabitWindow(habitScores, habitId, d - 13, d)
  }

  function Multipliers(rows: seq<(int, HabitScore)>): seq<real> {
    seq(|rows|, i requires 0 <= i < |rows| => rows[i].1.momentumMultiplier)
  }

  function RawScores(rows: seq<(int, HabitScore)>): seq<real> {
    seq(|rows|, i requires 0 <= i < |rows| => rows[i].1.rawScore)
  }

  /** The last n elements, or all of them when there are fewer (the slice s[-n:]). */
  function LastN<T>(s: seq<T>, n: nat): (r: seq<T>)
    ensures |r| == if |s| <= n then |s| else n
    ensures forall i :: 0 <= i < |r| ==> r[i] == s[|s| - |r| + i]
  {
    if |s| <= n then s else s[|s| - n..]
  }

  /**
   * The trend of a series of multipliers: its last value against its first, with a 5%
   * band either side counted as steady.
   */
  function TrendOf(ms: seq<real>): (t: Trend)
    ensures |ms| < 2 ==> t == Steady
    ensures |ms| >= 2 ==> (t == Growing <==> ms[|ms| - 1] > ms[0] * 1.05)
    ensures |ms| >= 2 && ms[0] >= 0.0 ==> (t == Decaying <==> ms[|ms| - 1] < ms[0] * 0.95)
    ensures |ms| >= 2 && ms[0] >= 0.0 ==> (t == Steady <==> ms[0] * 0.95 <= ms[|ms| - 1] <= ms[0] * 1.05)
  {
    if |ms| >= 2 then
      if ms[|ms| - 1] > ms[0] * 1.05 then Growing
      else if ms[|ms| - 1] < ms[0] * 0.95 then Decaying
      else Steady
    else Steady
  }

  /** The order of the status buckets, worst first. */
  function Rank(s: Status): nat {
    match s
    case NoData => 0
    case Poor => 1
    case Declining => 2
    case Stable => 3
    case Good => 4
    case Excellent => 5
  }

  /** The status bucket of a multiplier. */
  function StatusOf(m: real): (s: Status)
    ensures s != NoData
    ensures s == Excellent <==> m >= 1.5
    ensures s == Poor <==> m < 0.6
    ensures m == 1.0 ==> s == Stable
  {
    if m >= 1.5 then Excellent
    else if m >= 1.2 then Good
    else if m >= 0.9 then Stable
    else if m >= 0.6 then Declining
    else Poor
  }

  /** The five buckets: each holds exactly the multipliers of its range. */
  lemma StatusBuckets(m: real)
    ensures StatusOf(m) == Excellent <==> m >= 1.5
    ensures StatusOf(m) == Good <==> 1.2 <= m < 1.5
    ensures StatusOf(m) == Stable <==> 0.9 <= m < 1.2
    ensures StatusOf(m) == Declining <==> 0.6 <= m < 0.9
    ensures StatusOf(m) == Poor <==> m < 0.6
  {
  }

  /** A larger multiplier never lands in a worse bucket. */
  lemma StatusMonotone(m1: real, m2: real)
    requires m1 <= m2
    ensures Rank(StatusOf(m1)) <= Rank(StatusOf(m2))
  {
  }

  /** get_momentum_status as a function of the score table. */
  function MomentumStatus(habitScores: map<DayKey, HabitScore>, habitId: int, d: int): (r: MomentumReport)
    ensures r.status == NoData <==> RecentScores(habitScores, habitId, d) == []
    ensures RecentScores(habitScores, habitId, d) == [] ==> r == NoDataReport
    ensures r.streakDays <= |RecentScores(habitScores, habitId, d)| <= 14
    ensures r.status != NoData ==> r.status == StatusOf(r.currentMultiplier)
  {
    ReportOf(RecentScores(habitScores, habitId, d))
  }

  /** The report on the window's rows, ascending by date. */
  function ReportOf(rows: seq<(int, HabitScore)>): (r: MomentumReport)
    ensures r.status == NoData <==> rows == []
    ensures rows == [] ==> r == NoDataReport
    ensures r.streakDays <= |rows|
    ensures r.status != NoData ==> r.status == StatusOf(r.currentMultiplier)
  {
    if rows == [] then NoDataReport
    else
      var current := rows[|rows| - 1].1.momentumMultiplier;
      MomentumReport(StatusOf(current), current, TrendOf(LastN(Multipliers(rows), 7)), Series.TrailingRun(RawScores(rows)))
  }

  /**
   * The reported multiplier is the one stored on the latest day of the window that has a
   * score: that day has one, and no later day of the window does.
   */
  lemma CurrentIsLatest(habitScores: map<DayKey, HabitScore>, habitId: int, d: int) returns (day: int)
    requires RecentScores(habitScores, habitId, d) != []
    ensures d - 13 <= day <= d && (habitId, day) in habitScores
    ensures forall later :: day < later <= d ==> (habitId, later) !in habitScores
    ensures MomentumStatus(habitScores, habitId, d).currentMultiplier == habitScores[(habitId, day)].momentumMultiplier
  {
    var rows := RecentScores(habitScores, habitId, d);
    day := rows[|rows| - 1].0;
    forall later | day < later <= d ensures (habitId, later) !in habitScores {
      if (habitId, later) in habitScores {
        HabitWindowComplete(habitScores, habitId, d - 13, d, later);
        assert false;
      }
    }
  }

  /**
   * n counts the latest rows with a positive raw score, stopping at the first that is not
   * positive.
   */
  predicate IsStreak(rows: seq<(int, HabitScore)>, n: nat) {
    && n <= |rows|
    && (forall i :: |rows| - n <= i < |rows| ==> rows[i].1.rawScore > 0.0)
    && (n < |rows| ==> rows[|rows| - 1 - n].1.rawScore <= 0.0)
  }

  /**
   * The streak counts the latest scores of the window with a positive raw score, stopping
   * at the first that is not positive.
   */
  lemma StreakMeaning(habitScores: map<DayKey, HabitScore>, habitId: int, d: int)
    ensures IsStreak(RecentScores(habitScores, habitId, d), MomentumStatus(habitScores, habitId, d).streakDays)
  {
    StreakOfReport(RecentScores(habitScores, habitId, d));
  }

  /** The streak of the report on some rows counts their latest positive raw scores. */
  lemma StreakOfReport(rows: seq<(int, HabitScore)>)
    ensures IsStreak(rows, ReportOf(rows).streakDays)
  {
    ReportStreak(rows);
    StreakOfRows(rows);
  }

  /** The report's streak is the trailing run of positive raw scores, 0 for no rows. */
  lemma ReportStreak(rows: seq<(int, HabitScore)>)
    ensures ReportOf(rows).streakDays == Series.TrailingRun(RawScores(rows))
  {
    if rows == [] {
      assert RawScores(rows) == [];
    }
  }

  lemma StreakOfRows(rows: seq<(int, HabitScore)>)
    ensures IsStreak(rows, Series.TrailingRun(RawScores(rows)))
  {
    var raws := RawScores(rows);
    var n := Series.TrailingRun(raws);
    assert Series.AllPositive(raws, |raws| - n, |raws|);
    forall i | |rows| - n <= i < |rows| ensures rows[i].1.rawScore > 0.0 {
      assert raws[i] == rows[i].1.rawScore;
    }
    if n < |rows| {
      assert raws[|rows| - 1 - n] == rows[|rows| - 1 - n].1.rawScore;
    }
  }

  /** The trend looks at the last seven scores only: older scores of the window do not matter. */
  lemma TrendUsesLastWeek(habitScores: map<DayKey, HabitScore>, habitId: int, d: int)
    requires |RecentScores(habitScores, habitId, d)| >= 2
    ensures var rows := RecentScores(habitScores, habitId, d);
      var first := if |rows| <= 7 then rows[0] else rows[|rows| - 7];
      var last := rows[|rows| - 1];
      MomentumStatus(habitScores, habitId, d).trend
        == TrendOf([first.1.momentumMultiplier, last.1.momentumMultiplier])
  {
    var rows := RecentScores(habitScores, habitId, d);
    assert MomentumStatus(habitScores, habitId, d).trend == TrendOf(LastN(Multipliers(rows), 7));
    TrendOfLastWeek(rows);
  }

  lemma TrendOfLastWeek(rows: seq<(int, HabitScore)>)
    requires |rows| >= 2
    ensures var first := if |rows| <= 7 then rows[0] else rows[|rows| - 7];
      TrendOf(LastN(Multipliers(rows), 7)) == TrendOf([first.1.momentumMultiplier, rows[|rows| - 1].1.momentumMultiplier])
  {
    var ms := LastN(Multipliers(rows), 7);
    assert ms[0] == (if |rows| <= 7 then rows[0] else rows[|rows| - 7]).1.momentumMultiplier;
    assert ms[|ms| - 1] == rows[|rows| - 1].1.momentumMultiplier;
  }

  /** get_momentum_status: query the window, read the latest multiplier, classify, count the streak. */
  method GetMomentumStatus(db: Db, habitId: int, d: int) returns (r: MomentumReport)
    ensures r == MomentumStatus(db.habitScores, habitId, d)
  {
    var scores := RecentScores(db.habitScores, habitId, d);
    r := Summarise(scores);
  }

  /** The body of get_momentum_status once the window's rows are fetched. */
  method Summarise(scores: seq<(int, HabitScore)>) returns (r: MomentumReport)
    ensures r == ReportOf(scores)
  {
    if scores == [] {
      return NoDataReport;
    }
    var currentMultiplier := scores[|scores| - 1].1.momentumMultiplier;
    var trend := TrendOf(LastN(Multipliers(scores), 7));
    var streakDays := CountStreak(scores);
    r := MomentumReport(StatusOf(currentMultiplier), currentMultiplier, trend, streakDays);
  }

  /** The streak loop of get_momentum_status: walk back from the latest score while the raw score is positive. */
  method CountStreak(scores: seq<(int, HabitScore)>) returns (streakDays: nat)
    ensures streakDays == Series.TrailingRun(RawScores(scores))
  {
    ghost var raws := RawScores(scores);
    streakDays := 0;
    var i := |scores|;
    while i > 0
      invariant 0 <= i <= |scores| && streakDays == |scores| - i
      invariant Series.AllPositive(raws, i, |raws|)
      decreases i
    {
      if scores[i - 1].1.rawScore > 0.0 {
        streakDays := streakDays + 1;
        i := i - 1;
      } else {
        break;
      }
    }
    Series.TrailingRunIsExact(raws, streakDays);
  }

  /** The reports of the given habits keyed by name; a later habit with the same name wins. */
  function AllMomentum(hs: seq<Habit>, habitScores: map<DayKey, HabitScore>, d: int): (data: map<string, MomentumReport>)
    ensures forall name :: name in data <==> exists h :: h in hs && h.name == name
    decreases |hs|
  {
    if hs == [] then map[]
    else
      var h := hs[|hs| - 1];
      var init := hs[..|hs| - 1];
      assert forall g :: g in hs <==> g in init || g == h;
      AllMomentum(init, habitScores, d)[h.name := MomentumStatus(habitScores, h.id, d)]
  }

  /** The entry under a habit's name is that habit's report, unless a later habit has the same name. */
  lemma {:induction false} AllMomentumLastWins(hs: seq<Habit>, habitScores: map<DayKey, HabitScore>, d: int, i: nat)
    requires i < |hs|
    requires forall j :: i < j < |hs| ==> hs[j].name != hs[i].name
    ensures hs[i].name in AllMomentum(hs, habitScores, d)
    ensures AllMomentum(hs, habitScores, d)[hs[i].name] == MomentumStatus(habitScores, hs[i].id, d)
    decreases |hs|
  {
    NameListed(hs, habitScores, d, i);
    if i < |hs| - 1 {
      var init := hs[..|hs| - 1];
      AllMomentumLastWins(init, habitScores, d, i);
    }
  }

  /** Every habit's name is a key. */
  lemma NameListed(hs: seq<Habit>, habitScores: map<DayKey, HabitScore>, d: int, i: nat)
    requires i < |hs|
    ensures hs[i].name in AllMomentum(hs, habitScores, d)
  {
    assert hs[i] in hs;
  }

  /** get_all_momentum_status: one report per active habit, keyed by the habit's name. */
  method GetAllMomentumStatus(db: Db, d: int) returns (momentumData: map<string, MomentumReport>)
    ensures momentumData == AllMomentum(ActiveHabits(db.habits), db.habitScores, d)
    ensures forall name :: name in momentumData <==> exists h :: h in db.habits && h.isActive && h.name == name
  {
    var habits := ActiveHabits(db.habits);
    momentumData := map[];
    var i := 0;
    while i < |habits|
      invariant 0 <= i <= |habits|
      invariant momentumData == AllMomentum(habits[..i], db.habitScores, d)
    {
      var habit := habits[i];
      var report := GetMomentumStatus(db, habit.id, d);
      assert habits[..i + 1][..i] == habits[..i];
      momentumData := momentumData[habit.name := report];
      i := i + 1;
    }
    assert habits[..i] == habits;
  }
}
