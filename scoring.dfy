/**
 * The daily scoring pipeline: raw tier scores, the 7-day completion rate, the weekly
 * performance tier, the momentum transition, the stored-reading recovery multiplier and
 * the daily aggregation with its upserts.
 */
module Scoring {
  import opened Models
  import Series

  function MinR(a: real, b: real): real { if a <= b then a else b }
  function MaxR(a: real, b: real): real { if a >= b then a else b }

  // ---------------------------------------------------------------------------
  // Raw tier score

  /** The raw score of one day's value against the habit's thresholds (zero_threshold is never read). */
  function RawScore(h: Habit, value: real): (r: real)
    ensures r == 0.0 || r == 0.3 || r == 1.0 || r == 1.5
    ensures !h.isInverted && value == 0.0 ==> r == 0.0
    ensures h.isInverted && value >= h.nonzeroThreshold ==> r == 0.0
  {
    if h.isInverted then
      if value >= h.nonzeroThreshold then 0.0
      else if value <= h.stretchThreshold then 1.5
      else if value <= h.goalThreshold then 1.0
      else 0.3
    else
      if value == 0.0 then 0.0
      else if value >= h.stretchThreshold then 1.5
      else if value >= h.goalThreshold then 1.0
      else if value >= h.nonzeroThreshold then 0.3
      else 0.0
  }

  /** Higher is better: among non-negative values, more never scores less. */
  lemma RawScoreMonotone(h: Habit, v1: real, v2: real)
    requires !h.isInverted
    requires 0.0 <= v1 <= v2
    ensures RawScore(h, v1) <= RawScore(h, v2)
  {
  }

  /** Lower is better: for an inverted habit, more never scores more. */
  lemma RawScoreAntitone(h: Habit, v1: real, v2: real)
    requires h.isInverted
    requires v1 <= v2
    ensures RawScore(h, v2) <= RawScore(h, v1)
  {
  }

  // ---------------------------------------------------------------------------
  // Weekly completion rate

  predicate Completed(entries: map<DayKey, real>, habitId: int, day: int) {
    (habitId, day) in entries && entries[(habitId, day)] > 0.0
  }

  /** The days of [lo, hi) with an entry whose value is positive. */
  function CompletedIn(entries: map<DayKey, real>, habitId: int, lo: int, hi: int): (days: set<int>)
    ensures forall day :: day in days <==> lo <= day < hi && Completed(entries, habitId, day)
    ensures |days| <= if hi < lo then 0 else hi - lo
    decreases hi - lo
  {
    if hi <= lo then {}
    else CompletedIn(entries, habitId, lo, hi - 1) + (if Completed(entries, habitId, hi - 1) then {hi - 1} else {})
  }

  /** The days of the 7-day window ending on d with an entry whose value is positive. */
  function CompletedDays(entries: map<DayKey, real>, habitId: int, d: int): (days: set<int>)
    ensures forall day :: day in days <==> d - 6 <= day <= d && Completed(entries, habitId, day)
    ensures |days| <= 7
  {
    CompletedIn(entries, habitId, d - 6, d + 1)
  }

  /** The fraction of the 7-day window ending on d on which the habit was completed. */
  function CompletionRate(entries: map<DayKey, real>, habitId: int, d: int): (r: real)
    ensures 0.0 <= r <= 1.0
  {
    |CompletedDays(entries, habitId, d)| as real / 7.0
  }

  /** get_weekly_completion_rate: count the positive entries of the window, divide by 7. */
  method GetWeeklyCompletionRate(db: Db, habitId: int, d: int) returns (rate: real)
    ensures rate * 7.0 == |CompletedDays(db.entries, habitId, d)| as real
    ensures rate == CompletionRate(db.entries, habitId, d)
  {
    var completedDays := 0;
    var day := d - 6;
    while day <= d
      invariant d - 6 <= day <= d + 1
      invariant completedDays == |CompletedIn(db.entries, habitId, d - 6, day)|
    {
      if (habitId, day) in db.entries && db.entries[(habitId, day)] > 0.0 {
        completedDays := completedDays + 1;
      }
      day := day + 1;
    }
    rate := completedDays as real / 7.0;
  }

  // ---------------------------------------------------------------------------
  // Weekly performance tier

  datatype Tier = Exceed | Meet | Close | Miss | Fail

  /** The tier of a completion rate against target/7, with forgiveness/7 of slack; tested in order. */
  function PerformanceTier(rate: real, targetDays: int, forgivenessDays: int): (t: Tier)
    ensures t == Exceed <==> rate > targetDays as real / 7.0
    ensures t == Meet <==> rate == targetDays as real / 7.0
    ensures t == Close <==>
      targetDays as real / 7.0 - forgivenessDays as real / 7.0 <= rate < targetDays as real / 7.0
    ensures t == Miss <==>
      0.2 < rate < targetDays as real / 7.0 && rate < targetDays as real / 7.0 - forgivenessDays as real / 7.0
    ensures t == Fail <==>
      rate <= 0.2 && rate < targetDays as real / 7.0 && rate < targetDays as real / 7.0 - forgivenessDays as real / 7.0
  {
    var targetCompletionRate := targetDays as real / 7.0;
    var forgivenessBuffer := forgivenessDays as real / 7.0;
    if rate > targetCompletionRate then Exceed
    else if rate >= targetCompletionRate then Meet
    else if rate >= targetCompletionRate - forgivenessBuffer then Close
    else if rate > 0.2 then Miss
    else Fail
  }

  // ---------------------------------------------------------------------------
  // Momentum

  /** The stored multiplier band. */
  predicate InBounds(m: real) { 0.1 <= m <= 3.0 }

  /** Compounding grows, decaying shrinks. */
  predicate ValidRates(h: Habit) { 1.0 <= h.compoundRate && 0.0 < h.decayRate <= 1.0 }

  /**
   * previous × rate^times. The source multiplies by `decay_rate ** 2` and `decay_rate ** 3`;
   * over the reals that is the same as decaying two or three times in a row.
   */
  function Decayed(previous: real, rate: real, times: nat): real
  {
    if times == 0 then previous else Decayed(previous, rate, times - 1) * rate
  }

  /** One step of the momentum state machine. */
  function Transition(tier: Tier, previous: real, compoundRate: real, decayRate: real): (m: real)
    ensures tier == Exceed ==> m <= 3.0
    ensures tier == Meet ==> m == previous
    ensures tier == Close ==> m >= 0.5
    ensures tier == Miss ==> m >= 0.3
    ensures tier == Fail ==> m >= 0.1
  {
    match tier
    case Exceed => MinR(previous * compoundRate, 3.0)
    case Meet => previous
    case Close => MaxR(Decayed(previous, decayRate, 1), 0.5)
    case Miss => MaxR(Decayed(previous, decayRate, 2), 0.3)
    case Fail => MaxR(Decayed(previous, decayRate, 3), 0.1)
  }

  /** Scaling by a factor in (0, 1] keeps a positive number positive and never grows it. */
  lemma Shrinks(x: real, f: real)
    requires 0.0 < x && 0.0 < f <= 1.0
    ensures 0.0 < x * f <= x
  {
    Series.MulMonotone(f, 1.0, x);
    assert f * x <= 1.0 * x;
    Series.MulPositive(x, f);
  }

  /** Decaying a positive multiplier by a rate in (0, 1] keeps it positive and never grows it. */
  lemma {:induction false} DecayedShrinks(previous: real, rate: real, times: nat)
    requires 0.0 < previous && 0.0 < rate <= 1.0
    ensures 0.0 < Decayed(previous, rate, times) <= previous
  {
    if times > 0 {
      DecayedShrinks(previous, rate, times - 1);
      Shrinks(Decayed(previous, rate, times - 1), rate);
    }
  }

  /** The clamp invariant: a multiplier in [0.1, 3.0] stays there, whatever the tier. */
  lemma TransitionStaysInBounds(tier: Tier, previous: real, compoundRate: real, decayRate: real)
    requires InBounds(previous)
    requires 1.0 <= compoundRate && 0.0 < decayRate <= 1.0
    ensures InBounds(Transition(tier, previous, compoundRate, decayRate))
  {
    match tier
    case Exceed =>
      Series.MulMonotone(1.0, compoundRate, previous);
      assert previous * compoundRate >= previous;
    case Meet =>
    case Close =>
      DecayedShrinks(previous, decayRate, 1);
    case Miss =>
      DecayedShrinks(previous, decayRate, 2);
    case Fail =>
      DecayedShrinks(previous, decayRate, 3);
  }

  /** The multiplier stored for exactly the previous day, 1.0 when there is none. */
  function PreviousMultiplier(habitScores: map<DayKey, HabitScore>, habitId: int, d: int): real {
    if (habitId, d - 1) in habitScores then habitScores[(habitId, d - 1)].momentumMultiplier else 1.0
  }

  function WeeklyTier(entries: map<DayKey, real>, h: Habit, d: int): Tier {
    PerformanceTier(CompletionRate(entries, h.id, d), h.targetDaysPerWeek, h.forgivenessDays)
  }

  /** calculate_momentum as a function of the stores it reads. */
  function MomentumFor(entries: map<DayKey, real>, habitScores: map<DayKey, HabitScore>, h: Habit, d: int): (m: real)
    ensures ValidRates(h) && InBounds(PreviousMultiplier(habitScores, h.id, d)) ==> InBounds(m)
    ensures (h.id, d - 1) !in habitScores ==> m == Transition(WeeklyTier(entries, h, d), 1.0, h.compoundRate, h.decayRate)
  {
    var previous := PreviousMultiplier(habitScores, h.id, d);
    var tier := WeeklyTier(entries, h, d);
    if ValidRates(h) && InBounds(previous) then
      TransitionStaysInBounds(tier, previous, h.compoundRate, h.decayRate);
      Transition(tier, previous, h.compoundRate, h.decayRate)
    else
      Transition(tier, previous, h.compoundRate, h.decayRate)
  }

  /** calculate_momentum: tier of today's rate applied to yesterday's multiplier. */
  method CalculateMomentum(db: Db, h: Habit, d: int) returns (m: real)
    ensures m == MomentumFor(db.entries, db.habitScores, h, d)
  {
    var completionRate := GetWeeklyCompletionRate(db, h.id, d);
    var performanceTier := PerformanceTier(completionRate, h.targetDaysPerWeek, h.forgivenessDays);
    var previousMomentum := if (h.id, d - 1) in db.habitScores then db.habitScores[(h.id, d - 1)].momentumMultiplier else 1.0;
    m := Transition(performanceTier, previousMomentum, h.compoundRate, h.decayRate);
  }

  // ---------------------------------------------------------------------------
  // Recovery multiplier from the stored readings of a day

  /** The clamp to [0.5, 2.0] shared by both recovery multipliers. */
  function RecoveryClamp(x: real): (r: real)
    ensures 0.5 <= r <= 2.0
    ensures 0.5 <= x <= 2.0 ==> r == x
    ensures r == 1.0 <==> x == 1.0
  {
    MaxR(0.5, MinR(x, 2.0))
  }

  /** Python truthiness of an optional reading: present and non-zero. */
  predicate Truthy(r: Option<real>) { r.Some? && r.value != 0.0 }

  predicate AllTruthy(w: WhoopData) { Truthy(w.sleepScore) && Truthy(w.hrvScore) && Truthy(w.recoveryScore) }

  /** calculate_whoop_multiplier in the scoring pipeline. */
  function WhoopMultiplier(whoop: map<int, WhoopData>, d: int): (r: real)
    ensures 0.5 <= r <= 2.0
    ensures d !in whoop || !AllTruthy(whoop[d]) ==> r == 1.0
    ensures d in whoop && AllTruthy(whoop[d]) ==>
      (r == 1.0 <==> whoop[d].sleepScore.value + whoop[d].hrvScore.value + whoop[d].recoveryScore.value == 210.0)
  {
    if d !in whoop || !AllTruthy(whoop[d]) then 1.0
    else
      var w := whoop[d];
      var averageScore := (w.sleepScore.value + w.hrvScore.value + w.recoveryScore.value) / 3.0;
      RecoveryClamp(averageScore / 70.0)
  }

  // ---------------------------------------------------------------------------
  // Daily aggregation

  /** The HabitScore record calculate_daily_scores stores for one habit and day. */
  function HabitDayScore(t: Tables, h: Habit, d: int): HabitScore
  {
    var raw := if (h.id, d) in t.entries then RawScore(h, t.entries[(h.id, d)]) else 0.0;
    var m := MomentumFor(t.entries, t.habitScores, h, d);
    HabitScore(raw, m, raw * m, Some(CompletionRate(t.entries, h.id, d)))
  }

  /** A raw score in [0, 1.5] times a multiplier in [0.1, 3.0] lies in [0, 4.5]. */
  lemma ProductBounds(raw: real, m: real)
    requires 0.0 <= raw <= 1.5 && InBounds(m)
    ensures 0.0 <= raw * m <= 4.5
  {
    Series.MulMonotone(0.0, raw, m);
    assert 0.0 * m <= raw * m;
    Series.MulMonotone(raw, 1.5, m);
    assert raw * m <= 1.5 * m;
    assert 1.5 * m <= 4.5;
  }

  /** A habit score is raw times momentum; with a valid previous multiplier it lies in [0, 4.5]. */
  lemma HabitDayScoreBounds(t: Tables, h: Habit, d: int)
    requires ValidRates(h) && InBounds(PreviousMultiplier(t.habitScores, h.id, d))
    ensures var s := HabitDayScore(t, h, d);
      s.finalScore == s.rawScore * s.momentumMultiplier && InBounds(s.momentumMultiplier)
      && 0.0 <= s.finalScore <= 4.5
  {
    var s := HabitDayScore(t, h, d);
    ProductBounds(s.rawScore, s.momentumMultiplier);
  }

  datatype Totals = Totals(weightedScore: real, weight: real)

  /** Sum of final score times weight, and sum of weights, over the habits in order. */
  function WeightedTotals(t: Tables, hs: seq<Habit>, d: int): Totals
    decreases |hs|
  {
    if hs == [] then Totals(0.0, 0.0)
    else
      var h := hs[|hs| - 1];
      Accumulate(WeightedTotals(t, hs[..|hs| - 1], d), HabitDayScore(t, h, d).finalScore, h.weight)
  }

  /** One step of the accumulation loop. */
  function Accumulate(tot: Totals, score: real, weight: real): Totals {
    Totals(tot.weightedScore + score * weight, tot.weight + weight)
  }

  /** An average of scores in [0, 4.5] with non-negative weights stays in [0, 4.5] of the weight. */
  lemma AccumulateBounds(tot: Totals, score: real, weight: real)
    requires 0.0 <= tot.weight && 0.0 <= tot.weightedScore <= 4.5 * tot.weight
    requires 0.0 <= score <= 4.5 && 0.0 <= weight
    ensures var r := Accumulate(tot, score, weight); 0.0 <= r.weight && 0.0 <= r.weightedScore <= 4.5 * r.weight
  {
    Series.MulMonotone(0.0, score, weight);
    assert 0.0 * weight <= score * weight;
    Series.MulMonotone(score, 4.5, weight);
    assert score * weight <= 4.5 * weight;
  }

  /** The weighted average, 0.0 when the total weight is not positive. */
  function BaseScore(tot: Totals): real {
    if tot.weight > 0.0 then tot.weightedScore / tot.weight else 0.0
  }

  function PreviousCumulative(dailyScores: map<int, DailyScore>, d: int): real {
    if d - 1 in dailyScores then dailyScores[d - 1].cumulativeScore else 0.0
  }

  /** The DailyScore record calculate_daily_scores stores for day d. */
  function DailyScoreFor(t: Tables, d: int): DailyScore
  {
    DailyScoreOf(BaseScore(WeightedTotals(t, ActiveHabits(t.habits), d)), WhoopMultiplier(t.whoopData, d),
      PreviousCumulative(t.dailyScores, d))
  }

  /** A day's record from its base score, recovery multiplier and the previous cumulative score. */
  function DailyScoreOf(base: real, multiplier: real, previousCumulative: real): DailyScore
  {
    DailyScore(base, multiplier, base * multiplier, previousCumulative + base * multiplier)
  }

  /** The HabitScore upserts for day d of the given habits, later habits winning on a shared id. */
  function HabitScoreUpdates(t: Tables, hs: seq<Habit>, d: int): (u: map<DayKey, HabitScore>)
    ensures forall k :: k in u ==> k.1 == d
    ensures forall h :: h in hs ==> (h.id, d) in u
    decreases |hs|
  {
    if hs == [] then map[]
    else
      var h := hs[|hs| - 1];
      var init := hs[..|hs| - 1];
      assert forall g :: g in hs ==> g in init || g == h;
      HabitScoreUpdates(t, init, d)[(h.id, d) := HabitDayScore(t, h, d)]
  }

  /** Every upserted record is the day score of some habit with the key's id. */
  lemma {:induction false} UpdateSource(t: Tables, hs: seq<Habit>, d: int, k: DayKey) returns (h: Habit)
    requires k in HabitScoreUpdates(t, hs, d)
    ensures h in hs && h.id == k.0 && HabitScoreUpdates(t, hs, d)[k] == HabitDayScore(t, h, d)
    decreases |hs|
  {
    var last := hs[|hs| - 1];
    var init := hs[..|hs| - 1];
    if k == (last.id, d) {
      h := last;
    } else {
      h := UpdateSource(t, init, d, k);
      assert forall g :: g in init ==> g in hs;
    }
  }

  /** With distinct ids, the record stored for each habit is that habit's own score. */
  lemma {:induction false} HabitScoreUpdatesAt(t: Tables, hs: seq<Habit>, d: int, h: Habit)
    requires UniqueIds(hs) && h in hs
    ensures HabitScoreUpdates(t, hs, d)[(h.id, d)] == HabitDayScore(t, h, d)
    decreases |hs|
  {
    var last := hs[|hs| - 1];
    var init := hs[..|hs| - 1];
    if h != last {
      assert h in init by {
        var k :| 0 <= k < |hs| && hs[k] == h;
        assert k != |hs| - 1;
        assert init[k] == h;
      }
      assert UniqueIds(init) by {
        forall i, j | 0 <= i < |init| && 0 <= j < |init| && init[i].id == init[j].id ensures i == j {
          assert hs[i].id == hs[j].id;
        }
      }
      assert h.id != last.id by {
        var k :| 0 <= k < |init| && init[k] == h;
        assert hs[k] == h;
      }
      HabitScoreUpdatesAt(t, init, d, h);
    }
  }

  /** The HabitScore upserts calculate_daily_scores makes for day d. */
  function DayUpdates(t: Tables, d: int): (u: map<DayKey, HabitScore>)
    ensures forall k :: k in u ==> k.1 == d
  {
    HabitScoreUpdates(t, ActiveHabits(t.habits), d)
  }

  /** Upsert the habit scores u and the daily score s for day d. */
  function Store(t: Tables, d: int, u: map<DayKey, HabitScore>, s: DailyScore): Tables
  {
    t.(habitScores := t.habitScores + u, dailyScores := t.dailyScores[d := s])
  }

  /** The records u and s for day d are already stored in t. */
  predicate Holds(t: Tables, d: int, u: map<DayKey, HabitScore>, s: DailyScore) {
    && (forall k :: k in u ==> k in t.habitScores && t.habitScores[k] == u[k])
    && d in t.dailyScores && t.dailyScores[d] == s
  }

  /** Upserting records changes nothing exactly when they are already stored. */
  lemma StoreUnchanged(t: Tables, d: int, u: map<DayKey, HabitScore>, s: DailyScore)
    ensures Store(t, d, u, s) == t <==> Holds(t, d, u, s)
  {
    if Holds(t, d, u, s) {
      assert t.habitScores + u == t.habitScores;
      assert t.dailyScores[d := s] == t.dailyScores;
    }
  }

  /** Upserting records of day j keeps the stored records of any other day d. */
  lemma StoreKeepsOtherDay(t: Tables, j: int, uj: map<DayKey, HabitScore>, sj: DailyScore,
                           d: int, u: map<DayKey, HabitScore>, s: DailyScore)
    requires j != d && (forall k :: k in uj ==> k.1 == j) && (forall k :: k in u ==> k.1 == d)
    requires Holds(t, d, u, s)
    ensures Holds(Store(t, j, uj, sj), d, u, s)
  {
    var t' := Store(t, j, uj, sj);
    forall k | k in u ensures k in t'.habitScores && t'.habitScores[k] == u[k] {
      assert k !in uj;
    }
  }

  /** calculate_daily_scores as a function of the whole database. */
  function DailyRecompute(t: Tables, d: int): Tables
  {
    Store(t, d, DayUpdates(t, d), DailyScoreFor(t, d))
  }

  /** The aggregation for day d writes day-d records only, and one for each active habit. */
  lemma DailyRecomputeFrame(t: Tables, d: int)
    ensures var t' := DailyRecompute(t, d);
      && t'.habits == t.habits && t'.entries == t.entries && t'.whoopData == t.whoopData
      && (forall k: DayKey :: k.1 != d ==> (k in t'.habitScores <==> k in t.habitScores))
      && (forall k: DayKey :: k.1 != d && k in t.habitScores ==> t'.habitScores[k] == t.habitScores[k])
      && (forall h :: h in ActiveHabits(t.habits) ==> (h.id, d) in t'.habitScores)
      && (forall day :: day != d ==> (day in t'.dailyScores <==> day in t.dailyScores))
      && (forall day :: day != d && day in t.dailyScores ==> t'.dailyScores[day] == t.dailyScores[day])
      && d in t'.dailyScores && t'.dailyScores[d] == DailyScoreFor(t, d)
  {
  }

  /** Each active habit's record for d is its own day score (habit ids being unique). */
  lemma DailyRecomputeStoresHabitScores(t: Tables, d: int, h: Habit)
    requires UniqueIds(t.habits) && h in t.habits && h.isActive
    ensures (h.id, d) in DailyRecompute(t, d).habitScores
    ensures DailyRecompute(t, d).habitScores[(h.id, d)] == HabitDayScore(t, h, d)
  {
    ActiveHabitsUnique(t.habits);
    HabitScoreUpdatesAt(t, ActiveHabits(t.habits), d, h);
  }

  /** The inputs that a recomputation of day d reads agree in t1 and t2. */
  ghost predicate SameInputs(t1: Tables, t2: Tables, d: int) {
    && t1.habits == t2.habits && t1.entries == t2.entries && t1.whoopData == t2.whoopData
    && (forall id :: PreviousMultiplier(t1.habitScores, id, d) == PreviousMultiplier(t2.habitScores, id, d))
    && PreviousCumulative(t1.dailyScores, d) == PreviousCumulative(t2.dailyScores, d)
  }

  lemma DayScoreAgrees(t1: Tables, t2: Tables, h: Habit, d: int)
    requires t1.entries == t2.entries
    requires PreviousMultiplier(t1.habitScores, h.id, d) == PreviousMultiplier(t2.habitScores, h.id, d)
    ensures HabitDayScore(t1, h, d) == HabitDayScore(t2, h, d)
  {
  }

  lemma {:induction false} UpdatesAgree(t1: Tables, t2: Tables, hs: seq<Habit>, d: int)
    requires SameInputs(t1, t2, d)
    ensures HabitScoreUpdates(t1, hs, d) == HabitScoreUpdates(t2, hs, d)
    decreases |hs|
  {
    if hs != [] {
      var h := hs[|hs| - 1];
      UpdatesAgree(t1, t2, hs[..|hs| - 1], d);
      DayScoreAgrees(t1, t2, h, d);
    }
  }

  lemma {:induction false} TotalsAgree(t1: Tables, t2: Tables, hs: seq<Habit>, d: int)
    requires SameInputs(t1, t2, d)
    ensures WeightedTotals(t1, hs, d) == WeightedTotals(t2, hs, d)
    decreases |hs|
  {
    if hs != [] {
      var h := hs[|hs| - 1];
      TotalsAgree(t1, t2, hs[..|hs| - 1], d);
      DayScoreAgrees(t1, t2, h, d);
    }
  }

  /** A recomputation reads only the previous day's records and the day's inputs. */
  lemma RecomputeAgrees(t1: Tables, t2: Tables, d: int)
    requires SameInputs(t1, t2, d)
    ensures DayUpdates(t1, d) == DayUpdates(t2, d)
    ensures DailyScoreFor(t1, d) == DailyScoreFor(t2, d)
  {
    UpdatesAgree(t1, t2, ActiveHabits(t1.habits), d);
    TotalsAgree(t1, t2, ActiveHabits(t1.habits), d);
  }

  /** Recomputing day j leaves every input of day d alone unless j is the day before d. */
  lemma RecomputeKeepsInputs(t: Tables, j: int, d: int)
    requires j != d - 1
    ensures SameInputs(t, DailyRecompute(t, j), d)
  {
    var t' := DailyRecompute(t, j);
    var u := DayUpdates(t, j);
    assert t'.habitScores == t.habitScores + u;
    forall id ensures PreviousMultiplier(t.habitScores, id, d) == PreviousMultiplier(t'.habitScores, id, d) {
      assert (id, d - 1) !in u;
    }
  }

  /** Day d is up to date: recomputing it would store exactly what is stored. */
  predicate UpToDate(t: Tables, d: int) {
    DailyRecompute(t, d) == t
  }

  /** Running the aggregation twice for a day stores the same records as running it once. */
  lemma DailyRecomputeIdempotent(t: Tables, d: int)
    ensures DailyRecompute(DailyRecompute(t, d), d) == DailyRecompute(t, d)
    ensures UpToDate(DailyRecompute(t, d), d)
  {
    var u, s := DayUpdates(t, d), DailyScoreFor(t, d);
    var t1 := Store(t, d, u, s);
    RecomputeKeepsInputs(t, d, d);
    RecomputeAgrees(t, t1, d);
    assert Holds(t1, d, u, s);
    StoreUnchanged(t1, d, u, s);
  }

  /** An up-to-date day stays up to date when any day other than the one before it is recomputed. */
  lemma UpToDatePreserved(t: Tables, d: int, j: int)
    requires UpToDate(t, d) && j != d - 1
    ensures UpToDate(DailyRecompute(t, j), d)
  {
    if j == d {
      DailyRecomputeIdempotent(t, d);
    } else {
      var u, s := DayUpdates(t, d), DailyScoreFor(t, d);
      var t' := DailyRecompute(t, j);
      StoreUnchanged(t, d, u, s);
      StoreKeepsOtherDay(t, j, DayUpdates(t, j), DailyScoreFor(t, j), d, u, s);
      RecomputeKeepsInputs(t, j, d);
      RecomputeAgrees(t, t', d);
      StoreUnchanged(t', d, u, s);
    }
  }

  /** Every stored multiplier lies in [0.1, 3.0]. */
  predicate MultipliersInBounds(hs: map<DayKey, HabitScore>) {
    forall k :: k in hs ==> InBounds(hs[k].momentumMultiplier)
  }

  /** Every active habit compounds and decays sensibly and has a non-negative weight. */
  predicate ActiveHabitsWellFormed(habits: seq<Habit>) {
    forall h :: h in habits && h.isActive ==> ValidRates(h) && h.weight >= 0.0
  }

  /** The aggregation keeps every stored multiplier in [0.1, 3.0]. */
  lemma DailyRecomputeKeepsBounds(t: Tables, d: int)
    requires MultipliersInBounds(t.habitScores) && ActiveHabitsWellFormed(t.habits)
    ensures MultipliersInBounds(DailyRecompute(t, d).habitScores)
  {
    var active := ActiveHabits(t.habits);
    var u := HabitScoreUpdates(t, active, d);
    forall k | k in u ensures InBounds(u[k].momentumMultiplier) {
      var h := UpdateSource(t, active, d, k);
      assert InBounds(PreviousMultiplier(t.habitScores, h.id, d));
    }
  }

  lemma {:induction false} WeightedTotalsBounds(t: Tables, hs: seq<Habit>, d: int)
    requires forall h :: h in hs ==> h.weight >= 0.0 && 0.0 <= HabitDayScore(t, h, d).finalScore <= 4.5
    ensures 0.0 <= WeightedTotals(t, hs, d).weight
    ensures 0.0 <= WeightedTotals(t, hs, d).weightedScore <= 4.5 * WeightedTotals(t, hs, d).weight
    decreases |hs|
  {
    if hs != [] {
      var h := hs[|hs| - 1];
      var init := hs[..|hs| - 1];
      assert forall g :: g in init ==> g in hs;
      WeightedTotalsBounds(t, init, d);
      assert h in hs;
      AccumulateBounds(WeightedTotals(t, init, d), HabitDayScore(t, h, d).finalScore, h.weight);
    }
  }

  /** A base score in [0, 4.5] scaled by a recovery multiplier gives a non-negative final score of at most 9. */
  lemma DailyScoreOfBounds(base: real, m: real, previousCumulative: real)
    requires 0.0 <= base <= 4.5 && 0.5 <= m <= 2.0
    ensures 0.0 <= DailyScoreOf(base, m, previousCumulative).finalScore <= 9.0
    ensures DailyScoreOf(base, m, previousCumulative).cumulativeScore >= previousCumulative
  {
    Series.MulMonotone(0.0, base, m);
    assert 0.0 * m <= base * m;
    Series.MulMonotone(base, 4.5, m);
    assert base * m <= 4.5 * m;
    assert 4.5 * m <= 9.0;
  }

  /** With well-formed habits and stored multipliers, the weighted average lies in [0, 4.5]. */
  lemma BaseScoreBounds(t: Tables, d: int)
    requires MultipliersInBounds(t.habitScores) && ActiveHabitsWellFormed(t.habits)
    ensures 0.0 <= BaseScore(WeightedTotals(t, ActiveHabits(t.habits), d)) <= 4.5
  {
    var active := ActiveHabits(t.habits);
    ActiveScoresBounded(t, d);
    WeightedTotalsBounds(t, active, d);
    AverageBounds(WeightedTotals(t, active, d));
  }

  /** A weighted sum of scores in [0, 4.5] divided by its weight lies in [0, 4.5]. */
  lemma AverageBounds(tot: Totals)
    requires 0.0 <= tot.weight && 0.0 <= tot.weightedScore <= 4.5 * tot.weight
    ensures 0.0 <= BaseScore(tot) <= 4.5
  {
    if tot.weight > 0.0 {
      Series.DivBounds(tot.weightedScore, tot.weight, 0.0, 4.5);
    }
  }

  /** Every active habit's score for the day lies in [0, 4.5] and its weight is non-negative. */
  lemma ActiveScoresBounded(t: Tables, d: int)
    requires MultipliersInBounds(t.habitScores) && ActiveHabitsWellFormed(t.habits)
    ensures forall h :: h in ActiveHabits(t.habits) ==>
      h.weight >= 0.0 && 0.0 <= HabitDayScore(t, h, d).finalScore <= 4.5
  {
    forall h | h in ActiveHabits(t.habits) ensures h.weight >= 0.0 && 0.0 <= HabitDayScore(t, h, d).finalScore <= 4.5 {
      assert InBounds(PreviousMultiplier(t.habitScores, h.id, d));
      HabitDayScoreBounds(t, h, d);
    }
  }

  /** With well-formed habits and stored multipliers, a day's final score lies in [0, 9] and the cumulative score never falls. */
  lemma DailyScoreBounds(t: Tables, d: int)
    requires MultipliersInBounds(t.habitScores) && ActiveHabitsWellFormed(t.habits)
    ensures 0.0 <= DailyScoreFor(t, d).baseScore <= 4.5
    ensures 0.0 <= DailyScoreFor(t, d).finalScore <= 9.0
    ensures DailyScoreFor(t, d).cumulativeScore >= PreviousCumulative(t.dailyScores, d)
  {
    var base := BaseScore(WeightedTotals(t, ActiveHabits(t.habits), d));
    BaseScoreBounds(t, d);
    DailyScoreOfBounds(base, WhoopMultiplier(t.whoopData, d), PreviousCumulative(t.dailyScores, d));
  }

  /** The body of the habit loop of calculate_daily_scores: score one habit and upsert its record. */
  method UpsertHabitScore(db: Db, habit: Habit, d: int) returns (finalHabitScore: real)
    modifies db
    ensures db.habits == old(db.habits) && db.entries == old(db.entries)
    ensures db.dailyScores == old(db.dailyScores) && db.whoopData == old(db.whoopData)
    ensures db.habitScores == old(db.habitScores)[(habit.id, d) := HabitDayScore(old(db.Snapshot()), habit, d)]
    ensures finalHabitScore == HabitDayScore(old(db.Snapshot()), habit, d).finalScore
  {
    var rawScore := if (habit.id, d) in db.entries then RawScore(habit, db.entries[(habit.id, d)]) else 0.0;
    var momentumMultiplier := CalculateMomentum(db, habit, d);
    finalHabitScore := rawScore * momentumMultiplier;
    var weeklyRate := GetWeeklyCompletionRate(db, habit.id, d);
    var key := (habit.id, d);
    if key in db.habitScores {
      var existing := db.habitScores[key];
      db.habitScores := db.habitScores[key := existing.(
        rawScore := rawScore,
        momentumMultiplier := momentumMultiplier,
        finalScore := finalHabitScore,
        weeklyCompletionRate := Some(weeklyRate))];
    } else {
      db.habitScores := db.habitScores[key := HabitScore(rawScore, momentumMultiplier, finalHabitScore, Some(weeklyRate))];
    }
  }

  /** Upserting the next habit's record extends the upserts made so far by one. */
  lemma UpsertStep(t0: Tables, habits: seq<Habit>, i: nat, d: int, current: map<DayKey, HabitScore>)
    requires i < |habits|
    requires current == t0.habitScores + HabitScoreUpdates(t0, habits[..i], d)
    ensures current[(habits[i].id, d) := HabitDayScore(t0, habits[i], d)]
      == t0.habitScores + HabitScoreUpdates(t0, habits[..i + 1], d)
  {
    var k := (habits[i].id, d);
    assert habits[..i + 1][..i] == habits[..i];
    assert HabitScoreUpdates(t0, habits[..i + 1], d)
      == HabitScoreUpdates(t0, habits[..i], d)[k := HabitDayScore(t0, habits[i], d)];
    MergeThenUpdate(t0.habitScores, HabitScoreUpdates(t0, habits[..i], d), k, HabitDayScore(t0, habits[i], d));
  }

  /** Updating a merged map is merging with the updated right-hand side. */
  lemma MergeThenUpdate<K, V>(a: map<K, V>, b: map<K, V>, k: K, v: V)
    ensures (a + b)[k := v] == a + b[k := v]
  {
  }

  /** Scoring a habit mid-loop sees the same inputs as at the start: the loop writes day-d records only. */
  lemma LoopSeesStartState(t0: Tables, t: Tables, habits: seq<Habit>, i: nat, d: int, h: Habit)
    requires i <= |habits| && t.entries == t0.entries
    requires t.habitScores == t0.habitScores + HabitScoreUpdates(t0, habits[..i], d)
    ensures HabitDayScore(t, h, d) == HabitDayScore(t0, h, d)
  {
    assert (h.id, d - 1) !in HabitScoreUpdates(t0, habits[..i], d);
    DayScoreAgrees(t, t0, h, d);
  }

  /** calculate_daily_scores: upsert one HabitScore per active habit and the day's DailyScore. */
  method CalculateDailyScores(db: Db, d: int) returns (finalScore: real)
    modifies db
    ensures db.Snapshot() == DailyRecompute(old(db.Snapshot()), d)
    ensures finalScore == DailyScoreFor(old(db.Snapshot()), d).finalScore
  {
    ghost var t0 := db.Snapshot();
    var habits := ActiveHabits(db.habits);
    var totalWeightedScore, totalWeight := 0.0, 0.0;
    var i := 0;
    while i < |habits|
      invariant 0 <= i <= |habits|
      invariant db.habits == t0.habits && db.entries == t0.entries
      invariant db.dailyScores == t0.dailyScores && db.whoopData == t0.whoopData
      invariant db.habitScores == t0.habitScores + HabitScoreUpdates(t0, habits[..i], d)
      invariant Totals(totalWeightedScore, totalWeight) == WeightedTotals(t0, habits[..i], d)
    {
      var habit := habits[i];
      ghost var t := db.Snapshot();
      LoopSeesStartState(t0, t, habits, i, d, habit);
      UpsertStep(t0, habits, i, d, db.habitScores);
      TotalsStep(t0, habits, i, d);
      var finalHabitScore := UpsertHabitScore(db, habit, d);
      assert finalHabitScore == HabitDayScore(t0, habit, d).finalScore;
      var totals := Accumulate(Totals(totalWeightedScore, totalWeight), finalHabitScore, habit.weight);
      totalWeightedScore, totalWeight := totals.weightedScore, totals.weight;
      i := i + 1;
    }
    assert habits[..i] == habits;
    var baseScore := if totalWeight > 0.0 then totalWeightedScore / totalWeight else 0.0;
    assert baseScore == BaseScore(WeightedTotals(t0, ActiveHabits(t0.habits), d));
    assert db.habitScores == t0.habitScores + DayUpdates(t0, d);
    finalScore := UpsertDailyScore(db, d, baseScore);
    assert db.dailyScores == t0.dailyScores[d := DailyScoreFor(t0, d)];
    RecomputedTables(t0, db.Snapshot(), d);
  }

  /** Tables holding the day's upserts and nothing else new are the recomputed tables. */
  lemma RecomputedTables(t0: Tables, t: Tables, d: int)
    requires t.habits == t0.habits && t.entries == t0.entries && t.whoopData == t0.whoopData
    requires t.habitScores == t0.habitScores + DayUpdates(t0, d)
    requires t.dailyScores == t0.dailyScores[d := DailyScoreFor(t0, d)]
    ensures t == DailyRecompute(t0, d)
  {
  }

  /** One more habit adds its weighted final score and its weight to the running totals. */
  lemma TotalsStep(t0: Tables, habits: seq<Habit>, i: nat, d: int)
    requires i < |habits|
    ensures WeightedTotals(t0, habits[..i + 1], d)
      == Accumulate(WeightedTotals(t0, habits[..i], d), HabitDayScore(t0, habits[i], d).finalScore, habits[i].weight)
  {
    assert habits[..i + 1][..i] == habits[..i];
  }

  /** The tail of calculate_daily_scores: apply the recovery multiplier, accumulate, upsert the day's record. */
  method UpsertDailyScore(db: Db, d: int, baseScore: real) returns (finalScore: real)
    modifies db
    ensures db.habits == old(db.habits) && db.entries == old(db.entries)
    ensures db.habitScores == old(db.habitScores) && db.whoopData == old(db.whoopData)
    ensures db.dailyScores == old(db.dailyScores)[d := DailyScoreOf(baseScore,
      WhoopMultiplier(old(db.whoopData), d), PreviousCumulative(old(db.dailyScores), d))]
    ensures finalScore == db.dailyScores[d].finalScore
  {
    var whoopMultiplier := WhoopMultiplier(db.whoopData, d);
    finalScore := baseScore * whoopMultiplier;
    var previousCumulative := if d - 1 in db.dailyScores then db.dailyScores[d - 1].cumulativeScore else 0.0;
    var cumulativeScore := previousCumulative + finalScore;
    var record := DailyScoreOf(baseScore, whoopMultiplier, previousCumulative);
    if d in db.dailyScores {
      var existing := db.dailyScores[d];
      var updated := existing.(
        baseScore := baseScore,
        whoopMultiplier := whoopMultiplier,
        finalScore := finalScore,
        cumulativeScore := cumulativeScore);
      assert updated == record;
      db.dailyScores := db.dailyScores[d := updated];
    } else {
      db.dailyScores := db.dailyScores[d := DailyScore(baseScore, whoopMultiplier, finalScore, cumulativeScore)];
    }
  }

  /**
   * The first entry of a default habit (goal 30, stretch 60) with value 45 and no history:
   * raw score 1.0, but the 7-day rate is 1/7, which is a fail, so the momentum is 0.9^3.
   */
  lemma FirstEntryScenario(d: int)
    ensures HabitDayScore(FirstEntryTables(d), ReadingHabit(), d) == HabitScore(1.0, 0.729, 0.729, Some(1.0 / 7.0))
    ensures DailyScoreFor(FirstEntryTables(d), d) == DailyScore(0.729, 1.0, 0.729, 0.729)
  {
    FirstEntryHabitScore(d);
    FirstEntryDayShape(d);
    FirstEntryTotals(d);
    FirstEntryArithmetic();
  }

  /** With one active habit, no recovery data and no earlier day, the day's record depends on the totals only. */
  lemma FirstEntryDayShape(d: int)
    ensures DailyScoreFor(FirstEntryTables(d), d)
      == DailyScoreOf(BaseScore(WeightedTotals(FirstEntryTables(d), [ReadingHabit()], d)), 1.0, 0.0)
  {
    var t := FirstEntryTables(d);
    assert ActiveHabits(t.habits) == [ReadingHabit()];
  }

  /** The totals of the first-entry day: one habit of weight 1 scoring 0.729. */
  lemma FirstEntryTotals(d: int)
    ensures WeightedTotals(FirstEntryTables(d), [ReadingHabit()], d) == Accumulate(Totals(0.0, 0.0), 0.729, 1.0)
  {
    FirstEntryHabitScore(d);
    WeightedTotalsSingle(FirstEntryTables(d), ReadingHabit(), d, 0.729);
  }

  /** The habit-level half of the first-entry scenario. */
  lemma FirstEntryHabitScore(d: int)
    ensures HabitDayScore(FirstEntryTables(d), ReadingHabit(), d) == HabitScore(1.0, 0.729, 0.729, Some(1.0 / 7.0))
  {
    var h := ReadingHabit();
    var t := FirstEntryTables(d);
    FirstEntryRate(d);
    FirstEntryMomentum(h, t.entries, d);
    assert RawScore(h, 45.0) == 1.0;
  }

  /** The day-level arithmetic of the first-entry scenario, out of the way of the store reasoning. */
  lemma FirstEntryArithmetic()
    ensures DailyScoreOf(BaseScore(Accumulate(Totals(0.0, 0.0), 0.729, 1.0)), 1.0, 0.0) == DailyScore(0.729, 1.0, 0.729, 0.729)
  {
  }

  /** With a single habit, the totals are that habit's weighted final score and its weight. */
  lemma WeightedTotalsSingle(t: Tables, h: Habit, d: int, score: real)
    requires HabitDayScore(t, h, d).finalScore == score
    ensures WeightedTotals(t, [h], d) == Accumulate(Totals(0.0, 0.0), score, h.weight)
  {
    assert [h][..0] == [];
  }

  /** A default duration habit "reading" with goal 30 and stretch 60. */
  function ReadingHabit(): Habit {
    DefaultHabit(1, "reading", "duration", 30.0, 60.0)
  }

  /** A store holding only that habit and one entry of 45 on day d. */
  function FirstEntryTables(d: int): Tables {
    Tables([ReadingHabit()], map[(1, d) := 45.0], map[], map[], map[])
  }

  /** A single entry gives a 7-day completion rate of 1/7. */
  lemma FirstEntryRate(d: int)
    ensures CompletionRate(map[(1, d) := 45.0], 1, d) == 1.0 / 7.0
  {
    var days := CompletedDays(map[(1, d) := 45.0], 1, d);
    forall x ensures x in days <==> x == d {
      assert Completed(map[(1, d) := 45.0], 1, x) <==> x == d;
    }
    assert days == {d};
  }

  /** A rate of 1/7 against a target of 5 days with 2 forgiven is a fail: three decays of 0.9 from 1.0. */
  lemma FirstEntryMomentum(h: Habit, entries: map<DayKey, real>, d: int)
    requires h == ReadingHabit()
    requires CompletionRate(entries, 1, d) == 1.0 / 7.0
    ensures MomentumFor(entries, map[], h, d) == 0.729
  {
    assert WeeklyTier(entries, h, d) == Fail;
    assert Decayed(1.0, 0.9, 3) == 0.729;
  }
}
