# Upward scoring core in Dafny

Upward is a habit tracker. A user logs one value per habit per day. The backend turns those
values into scores:

- a **raw score** per habit per day, from the habit's thresholds (0.0, 0.3, 1.0 or 1.5);
- a **momentum multiplier** per habit per day, between 0.1 and 3.0. It compounds or decays
  yesterday's multiplier according to the tier of the last 7 days' completion rate;
- a **daily score**: the weighted average of the habit scores, scaled by a **recovery
  multiplier** (0.5 to 2.0) taken from the day's WHOOP sleep, HRV and recovery readings. A
  running cumulative score is carried from the day before.

The model covers these modules:

- the scoring pipeline (`backend/app/core/scoring.py`, module `Scoring`);
- the momentum report (`backend/app/core/momentum.py`, module `Momentum`);
- the recovery-data sync and status handlers (`backend/app/api/whoop.py`, module `Whoop`);
- the score listing, recalculation, summary and trend handlers (`backend/app/api/scores.py`,
  module `Scores`);
- the habit and entry handlers (`backend/app/api/habits.py`, module `Habits`).

`Models` holds the records and table queries. `Series` holds sums, means, runs and
argmax/argmin over sequences of reals.

How the database is modelled:

- The database is a class `Models.Db` with five fields: the habit table (`seq<Habit>`, in
  table order) and four maps.
  - `entries` is keyed by (habit id, day).
  - `habitScores` is keyed by (habit id, day).
  - `dailyScores` is keyed by day.
  - `whoopData` is keyed by day.
- `Db.Snapshot()` returns those five fields as a `Tables` value.
- Each handler that writes is a method with `modifies db`. Its `ensures` ties the new
  snapshot to a pure function of the old one. For example, `Scoring.CalculateDailyScores`
  leaves `DailyRecompute(old snapshot, d)`.
- The properties are proved about those functions: idempotence, frames, bounds, and the order
  in which days are recomputed.
- Days are integers (consecutive days differ by 1). Scores are reals.
- "Today" is a parameter.

### Behaviour worth noting

- **The first entry of a new habit gets momentum 0.729.** The tier comes from the 7-day
  completion rate. One entry gives 1/7, which is a "fail", so momentum decays three times:
  0.9³ = 0.729. `Scoring.FirstEntryScenario` states the records stored for that day.
- **An absent entry scores 0.0 directly, whatever the habit's direction.** An explicit value
  of 0 for an inverted habit goes through the thresholds, and can score 1.5.
- **A reading of 0 counts differently in the two recovery multipliers.**
  - The daily aggregation treats it as missing (Python truthiness) and uses 1.0.
  - The sync handler counts it as present.
  - `Whoop.ZeroReadingDisagreement` exhibits one such row.
- **HRV is averaged differently in the two multipliers.**
  - The daily aggregation averages the stored HRV in milliseconds with the two percentages.
  - The sync handler first converts HRV to a percentage of 50 ms, capped at 100.
  - Both are modelled as written.
- **A `days` value of 0 in the daily listing counts as not given** (Python truthiness).

## Model

| member | source | states |
|---|---|---|
| Models.DefaultHabit | backend/app/models/habit.py:6-26 | a created habit has weight 1.0, 5 target days, a non-zero threshold of 0, no zero threshold, compound rate 1.15, decay rate 0.9, 2 forgiveness days, is not inverted, and is active |
| Models.ActiveHabits | backend/app/api/habits.py:16-17 | the query for active habits returns exactly the active rows, in table order |
| Models.ActiveHabitsUnique | backend/app/models/habit.py:9 | filtering the habit table keeps the primary key unique |
| Models.HabitIndex | backend/app/api/habits.py:34-35 | the lookup by id finds the first row with that id; it finds nothing exactly when no row has the id |
| Models.Window | backend/app/api/scores.py:33-38 | a date-range query returns only stored rows dated in [lo, hi], strictly ascending by date |
| Models.WindowComplete | backend/app/api/scores.py:33-38 | every stored row dated in [lo, hi] is returned by the range query |
| Models.HabitWindow | backend/app/core/momentum.py:12-20 | the 14-day query returns only the habit's stored scores dated in the window, ascending |
| Models.HabitWindowComplete | backend/app/core/momentum.py:12-20 | every stored score of the habit dated in the window is returned |
| Models.RowsUpTo | backend/app/api/scores.py:136-137 | the streak query returns only stored rows dated on or before today, ordered by date |
| Models.RowsUpToComplete | backend/app/api/scores.py:136-137 | every stored row dated on or before today is returned |
| Models.RowsFrom | backend/app/api/scores.py:178-182 | the trends query returns only stored rows dated on or after the start date, ascending |
| Models.RowsFromComplete | backend/app/api/scores.py:178-182 | every stored row dated on or after the start date is returned |
| Models.MaxKey | backend/app/api/whoop.py:179-180 | the latest date is stored and no stored date is later |
| Models.Days | backend/app/api/whoop.py:193 | the window's dates are exactly the days of the range, and there are as many as the range is long |
| Series.MeanBounds | backend/app/api/scores.py:189-191 | an average lies between any lower and upper bound of the values averaged |
| Series.TrailingRun | backend/app/core/momentum.py:47-52 | the scan back from the end counts strictly positive values and stops at the first other one |
| Series.TrailingRunIsMaximal | backend/app/core/momentum.py:47-52 | no all-positive suffix is longer than the counted run |
| Series.TrailingRunIsExact | backend/app/core/momentum.py:47-52 | a positive suffix that is preceded by a non-positive value (or is everything) is the counted run |
| Series.LongestRunIsUpperBound | backend/app/api/scores.py:139-147 | no stretch of consecutive positive scores is longer than the longest streak |
| Series.LongestRunIsAttained | backend/app/api/scores.py:139-147 | some stretch of consecutive positive scores is exactly the longest streak long |
| Series.Reversed | backend/app/api/scores.py:136 | the date-descending order is the ascending order read backwards |
| Series.FirstMaxIndex | backend/app/api/scores.py:190-203 | max() picks a largest element, and the first of the tied ones |
| Series.FirstMinIndex | backend/app/api/scores.py:191-204 | min() picks a smallest element, and the first of the tied ones |
| Scoring.RawScore | backend/app/core/scoring.py:7-31 | the score is one of 0.0, 0.3, 1.0 or 1.5. A value of 0 for a normal habit scores 0. An inverted habit at or above its non-zero threshold scores 0 |
| Scoring.RawScoreMonotone | backend/app/core/scoring.py:21-31 | for a normal habit, a larger non-negative value never scores less |
| Scoring.RawScoreAntitone | backend/app/core/scoring.py:12-20 | for an inverted habit, a larger value never scores more |
| Scoring.CompletedDays | backend/app/core/scoring.py:38-50 | the counted days are exactly the days of the 7-day window ending on the date that have an entry with a positive value |
| Scoring.CompletionRate | backend/app/core/scoring.py:34-52 | the weekly completion rate lies in [0, 1] |
| Scoring.GetWeeklyCompletionRate | backend/app/core/scoring.py:34-52 | the loop returns the number of completed days divided by 7 |
| Scoring.PerformanceTier | backend/app/core/scoring.py:55-71 | for each tier, both directions of the condition under which the rate falls into it (exceed, meet, close within the forgiveness buffer, miss above 0.2, fail) |
| Scoring.Transition | backend/app/core/scoring.py:93-102 | meet keeps the multiplier; exceed caps it at 3.0; close, miss and fail floor it at 0.5, 0.3 and 0.1 |
| Scoring.DecayedShrinks | backend/app/core/scoring.py:98-102 | decaying a positive multiplier by a rate in (0, 1] any number of times keeps it positive and never grows it |
| Scoring.TransitionStaysInBounds | backend/app/core/scoring.py:93-102 | from a multiplier in [0.1, 3.0], every tier's rule stays in [0.1, 3.0] |
| Scoring.MomentumFor | backend/app/core/scoring.py:74-102 | with no score for the previous day the transition starts from 1.0; with sensible rates the result stays in [0.1, 3.0] |
| Scoring.CalculateMomentum | backend/app/core/scoring.py:74-102 | the method returns the momentum of the day's tier applied to yesterday's multiplier |
| Scoring.RecoveryClamp | backend/app/core/scoring.py:122 | the clamp lands in [0.5, 2.0], leaves values in range unchanged, and gives 1.0 exactly for 1.0 |
| Scoring.WhoopMultiplier | backend/app/core/scoring.py:105-122 | 1.0 when the day has no row or any reading is missing or zero; otherwise it lies in [0.5, 2.0] and is 1.0 exactly when the three readings sum to 210 |
| Scoring.HabitDayScoreBounds | backend/app/core/scoring.py:146-156 | a habit's final score is raw times momentum, with momentum in [0.1, 3.0] and the product in [0, 4.5] |
| Scoring.HabitScoreUpdates | backend/app/core/scoring.py:138-181 | the loop writes a record for every habit it visits, dated on the day, and no other |
| Scoring.UpdateSource | backend/app/core/scoring.py:159-181 | every upserted habit-score record is the day score of a habit with the key's id |
| Scoring.HabitScoreUpdatesAt | backend/app/core/scoring.py:159-181 | with unique ids, the record kept for each habit is its own day score |
| Scoring.DailyRecomputeFrame | backend/app/core/scoring.py:125-223 | the aggregation writes day-d records only: a habit score for each active habit and the day's record. Habits, entries, recovery rows and every other day are unchanged |
| Scoring.DailyRecomputeStoresHabitScores | backend/app/core/scoring.py:156-181 | each active habit's stored record for the day is its raw score, momentum, product and rate |
| Scoring.RecomputeAgrees | backend/app/core/scoring.py:138-199 | the day's records depend only on the habits, the entries, the day's recovery row and the previous day's records |
| Scoring.RecomputeKeepsInputs | backend/app/core/scoring.py:84-198 | recomputing day j changes none of day d's inputs unless j is the day before d |
| Scoring.DailyRecomputeIdempotent | backend/app/core/scoring.py:168-220 | the upserts make a second run for the same day store nothing new, so the day is up to date |
| Scoring.UpToDatePreserved | backend/app/core/scoring.py:84-198 | an up-to-date day stays up to date when any day but the one before it is recomputed |
| Scoring.DailyRecomputeKeepsBounds | backend/app/core/scoring.py:93-153 | when every active habit has sensible rates, every stored momentum multiplier stays in [0.1, 3.0] |
| Scoring.WeightedTotalsBounds | backend/app/core/scoring.py:183-185 | with non-negative weights and habit scores in [0, 4.5], the weighted total is at most 4.5 times the weight |
| Scoring.BaseScoreBounds | backend/app/core/scoring.py:187-188 | with well-formed habits and stored multipliers in [0.1, 3.0], the weighted average lies in [0, 4.5] |
| Scoring.DailyScoreBounds | backend/app/core/scoring.py:187-199 | the base score lies in [0, 4.5] and the final score in [0, 9]; the cumulative score never falls below the previous day's |
| Scoring.UpsertHabitScore | backend/app/core/scoring.py:144-181 | one loop step stores the habit's day score under (habit, day), changes nothing else, and returns its final score |
| Scoring.CalculateDailyScores | backend/app/core/scoring.py:125-223 | the method leaves exactly the recomputed tables and returns the stored final score |
| Scoring.UpsertDailyScore | backend/app/core/scoring.py:190-222 | the day's record is base times recovery multiplier, with the previous cumulative score plus the final score, and nothing else changes |
| Scoring.FirstEntryScenario | backend/app/core/scoring.py:34-199 | a default habit's first entry of 45 (goal 30, stretch 60) is stored with raw 1.0, momentum 0.729, final 0.729 and rate 1/7. The day's record is (0.729, 1.0, 0.729, 0.729) |
| Scoring.FirstEntryRate | backend/app/core/scoring.py:34-52 | a single positive entry gives a completion rate of 1/7 |
| Scoring.FirstEntryMomentum | backend/app/core/scoring.py:74-102 | a rate of 1/7 against 5 target days with 2 forgiven is a fail: three decays of 0.9 give 0.729 |
| Momentum.RecentScores | backend/app/core/momentum.py:12-20 | the window of a habit's scores holds at most 14 rows |
| Momentum.LastN | backend/app/core/momentum.py:34 | the slice [-7:] keeps the last seven elements, or all when there are fewer |
| Momentum.TrendOf | backend/app/core/momentum.py:36-44 | both directions of each label: growing above 1.05 times the first, decaying below 0.95 times, stable otherwise or with fewer than two multipliers |
| Momentum.StatusOf | backend/app/core/momentum.py:55-64 | never no_data; excellent exactly from 1.5, poor exactly below 0.6; a neutral multiplier of 1.0 is stable |
| Momentum.StatusBuckets | backend/app/core/momentum.py:55-64 | every bucket in both directions: excellent from 1.5, good from 1.2 below 1.5, stable from 0.9 below 1.2, declining from 0.6 below 0.9, poor below 0.6 |
| Momentum.StatusMonotone | backend/app/core/momentum.py:55-64 | a larger multiplier never lands in a worse status |
| Momentum.MomentumStatus | backend/app/core/momentum.py:7-71 | no_data with the default report exactly when the window is empty; otherwise the status matches the current multiplier; the streak is at most the window's size |
| Momentum.ReportOf | backend/app/core/momentum.py:22-71 | the same facts stated over the window's rows |
| Momentum.CurrentIsLatest | backend/app/core/momentum.py:30-31 | the current multiplier is that of the latest score in the window; no later day in the window has a score |
| Momentum.StreakMeaning | backend/app/core/momentum.py:47-52 | the streak counts the latest scores with a positive raw score, up to the first one that is not positive |
| Momentum.StreakOfReport | backend/app/core/momentum.py:47-52 | the same fact stated over the window's rows |
| Momentum.TrendUsesLastWeek | backend/app/core/momentum.py:34-44 | the trend compares only the first and last multipliers of the last seven scores |
| Momentum.GetMomentumStatus | backend/app/core/momentum.py:7-71 | the handler returns the report of the score table |
| Momentum.Summarise | backend/app/core/momentum.py:22-71 | once the rows are fetched, the method builds exactly the report on those rows |
| Momentum.CountStreak | backend/app/core/momentum.py:47-52 | the loop counts the trailing run of positive raw scores |
| Momentum.AllMomentum | backend/app/core/momentum.py:74-86 | the keys are exactly the names of the habits |
| Momentum.AllMomentumLastWins | backend/app/core/momentum.py:83-84 | a name maps to the report of the last habit with that name |
| Momentum.GetAllMomentumStatus | backend/app/core/momentum.py:74-86 | the result has one report per active habit name, keyed by the name |
| Whoop.ValidScores | backend/app/api/whoop.py:212-226 | one reading per present score, in the order sleep, HRV, recovery, with HRV rescaled to a percentage |
| Whoop.HrvPercentage | backend/app/api/whoop.py:221 | the HRV percentage is hrv/50·100 below 50 ms, and exactly 100 from 50 ms on |
| Whoop.MultiplierFromScores | backend/app/api/whoop.py:206-237 | the multiplier lies in [0.5, 2.0]; with no reading it is 1.0 |
| Whoop.CalculateWhoopMultiplierFromScores | backend/app/api/whoop.py:206-237 | the method returns the clamped average-over-70 multiplier |
| Whoop.AverageOfSeventyIsNeutral | backend/app/api/whoop.py:228-237 | readings all equal to 70 give the multiplier 1.0 |
| Whoop.HrvCapped | backend/app/api/whoop.py:221 | any HRV of 50 ms or more gives the same multiplier |
| Whoop.ZeroReadingDisagreement | backend/app/api/whoop.py:214-231 | readings 0, 50 ms and 100 give 200/210 in the sync, but 1.0 in the daily aggregation (scoring.py:113) |
| Whoop.FirstSleepScore | backend/app/api/whoop.py:67-77 | no sleep record starting on the day means no sleep score |
| Whoop.FirstSleepScoreIsFirst | backend/app/api/whoop.py:70-77 | the first sleep record starting on the day decides, whatever later records say |
| Whoop.FindSleepScore | backend/app/api/whoop.py:67-77 | the loop with break returns the first matching record's performance |
| Whoop.RowFor | backend/app/api/whoop.py:64-103 | the stored row keeps the recovery and HRV readings, takes the matched sleep score, and has a multiplier in [0.5, 2.0] |
| Whoop.SyncedDates | backend/app/api/whoop.py:56-105 | no more dates are reported than there are records |
| Whoop.SyncedDatesMembers | backend/app/api/whoop.py:56-105 | a date is reported exactly when some record carries it |
| Whoop.SyncUntouched | backend/app/api/whoop.py:84-103 | a date no record carries keeps its row, or stays absent |
| Whoop.SyncLastWins | backend/app/api/whoop.py:84-103 | a synced date holds the row of the last record with that date |
| Whoop.SyncIsMerge | backend/app/api/whoop.py:84-103 | syncing overwrites rows: the table merged with the rows synced into an empty table |
| Whoop.SyncIdempotent | backend/app/api/whoop.py:84-103 | syncing the same response twice leaves the table as after the first sync |
| Whoop.SyncWhoopData | backend/app/api/whoop.py:34-116 | 401 with no change when not connected; otherwise the reported dates and range are returned and the table is the synced table; no other table changes |
| Whoop.SyncRecord | backend/app/api/whoop.py:67-103 | one loop step upserts the record's row for its date and nothing else |
| Whoop.CoveredDates | backend/app/api/whoop.py:186-194 | the covered dates are exactly the dates of the window that have a row |
| Whoop.MissingDates | backend/app/api/whoop.py:193-195 | the missing dates lie in the window, have no row, and are strictly ascending |
| Whoop.MissingDatesComplete | backend/app/api/whoop.py:193-195 | every date of the window without a row is listed as missing |
| Whoop.CoveredPlusMissing | backend/app/api/whoop.py:193-195 | covered and missing dates together count every day of the window |
| Whoop.WhoopSyncStatus | backend/app/api/whoop.py:167-203 | the fixed report when not connected. Otherwise: a last sync exactly when there is a row, and then the latest date; the count of covered dates; the missing dates of the 30-day window |
| Whoop.CoverageMatchesMissing | backend/app/api/whoop.py:197-202 | coverage is the share of the 30 days not missing, between 0 and 100, and 100 exactly when nothing is missing |
| Scores.Finals | backend/app/api/scores.py:188 | one final score per row, in order |
| Scores.DailyRange | backend/app/api/scores.py:22-31 | a non-zero day count ends the range today and spans that many days; with nothing given it spans 30 days to today; a missing bound lies 30 days from the given one |
| Scores.GetDailyScores | backend/app/api/scores.py:14-39 | the listing returns only stored rows dated in the computed range, ascending |
| Scores.RecalculatedIsAscendingSubset | backend/app/api/scores.py:79-89 | the reported dates are exactly the days of the range that did not fail, ascending |
| Scores.TryRecalculate | backend/app/api/scores.py:83-87 | success exactly when the day does not fail; success recomputes the day; failure changes nothing |
| Scores.RecalculateScores | backend/app/api/scores.py:67-94 | over the range with its defaults filled in, it reports exactly the non-failing dates, and leaves the range recomputed day by day in ascending order |
| Scores.RecalculateRange | backend/app/api/scores.py:79-89 | the loop reports the non-failing dates and leaves the range recomputed day by day |
| Scores.RangeLeavesDaysUpToDate | backend/app/api/scores.py:79-89 | because the days go in ascending order, every non-failing day of the range is up to date afterwards |
| Scores.RangeKeepsOtherDays | backend/app/api/scores.py:79-89 | days outside the range keep their daily record |
| Scores.WeekAverageBounds | backend/app/api/scores.py:125-133 | a week average lies between the bounds of its scores, and is 0 for a week without rows |
| Scores.WeekOverWeek | backend/app/api/scores.py:155 | 0 when the previous average is not positive; otherwise positive, zero or negative exactly as the week rose, held or fell |
| Scores.SummaryOf | backend/app/api/scores.py:97-159 | current streak ≤ longest streak ≤ number of rows. The cumulative score is today's record's, else yesterday's, else 0 |
| Scores.LongestRunBounds | backend/app/api/scores.py:139-147 | the final run is one of the runs, and no run is longer than the rows |
| Scores.ScanStreaks | backend/app/api/scores.py:139-147 | the loop's current streak is the run at the end of the scanned sequence; its longest streak is the longest run |
| Scores.GetScoresSummary | backend/app/api/scores.py:97-159 | the handler returns the summary of the tables |
| Scores.CurrentStreakIsOldestRun | backend/app/api/scores.py:136-147 | the reported current streak is the run of positive final scores at the start of the history (the oldest records) |
| Scores.StreakCountsFromOldest | backend/app/api/scores.py:136-147 | when the oldest record scored nothing and the newest scored, the summary reports 0 although the latest records form a streak |
| Scores.StreakCountsFromOldestExample | backend/app/api/scores.py:136-147 | day 1 scoring 0 and day 2 scoring 1 give a current streak of 0 on day 2 |
| Scores.RecentStreak | backend/app/api/scores.py:139-147 | the corrected streak: the newest n records have a positive final score, and the one before them does not |
| Scores.MovingAveragesOf | backend/app/api/scores.py:194-200 | one average per row from the seventh on, dated by its last row: the mean of that row and the six before it |
| Scores.MovingAverageBounds | backend/app/api/scores.py:194-200 | each moving average lies between the minimum and the maximum score |
| Scores.MovingAverages | backend/app/api/scores.py:194-200 | the loop produces exactly those moving averages |
| Scores.ScoreTrends | backend/app/api/scores.py:173-227 | "no data" exactly when no row is dated from the start date on; otherwise min ≤ average ≤ max, and the best and worst days carry the max and min |
| Scores.BestAndWorstDays | backend/app/api/scores.py:203-204 | the best and worst days are stored rows with the max and min scores. Every row lies between them. No earlier row ties the best or the worst |
| Scores.GetScoreTrends | backend/app/api/scores.py:173-227 | the handler returns the trends of the daily table |
| Habits.ListHabits | backend/app/api/habits.py:13-18 | the list is exactly the active habits, in table order |
| Habits.SubmitEntry | backend/app/api/habits.py:67-100 | 404 exactly when no active habit has the id |
| Habits.SubmitEntryEffect | backend/app/api/habits.py:77-98 | an accepted entry sets its (habit, date) value and no other entry. Its date is then up to date. Every other day keeps its record |
| Habits.CreateHabitEntry | backend/app/api/habits.py:67-100 | 404 with nothing changed when no active habit has the id; otherwise it echoes the entry and leaves the submitted tables |
| Habits.BatchDatesMembers | backend/app/api/habits.py:145 | a date is recomputed exactly when some entry of the batch carries it |
| Habits.UpsertedLastWins | backend/app/api/habits.py:129-143 | a key holds the value of the last entry of the batch with that key |
| Habits.UpsertedKeepsOthers | backend/app/api/habits.py:129-143 | keys the batch does not name keep their values, or stay absent |
| Habits.RecomputeAllUpToDate | backend/app/api/habits.py:150-151 | a recomputed date is up to date at the end unless the day before it is recomputed after it |
| Habits.AscendingOrderLeavesUpToDate | backend/app/api/habits.py:150-151 | in ascending order, every recomputed date is up to date at the end |
| Habits.RecomputeAllKeepsOtherDays | backend/app/api/habits.py:150-151 | dates not in the batch keep their daily record |
| Habits.CreateHabitEntriesBatch | backend/app/api/habits.py:115-153 | 404 with nothing changed when any entry's habit is missing or inactive. Otherwise it returns the entry count, upserts all entries, and recomputes each batch date once in some order |
| Habits.RecalculateDates | backend/app/api/habits.py:150-151 | the loop over the set recomputes each date exactly once, in some order |
| Habits.Deactivated | backend/app/api/habits.py:54-60 | the soft delete changes no id, and no row with another id |
| Habits.DeactivateEffect | backend/app/api/habits.py:54-60 | with unique ids, the habit is no longer active, the other active habits stay active, and the row's other columns are kept |
| Habits.DeactivateHabit | backend/app/api/habits.py:51-64 | 404 exactly when no row has the id; the habit table becomes the soft-deleted table and nothing else changes |
| Habits.ApplyField | backend/app/api/habits.py:42-43 | setting one column keeps the id, the habit type and every other column |
| Habits.UntouchedFieldsKept | backend/app/api/habits.py:40-43 | a column no update names keeps its value |
| Habits.ProvidedFieldSet | backend/app/api/habits.py:40-43 | a provided column holds the value of the last update that names it |
| Habits.ApplyFieldCommutes | backend/app/api/habits.py:42-43 | setting two different columns gives the same row in either order |
| Habits.UpdateHabit | backend/app/api/habits.py:31-48 | 404 with nothing changed exactly when no row has the id. Otherwise the first such row gets the provided columns and is returned; nothing else changes |
| Habits.ApplyAllKeepsIdentity | backend/app/schemas/habit.py:21-33 | neither the id nor the habit type is updatable |
| Habits.UpdateKeepsIdsUnique | backend/app/api/habits.py:40-47 | a partial update keeps the habit ids unique |

## Left out

- `create_habit`, `get_habit_entries`, `get_habit_entries_by_id`, `get_habit_performance` and
  `get_all_habit_scores`: inserts and read-only queries with no logic beyond a filter. They are
  not part of this model.
- The WHOOP client, the OAuth token store and the remote API calls. They become inputs: a
  `connected` flag and the already-parsed recovery and sleep records. The HRV fetch is
  unused by the sync.
- A failure inside the sync becomes HTTP 500 after a rollback. The model has no network or
  parse failures, so it does not model that path.
- Parsing ISO timestamps into dates becomes an input: a record's date is given as an
  optional day number. For sleep records, `None` stands for an absent or empty start, which
  the code skips. For recovery records, `None` stands for an absent `created_at` key, which
  the code skips. An empty or null `created_at` makes the date parse raise, and the whole
  sync then ends in HTTP 500 without committing. The model does not capture that abort.
- `date.today()`, the clock and row timestamps (`created_at`) are inputs or left out.
- Floating-point rounding: scores are exact reals.
- Sessions, commits, rollbacks and flushes: each handler is one atomic update of the tables.
- The exceptions that `recalculate_scores` catches are modelled by the input set `failing`.
  A failing day leaves the tables as they were. Any partial writes of a failing day and the
  printed message are not modelled.
- `Habits.RecalculateDates`: Python iterates the set of batch dates in an unspecified order.
  The model returns that order as a ghost value and proves properties for any order.
- `Habits.UpdateHabit`: a client that explicitly sends `null` for a non-optional column is not
  modelled. Each update carries a value of the column's type.
- The habit table's primary-key uniqueness is a precondition where it matters (`UniqueIds`).
  The model does not prove that it holds as an invariant of `create_habit`.
- `zero_threshold` is stored but never read by the scoring.
- Notifications, reminders, authentication routes, configuration, migration scripts and the
  frontend are not part of this model.

## Findings

| source | as written | input that shows it | evidently intended | confidence | as-written member | corrected member |
|---|---|---|---|---|---|---|
| backend/app/api/scores.py:136-147 | the streak loop scans the daily records newest first, resets `current_streak` on each non-positive score, and reports its value at the end, which is the run among the oldest records | daily final scores 0.0 on day 1 and 1.0 on day 2, summary on day 2: current streak 0 | the current streak is the run of positive final scores ending at the newest record (1 here) | not executed | Scores.StreakCountsFromOldest | Scores.RecentStreak |
