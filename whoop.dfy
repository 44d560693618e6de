/**
 * The recovery-data endpoints: the recovery multiplier computed from raw readings at sync
 * time, the sync loop that matches sleep records to recovery records and upserts one row
 * per date, and the sync-status report (last synced date, 30-day coverage, missing dates).
 */
module Whoop {
  import opened Models
  import Series
  import Scoring

  // ---------------------------------------------------------------------------
  // Multiplier from raw readings

  /** The readings that are present, HRV rescaled from milliseconds to a capped percentage. */
  function ValidScores(sleepScore: Option<real>, hrvScore: Option<real>, recoveryScore: Option<real>): (v: seq<real>)
    ensures |v| == (if sleepScore.Some? then 1 else 0) + (if hrvScore.Some? then 1 else 0)
      + (if recoveryScore.Some? then 1 else 0)
    ensures sleepScore.Some? ==> v[0] == sleepScore.value
    ensures hrvScore.Some? ==> v[if sleepScore.Some? then 1 else 0] == HrvPercentage(hrvScore.value)
    ensures recoveryScore.Some? ==> v[|v| - 1] == recoveryScore.value
  {
    (if sleepScore.Some? then [sleepScore.value] else [])
    + (if hrvScore.Some? then [HrvPercentage(hrvScore.value)] else [])
    + (if recoveryScore.Some? then [recoveryScore.value] else [])
  }

  /** HRV in milliseconds as a percentage of 50 ms, capped at 100. */
  function HrvPercentage(hrv: real): (p: real)
    ensures p <= 100.0
    ensures hrv >= 50.0 <==> p == 100.0
    ensures hrv < 50.0 ==> p == hrv * 2.0
  {
    Scoring.MinR(hrv / 50.0 * 100.0, 100.0)
  }

  /** calculate_whoop_multiplier_from_scores as a function of the three optional readings. */
  function MultiplierFromScores(sleepScore: Option<real>, hrvScore: Option<real>, recoveryScore: Option<real>): (m: real)
    ensures 0.5 <= m <= 2.0
    ensures sleepScore.None? && hrvScore.None? && recoveryScore.None? ==> m == 1.0
  {
    var valid := ValidScores(sleepScore, hrvScore, recoveryScore);
    if valid == [] then 1.0 else Scoring.RecoveryClamp(Series.Sum(valid) / |valid| as real / 70.0)
  }

  /** calculate_whoop_multiplier_from_scores: collect the present readings, average them, scale around 70. */
  method CalculateWhoopMultiplierFromScores(sleepScore: Option<real>, hrvScore: Option<real>, recoveryScore: Option<real>)
    returns (m: real)
    ensures m == MultiplierFromScores(sleepScore, hrvScore, recoveryScore)
  {
    var validScores: seq<real> := [];
    if sleepScore.Some? {
      validScores := validScores + [sleepScore.value];
    }
    if hrvScore.Some? {
      var hrvPercentage := Scoring.MinR(hrvScore.value / 50.0 * 100.0, 100.0);
      validScores := validScores + [hrvPercentage];
    }
    if recoveryScore.Some? {
      validScores := validScores + [recoveryScore.value];
    }
    assert validScores == ValidScores(sleepScore, hrvScore, recoveryScore);
    if validScores == [] {
      return 1.0;
    }
    var averageScore := Series.Sum(validScores) / |validScores| as real;
    var multiplier := averageScore / 70.0;
    m := Scoring.MaxR(0.5, Scoring.MinR(multiplier, 2.0));
  }

  /** An average reading of exactly 70 gives the neutral multiplier. */
  lemma AverageOfSeventyIsNeutral(sleepScore: Option<real>, hrvScore: Option<real>, recoveryScore: Option<real>)
    requires forall x :: x in ValidScores(sleepScore, hrvScore, recoveryScore) ==> x == 70.0
    ensures MultiplierFromScores(sleepScore, hrvScore, recoveryScore) == 1.0
  {
    var valid := ValidScores(sleepScore, hrvScore, recoveryScore);
    if valid != [] {
      forall i | 0 <= i < |valid| ensures 70.0 <= valid[i] <= 70.0 {
        assert valid[i] in valid;
      }
      Series.MeanBounds(valid, 70.0, 70.0);
      assert Series.Sum(valid) / |valid| as real == 70.0;
    }
  }

  /** Any HRV of 50 ms or more counts the same: the percentage is capped. */
  lemma HrvCapped(sleepScore: Option<real>, hrv1: real, hrv2: real, recoveryScore: Option<real>)
    requires 50.0 <= hrv1 && 50.0 <= hrv2
    ensures MultiplierFromScores(sleepScore, Some(hrv1), recoveryScore)
         == MultiplierFromScores(sleepScore, Some(hrv2), recoveryScore)
  {
    assert ValidScores(sleepScore, Some(hrv1), recoveryScore) == ValidScores(sleepScore, Some(hrv2), recoveryScore);
  }

  /**
   * A reading of 0 counts as present here but as missing in the scoring pipeline: with
   * sleep 0, HRV 50 ms and recovery 100 the sync stores about 0.95, while the daily
   * aggregation of that row uses 1.0.
   */
  lemma ZeroReadingDisagreement(d: int)
    ensures MultiplierFromScores(Some(0.0), Some(50.0), Some(100.0)) == 200.0 / 210.0
    ensures Scoring.WhoopMultiplier(map[d := WhoopData(Some(0.0), Some(50.0), Some(100.0), None)], d) == 1.0
  {
    var valid := ValidScores(Some(0.0), Some(50.0), Some(100.0));
    assert valid == [0.0, 100.0, 100.0];
    assert [0.0][..0] == [];
    assert Series.Sum([0.0]) == 0.0;
    assert [0.0, 100.0][..1] == [0.0];
    assert Series.Sum([0.0, 100.0]) == 100.0;
    assert valid[..2] == [0.0, 100.0];
    assert Series.Sum(valid) == 200.0;
  }

  // ---------------------------------------------------------------------------
  // Sync

  /** A recovery record of the remote API: the date of created_at (if any) and the two scores. */
  datatype RecoveryRecord = RecoveryRecord(createdAt: Option<int>, recoveryScore: Option<real>, hrvScore: Option<real>)

  /** A sleep record: the date of its start timestamp (None when absent or empty) and its performance. */
  datatype SleepRecord = SleepRecord(start: Option<int>, sleepPerformance: Option<real>)

  /** The outcome of a sync: the dates written, in processing order, and the requested range. */
  datatype SyncReport = SyncReport(syncedDates: seq<int>, startDate: int, endDate: int)

  /** The performance of the first sleep record that starts on the given day. */
  function FirstSleepScore(sleepRecords: seq<SleepRecord>, day: int): (s: Option<real>)
    ensures (forall i :: 0 <= i < |sleepRecords| ==> sleepRecords[i].start != Some(day)) ==> s == None
  {
    if sleepRecords == [] then None
    else if sleepRecords[0].start == Some(day) then sleepRecords[0].sleepPerformance
    else FirstSleepScore(sleepRecords[1..], day)
  }

  /** The first matching sleep record decides, whatever later records say. */
  lemma {:induction false} FirstSleepScoreIsFirst(sleepRecords: seq<SleepRecord>, day: int, i: nat)
    requires i < |sleepRecords| && sleepRecords[i].start == Some(day)
    requires forall j :: 0 <= j < i ==> sleepRecords[j].start != Some(day)
    ensures FirstSleepScore(sleepRecords, day) == sleepRecords[i].sleepPerformance
    decreases i
  {
    if i > 0 {
      FirstSleepScoreIsFirst(sleepRecords[1..], day, i - 1);
    }
  }

  /** The sleep score for a recovery record dated `day`: None when there is no sleep data. */
  function SleepScoreFor(sleepData: Option<seq<SleepRecord>>, day: int): Option<real> {
    if sleepData.None? then None else FirstSleepScore(sleepData.value, day)
  }

  /** The sleep-matching loop of sync_whoop_data: scan the sleep records, stop at the first on the day. */
  method FindSleepScore(sleepData: Option<seq<SleepRecord>>, recordDate: int) returns (sleepScore: Option<real>)
    ensures sleepScore == SleepScoreFor(sleepData, recordDate)
  {
    sleepScore := None;
    if sleepData.Some? {
      var records := sleepData.value;
      var i := 0;
      while i < |records|
        invariant 0 <= i <= |records|
        invariant FirstSleepScore(records, recordDate) == FirstSleepScore(records[i..], recordDate)
      {
        assert records[i..][1..] == records[i + 1..];
        if records[i].start.Some? && records[i].start.value == recordDate {
          sleepScore := records[i].sleepPerformance;
          break;
        }
        i := i + 1;
      }
    }
  }

  /** The row stored for a recovery record dated `day`. */
  function RowFor(rec: RecoveryRecord, sleepData: Option<seq<SleepRecord>>, day: int): (w: WhoopData)
    ensures w.hrvScore == rec.hrvScore && w.recoveryScore == rec.recoveryScore
    ensures w.sleepScore == SleepScoreFor(sleepData, day)
    ensures w.whoopMultiplier.Some? && 0.5 <= w.whoopMultiplier.value <= 2.0
  {
    var sleepScore := SleepScoreFor(sleepData, day);
    WhoopData(sleepScore, rec.hrvScore, rec.recoveryScore,
      Some(MultiplierFromScores(sleepScore, rec.hrvScore, rec.recoveryScore)))
  }

  /** The whoop table after upserting the records in order, skipping those without a date. */
  function SyncAll(whoop: map<int, WhoopData>, records: seq<RecoveryRecord>, sleepData: Option<seq<SleepRecord>>)
    : (r: map<int, WhoopData>)
    decreases |records|
  {
    if records == [] then whoop
    else
      var rec := records[|records| - 1];
      var before := SyncAll(whoop, records[..|records| - 1], sleepData);
      if rec.createdAt.None? then before
      else before[rec.createdAt.value := RowFor(rec, sleepData, rec.createdAt.value)]
  }

  /** The dates of the records that carry one, in order. */
  function SyncedDates(records: seq<RecoveryRecord>): (dates: seq<int>)
    ensures |dates| <= |records|
    decreases |records|
  {
    if records == [] then []
    else
      var rec := records[|records| - 1];
      var before := SyncedDates(records[..|records| - 1]);
      if rec.createdAt.None? then before else before + [rec.createdAt.value]
  }

  /** The synced dates are exactly the dates the records carry. */
  lemma {:induction false} SyncedDatesMembers(records: seq<RecoveryRecord>, day: int)
    ensures day in SyncedDates(records) <==> exists i :: 0 <= i < |records| && records[i].createdAt == Some(day)
    decreases |records|
  {
    if records != [] {
      var init := records[..|records| - 1];
      SyncedDatesMembers(init, day);
      assert forall i :: 0 <= i < |init| ==> init[i] == records[i];
    }
  }

  /** A date no record carries keeps its row, or stays absent. */
  lemma {:induction false} SyncUntouched(whoop: map<int, WhoopData>, records: seq<RecoveryRecord>,
                                         sleepData: Option<seq<SleepRecord>>, day: int)
    requires forall i :: 0 <= i < |records| ==> records[i].createdAt != Some(day)
    ensures day in SyncAll(whoop, records, sleepData) <==> day in whoop
    ensures day in whoop ==> SyncAll(whoop, records, sleepData)[day] == whoop[day]
    decreases |records|
  {
    if records != [] {
      var init := records[..|records| - 1];
      assert forall i :: 0 <= i < |init| ==> init[i] == records[i];
      SyncUntouched(whoop, init, sleepData, day);
    }
  }

  /** The row of a synced date is built from the last record of that date. */
  lemma {:induction false} SyncLastWins(whoop: map<int, WhoopData>, records: seq<RecoveryRecord>,
                                        sleepData: Option<seq<SleepRecord>>, i: nat, day: int)
    requires i < |records| && records[i].createdAt == Some(day)
    requires forall j :: i < j < |records| ==> records[j].createdAt != Some(day)
    ensures day in SyncAll(whoop, records, sleepData)
    ensures SyncAll(whoop, records, sleepData)[day] == RowFor(records[i], sleepData, day)
    decreases |records|
  {
    if i < |records| - 1 {
      var init := records[..|records| - 1];
      SyncLastWins(whoop, init, sleepData, i, day);
    }
  }

  /** A sync writes its rows over the table: the result is the table merged with the rows of an empty one. */
  lemma {:induction false} SyncIsMerge(whoop: map<int, WhoopData>, records: seq<RecoveryRecord>,
                                       sleepData: Option<seq<SleepRecord>>)
    ensures SyncAll(whoop, records, sleepData) == whoop + SyncAll(map[], records, sleepData)
    decreases |records|
  {
    if records != [] {
      SyncIsMerge(whoop, records[..|records| - 1], sleepData);
    }
  }

  /** Syncing the same data twice leaves the table as after the first sync. */
  lemma SyncIdempotent(whoop: map<int, WhoopData>, records: seq<RecoveryRecord>, sleepData: Option<seq<SleepRecord>>)
    ensures SyncAll(SyncAll(whoop, records, sleepData), records, sleepData) == SyncAll(whoop, records, sleepData)
  {
    var u := SyncAll(map[], records, sleepData);
    SyncIsMerge(whoop, records, sleepData);
    SyncIsMerge(whoop + u, records, sleepData);
    assert (whoop + u) + u == whoop + u;
  }

  /** The recovery records of the response, or none when it has no "records". */
  function RecordsOf(recoveryData: Option<seq<RecoveryRecord>>): seq<RecoveryRecord> {
    if recoveryData.None? then [] else recoveryData.value
  }

  /** sync_whoop_data: 401 without a token; otherwise upsert one row per dated recovery record. */
  method SyncWhoopData(db: Db, connected: bool, days: int, today: int,
                       recoveryData: Option<seq<RecoveryRecord>>, sleepData: Option<seq<SleepRecord>>)
    returns (r: Result<SyncReport>)
    modifies db
    ensures db.habits == old(db.habits) && db.entries == old(db.entries)
    ensures db.habitScores == old(db.habitScores) && db.dailyScores == old(db.dailyScores)
    ensures !connected ==> r == Err(Unauthorized) && db.whoopData == old(db.whoopData)
    ensures connected ==> r == Ok(SyncReport(SyncedDates(RecordsOf(recoveryData)), today - (days - 1), today))
    ensures connected ==> db.whoopData == SyncAll(old(db.whoopData), RecordsOf(recoveryData), sleepData)
  {
    if !connected {
      return Err(Unauthorized);
    }
    var endDate := today;
    var startDate := endDate - (days - 1);
    var records := RecordsOf(recoveryData);
    ghost var whoop0 := db.whoopData;
    var syncedDates: seq<int> := [];
    var i := 0;
    while i < |records|
      invariant 0 <= i <= |records|
      invariant db.habits == old(db.habits) && db.entries == old(db.entries)
      invariant db.habitScores == old(db.habitScores) && db.dailyScores == old(db.dailyScores)
      invariant db.whoopData == SyncAll(whoop0, records[..i], sleepData)
      invariant syncedDates == SyncedDates(records[..i])
    {
      var record := records[i];
      assert records[..i + 1][..i] == records[..i];
      if record.createdAt.None? {
        i := i + 1;
        continue;
      }
      var recordDate := record.createdAt.value;
      SyncStep(whoop0, records, i, sleepData);
      SyncRecord(db, record, recordDate, sleepData);
      syncedDates := syncedDates + [recordDate];
      i := i + 1;
    }
    assert records[..i] == records;
    r := Ok(SyncReport(syncedDates, startDate, endDate));
  }

  /** Processing one more dated record upserts its row over the rows so far. */
  lemma SyncStep(whoop: map<int, WhoopData>, records: seq<RecoveryRecord>, i: nat, sleepData: Option<seq<SleepRecord>>)
    requires i < |records| && records[i].createdAt.Some?
    ensures var day := records[i].createdAt.value;
      SyncAll(whoop, records[..i + 1], sleepData)
        == SyncAll(whoop, records[..i], sleepData)[day := RowFor(records[i], sleepData, day)]
  {
    assert records[..i + 1][..i] == records[..i];
  }

  /** The body of the sync loop for a dated record: match its sleep score, compute its multiplier, upsert its row. */
  method SyncRecord(db: Db, record: RecoveryRecord, recordDate: int, sleepData: Option<seq<SleepRecord>>)
    modifies db
    ensures db.habits == old(db.habits) && db.entries == old(db.entries)
    ensures db.habitScores == old(db.habitScores) && db.dailyScores == old(db.dailyScores)
    ensures db.whoopData == old(db.whoopData)[recordDate := RowFor(record, sleepData, recordDate)]
  {
    var sleepScore := FindSleepScore(sleepData, recordDate);
    var whoopMultiplier := CalculateWhoopMultiplierFromScores(sleepScore, record.hrvScore, record.recoveryScore);
    var row := WhoopData(sleepScore, record.hrvScore, record.recoveryScore, Some(whoopMultiplier));
    if recordDate in db.whoopData {
      var existing := db.whoopData[recordDate];
      var updated := existing.(
        sleepScore := sleepScore,
        hrvScore := record.hrvScore,
        recoveryScore := record.recoveryScore,
        whoopMultiplier := Some(whoopMultiplier));
      assert updated == row;
      db.whoopData := db.whoopData[recordDate := updated];
    } else {
      db.whoopData := db.whoopData[recordDate := row];
    }
  }

  // ---------------------------------------------------------------------------
  // Sync status

  /** The status report; totalRecords is absent when not connected. */
  datatype SyncStatus = SyncStatus(
    connected: bool,
    lastSync: Option<int>,
    dataCoverage: real,
    missingDates: seq<int>,
    totalRecords: Option<nat>)

  /** The dates of [lo, hi] that have a row. */
  function CoveredDates(whoop: map<int, WhoopData>, lo: int, hi: int): (c: set<int>)
    ensures forall day :: day in c <==> lo <= day <= hi && day in whoop
  {
    set day | day in whoop && lo <= day <= hi
  }

  /** The dates of [lo, hi] without a row, ascending (sorted(all_dates - covered_dates)). */
  function MissingDates(whoop: map<int, WhoopData>, lo: int, hi: int): (r: seq<int>)
    ensures forall i :: 0 <= i < |r| ==> lo <= r[i] <= hi && r[i] !in whoop
    ensures forall i, j :: 0 <= i < j < |r| ==> r[i] < r[j]
    decreases hi - lo
  {
    if hi < lo then []
    else
      var rest := MissingDates(whoop, lo, hi - 1);
      if hi in whoop then rest else rest + [hi]
  }

  /** Every date of the window without a row is listed as missing. */
  lemma {:induction false} MissingDatesComplete(whoop: map<int, WhoopData>, lo: int, hi: int, day: int)
    requires lo <= day <= hi && day !in whoop
    ensures day in MissingDates(whoop, lo, hi)
    decreases hi - lo
  {
    if day < hi {
      MissingDatesComplete(whoop, lo, hi - 1, day);
    }
  }

  /** Every date of the window is either covered or missing. */
  lemma {:induction false} CoveredPlusMissing(whoop: map<int, WhoopData>, lo: int, hi: int)
    requires lo <= hi + 1
    ensures |CoveredDates(whoop, lo, hi)| + |MissingDates(whoop, lo, hi)| == hi - lo + 1
    decreases hi - lo
  {
    if hi >= lo {
      CoveredPlusMissing(whoop, lo, hi - 1);
      var before := CoveredDates(whoop, lo, hi - 1);
      if hi in whoop {
        assert CoveredDates(whoop, lo, hi) == before + {hi};
      } else {
        assert CoveredDates(whoop, lo, hi) == before;
      }
    } else {
      assert CoveredDates(whoop, lo, hi) == {};
    }
  }

  /** get_whoop_sync_status: the latest row's date, the 30-day coverage and the missing dates of that window. */
  function WhoopSyncStatus(connected: bool, whoop: map<int, WhoopData>, today: int): (s: SyncStatus)
    ensures !connected ==> s == SyncStatus(false, None, 0.0, [], None)
    ensures connected ==> (s.lastSync.Some? <==> whoop != map[])
    ensures connected && whoop != map[] ==>
      s.lastSync.value in whoop && forall day :: day in whoop ==> day <= s.lastSync.value
    ensures connected ==> s.totalRecords == Some(|CoveredDates(whoop, today - 29, today)|)
    ensures connected ==> s.missingDates == MissingDates(whoop, today - 29, today)
  {
    if !connected then SyncStatus(false, None, 0.0, [], None)
    else
      var startDate := today - 29;
      var covered := CoveredDates(whoop, startDate, today);
      SyncStatus(
        true,
        if whoop == map[] then None else Some(MaxKey(whoop.Keys)),
        |covered| as real / 30.0 * 100.0,
        MissingDates(whoop, startDate, today),
        Some(|covered|))
  }

  /** Coverage is the share of the 30-day window not listed as missing, between 0 and 100. */
  lemma CoverageMatchesMissing(whoop: map<int, WhoopData>, today: int)
    ensures var s := WhoopSyncStatus(true, whoop, today);
      && s.dataCoverage == (30 - |s.missingDates|) as real / 30.0 * 100.0
      && 0.0 <= s.dataCoverage <= 100.0
      && (s.dataCoverage == 100.0 <==> s.missingDates == [])
  {
    CoveredPlusMissing(whoop, today - 29, today);
  }
}
