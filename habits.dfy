/**
 * The habit endpoints that change the database: submitting one entry or a batch of
 * entries (upsert on (habit, date), then recomputation of the affected days), the soft
 * delete, the partial update of a habit's configuration, and the active-habit listing.
 */
module Habits {
  import opened Models
  import Scoring

  /** The body of an entry submission. */
  datatype EntryInput = EntryInput(habitId: int, date: int, value: real)

  function KeyOf(e: EntryInput): DayKey { (e.habitId, e.date) }

  // ---------------------------------------------------------------------------
  // list_habits

  /** list_habits: the rows of the habit table that are active, in table order. */
  method ListHabits(db: Db) returns (habits: seq<Habit>)
    ensures forall h :: h in habits <==> h in db.habits && h.isActive
    ensures habits == ActiveHabits(db.habits)
  {
    habits := ActiveHabits(db.habits);
  }

  // ---------------------------------------------------------------------------
  // create_habit_entry

  /**
   * The database after submitting one entry: rejected when no active habit has the id,
   * otherwise the entry's value is stored under (habit, date) and that date is recomputed.
   */
  function SubmitEntry(t: Tables, e: EntryInput): (r: Result<Tables>)
    ensures r.Err? <==> !HasActiveHabit(t.habits, e.habitId)
    ensures r.Err? ==> r.error == NotFound
  {
    if !HasActiveHabit(t.habits, e.habitId) then Err(NotFound)
    else Ok(Scoring.DailyRecompute(t.(entries := t.entries[KeyOf(e) := e.value]), e.date))
  }

  /**
   * An accepted entry replaces or adds the value of its (habit, date) key and touches no
   * other entry; the entry's date is then up to date, and no other day's record changes.
   */
  lemma SubmitEntryEffect(t: Tables, e: EntryInput)
    requires HasActiveHabit(t.habits, e.habitId)
    ensures var t' := SubmitEntry(t, e).value;
      && t'.habits == t.habits
      && KeyOf(e) in t'.entries && t'.entries[KeyOf(e)] == e.value
      && (forall k :: k != KeyOf(e) ==> (k in t'.entries <==> k in t.entries))
      && (forall k :: k != KeyOf(e) && k in t.entries ==> t'.entries[k] == t.entries[k])
      && Scoring.UpToDate(t', e.date)
      && (forall day :: day != e.date ==> (day in t'.dailyScores <==> day in t.dailyScores))
      && (forall day :: day != e.date && day in t.dailyScores ==> t'.dailyScores[day] == t.dailyScores[day])
  {
    var t1 := t.(entries := t.entries[KeyOf(e) := e.value]);
    Scoring.DailyRecomputeFrame(t1, e.date);
    Scoring.DailyRecomputeIdempotent(t1, e.date);
  }

  /**
   * create_habit_entry: 404 unless the habit exists and is active; otherwise upsert the
   * value (an existing (habit, date) row gets the new value, else a row is added, which on
   * a map keyed by (habit, date) is the same update), commit, and recompute that date.
   */
  method CreateHabitEntry(db: Db, entry: EntryInput) returns (r: Result<EntryInput>)
    modifies db
    ensures r.Ok? <==> HasActiveHabit(old(db.habits), entry.habitId)
    ensures r.Ok? ==> r.value == entry
    ensures r.Err? ==> r.error == NotFound && db.Snapshot() == old(db.Snapshot())
    ensures r.Ok? ==> db.Snapshot() == SubmitEntry(old(db.Snapshot()), entry).value
  {
    if !HasActiveHabit(db.habits, entry.habitId) {
      return Err(NotFound);
    }
    db.entries := db.entries[KeyOf(entry) := entry.value];
    var _ := Scoring.CalculateDailyScores(db, entry.date);
    r := Ok(entry);
  }

  // ---------------------------------------------------------------------------
  // create_habit_entries_batch

  /** Every entry of the batch names an active habit. */
  predicate AllActive(hs: seq<Habit>, es: seq<EntryInput>) {
    forall i :: 0 <= i < |es| ==> HasActiveHabit(hs, es[i].habitId)
  }

  /** The entry table after upserting the batch in order: a later entry for the same key wins. */
  function Upserted(entries: map<DayKey, real>, es: seq<EntryInput>): map<DayKey, real>
    decreases |es|
  {
    if es == [] then entries
    else Upserted(entries, es[..|es| - 1])[KeyOf(es[|es| - 1]) := es[|es| - 1].value]
  }

  /** The distinct dates of a batch. */
  function BatchDates(es: seq<EntryInput>): set<int>
    decreases |es|
  {
    if es == [] then {} else BatchDates(es[..|es| - 1]) + {es[|es| - 1].date}
  }

  /** A date is a batch date exactly when some entry of the batch carries it. */
  lemma {:induction false} BatchDatesMembers(es: seq<EntryInput>, d: int)
    ensures d in BatchDates(es) <==> exists i :: 0 <= i < |es| && es[i].date == d
    decreases |es|
  {
    if es != [] {
      var init := es[..|es| - 1];
      BatchDatesMembers(init, d);
      if d in BatchDates(init) {
        var i :| 0 <= i < |init| && init[i].date == d;
        assert es[i].date == d;
      }
      if i :| 0 <= i < |es| && es[i].date == d {
        if i < |es| - 1 {
          assert init[i].date == d;
        }
      }
    }
  }

  /**
   * The value stored under a key is the one of the last entry of the batch for that key;
   * keys that no entry of the batch names keep their value.
   */
  lemma {:induction false} UpsertedLastWins(entries: map<DayKey, real>, es: seq<EntryInput>, i: nat)
    requires i < |es|
    requires forall j :: i < j < |es| ==> KeyOf(es[j]) != KeyOf(es[i])
    ensures KeyOf(es[i]) in Upserted(entries, es) && Upserted(entries, es)[KeyOf(es[i])] == es[i].value
    decreases |es|
  {
    if i < |es| - 1 {
      UpsertedLastWins(entries, es[..|es| - 1], i);
    }
  }

  lemma {:induction false} UpsertedKeepsOthers(entries: map<DayKey, real>, es: seq<EntryInput>, k: DayKey)
    requires forall j :: 0 <= j < |es| ==> KeyOf(es[j]) != k
    ensures k in Upserted(entries, es) <==> k in entries
    ensures k in entries ==> Upserted(entries, es)[k] == entries[k]
    decreases |es|
  {
    if es != [] {
      UpsertedKeepsOthers(entries, es[..|es| - 1], k);
    }
  }

  /** The tables after recomputing the given days in the given order. */
  function RecomputeAll(t: Tables, order: seq<int>): Tables
    decreases |order|
  {
    if order == [] then t else Scoring.DailyRecompute(RecomputeAll(t, order[..|order| - 1]), order[|order| - 1])
  }

  lemma RecomputeAllStep(t: Tables, order: seq<int>, d: int)
    ensures RecomputeAll(t, order + [d]) == Scoring.DailyRecompute(RecomputeAll(t, order), d)
  {
    assert (order + [d])[..|order|] == order;
  }

  /**
   * A recomputed day is up to date at the end unless the day before it is recomputed
   * later: each day's record reads only its own entries and the records of the day before.
   */
  lemma {:induction false} RecomputeAllUpToDate(t: Tables, order: seq<int>, i: nat)
    requires i < |order|
    requires forall j :: i < j < |order| ==> order[j] != order[i] - 1
    ensures Scoring.UpToDate(RecomputeAll(t, order), order[i])
    decreases |order|
  {
    var init := order[..|order| - 1];
    var last := order[|order| - 1];
    var before := RecomputeAll(t, init);
    assert RecomputeAll(t, order) == Scoring.DailyRecompute(before, last);
    if i == |order| - 1 {
      Scoring.DailyRecomputeIdempotent(before, last);
    } else {
      assert init[i] == order[i];
      assert forall j :: i < j < |init| ==> init[j] != init[i] - 1 by {
        forall j | i < j < |init| ensures init[j] != init[i] - 1 { assert init[j] == order[j]; }
      }
      RecomputeAllUpToDate(t, init, i);
      Scoring.UpToDatePreserved(before, order[i], last);
    }
  }

  /** Recomputing in ascending date order leaves every recomputed day up to date. */
  lemma AscendingOrderLeavesUpToDate(t: Tables, order: seq<int>, i: nat)
    requires i < |order|
    requires forall a, b :: 0 <= a < b < |order| ==> order[a] < order[b]
    ensures Scoring.UpToDate(RecomputeAll(t, order), order[i])
  {
    RecomputeAllUpToDate(t, order, i);
  }

  /** Days that are not recomputed keep their daily record. */
  lemma {:induction false} RecomputeAllKeepsOtherDays(t: Tables, order: seq<int>, day: int)
    requires forall j :: 0 <= j < |order| ==> order[j] != day
    ensures var t' := RecomputeAll(t, order);
      && (day in t'.dailyScores <==> day in t.dailyScores)
      && (day in t.dailyScores ==> t'.dailyScores[day] == t.dailyScores[day])
    decreases |order|
  {
    if order != [] {
      var init := order[..|order| - 1];
      RecomputeAllKeepsOtherDays(t, init, day);
      Scoring.DailyRecomputeFrame(RecomputeAll(t, init), order[|order| - 1]);
    }
  }

  /** No day occurs twice. */
  predicate Distinct(order: seq<int>) {
    forall a, b :: 0 <= a < b < |order| ==> order[a] != order[b]
  }

  /**
   * create_habit_entries_batch: check and stage every entry (404 on the first entry whose
   * habit is missing or inactive, before anything is committed), commit, then recompute
   * each distinct date once, in the arbitrary order in which the set yields them; `order`
   * records that order. The result is the number of entries submitted.
   */
  method CreateHabitEntriesBatch(db: Db, entries: seq<EntryInput>) returns (r: Result<nat>, ghost order: seq<int>)
    modifies db
    ensures r.Ok? <==> AllActive(old(db.habits), entries)
    ensures r.Err? ==> r.error == NotFound && db.Snapshot() == old(db.Snapshot())
    ensures r.Ok? ==> r.value == |entries|
    ensures r.Ok? ==> Distinct(order) && (forall d :: d in order <==> d in BatchDates(entries))
    ensures r.Ok? ==> db.Snapshot() == RecomputeAll(old(db.Snapshot()).(entries := Upserted(old(db.entries), entries)), order)
  {
    order := [];
    var staged := db.entries;
    var createdEntries := 0;
    var datesToRecalculate: set<int> := {};
    var i := 0;
    while i < |entries|
      invariant 0 <= i <= |entries| && createdEntries == i
      invariant AllActive(db.habits, entries[..i])
      invariant staged == Upserted(db.entries, entries[..i])
      invariant datesToRecalculate == BatchDates(entries[..i])
    {
      var entryData := entries[i];
      if !HasActiveHabit(db.habits, entryData.habitId) {
        return Err(NotFound), order;
      }
      assert entries[..i + 1][..i] == entries[..i];
      staged := staged[KeyOf(entryData) := entryData.value];
      createdEntries := createdEntries + 1;
      datesToRecalculate := datesToRecalculate + {entryData.date};
      i := i + 1;
    }
    assert entries[..i] == entries;
    db.entries := staged;
    order := RecalculateDates(db, datesToRecalculate);
    r := Ok(createdEntries);
  }

  /** The loop over the set of dates: each date recomputed once, in the order the set yields them. */
  method RecalculateDates(db: Db, dates: set<int>) returns (ghost order: seq<int>)
    modifies db
    ensures Distinct(order) && (forall d :: d in order <==> d in dates)
    ensures db.Snapshot() == RecomputeAll(old(db.Snapshot()), order)
  {
    ghost var committed := db.Snapshot();
    order := [];
    var remaining := dates;
    while remaining != {}
      invariant remaining <= dates
      invariant forall d :: d in dates <==> d in remaining || d in order
      invariant forall j :: 0 <= j < |order| ==> order[j] !in remaining
      invariant Distinct(order)
      invariant db.Snapshot() == RecomputeAll(committed, order)
      decreases |remaining|
    {
      assert MinKey(remaining) in remaining;
      var calcDate :| calcDate in remaining;
      var _ := Scoring.CalculateDailyScores(db, calcDate);
      RecomputeAllStep(committed, order, calcDate);
      order := order + [calcDate];
      remaining := remaining - {calcDate};
    }
  }

  // ---------------------------------------------------------------------------
  // deactivate_habit

  /** The habit table after the soft delete of the first row with the id, if there is one. */
  function Deactivated(hs: seq<Habit>, habitId: int): (r: seq<Habit>)
    ensures |r| == |hs|
    ensures forall i :: 0 <= i < |hs| ==> r[i].id == hs[i].id
    ensures forall i :: 0 <= i < |hs| && hs[i].id != habitId ==> r[i] == hs[i]
  {
    match HabitIndex(hs, habitId)
    case None => hs
    case Some(i) => hs[i := hs[i].(isActive := false)]
  }

  /**
   * With unique ids, the soft-deleted habit is no longer active and the active habits are
   * otherwise the same ones; every other column of the row keeps its value.
   */
  lemma DeactivateEffect(hs: seq<Habit>, habitId: int)
    requires UniqueIds(hs)
    ensures UniqueIds(Deactivated(hs, habitId))
    ensures !HasActiveHabit(Deactivated(hs, habitId), habitId)
    ensures forall h :: h in ActiveHabits(Deactivated(hs, habitId)) <==> h in ActiveHabits(hs) && h.id != habitId
    ensures forall i :: 0 <= i < |hs| && hs[i].id == habitId ==>
      Deactivated(hs, habitId)[i] == hs[i].(isActive := false)
  {
    match HabitIndex(hs, habitId)
    case None =>
    case Some(k) =>
      DeactivatedRowInactive(hs, habitId, k);
      DeactivatedKeepsOtherRows(hs, habitId, k);
  }

  lemma DeactivatedRowInactive(hs: seq<Habit>, habitId: int, k: nat)
    requires UniqueIds(hs) && HabitIndex(hs, habitId) == Some(k)
    ensures forall h :: h in Deactivated(hs, habitId) && h.id == habitId ==> !h.isActive
    ensures forall i :: 0 <= i < |hs| && hs[i].id == habitId ==> i == k
  {
    var r := Deactivated(hs, habitId);
    forall h | h in r && h.id == habitId ensures !h.isActive {
      var i :| 0 <= i < |r| && r[i] == h;
      assert hs[i].id == hs[k].id;
    }
  }

  lemma DeactivatedKeepsOtherRows(hs: seq<Habit>, habitId: int, k: nat)
    requires UniqueIds(hs) && HabitIndex(hs, habitId) == Some(k)
    ensures forall h :: h in Deactivated(hs, habitId) && h.isActive <==> h in hs && h.isActive && h.id != habitId
  {
    var r := Deactivated(hs, habitId);
    forall h | h in hs && h.isActive && h.id != habitId ensures h in r {
      var i :| 0 <= i < |hs| && hs[i] == h;
      assert r[i] == h;
    }
    forall h | h in r && h.isActive ensures h in hs && h.id != habitId {
      var i :| 0 <= i < |r| && r[i] == h;
      assert i != k && r[i] == hs[i];
      assert hs[i].id != hs[k].id;
    }
  }

  /** deactivate_habit: 404 for an unknown id; otherwise only the row's is_active becomes false. */
  method DeactivateHabit(db: Db, habitId: int) returns (r: Result<()>)
    modifies db
    ensures r.Err? <==> forall h :: h in old(db.habits) ==> h.id != habitId
    ensures r.Err? ==> r.error == NotFound
    ensures db.habits == Deactivated(old(db.habits), habitId)
    ensures db.entries == old(db.entries) && db.habitScores == old(db.habitScores)
    ensures db.dailyScores == old(db.dailyScores) && db.whoopData == old(db.whoopData)
  {
    var index := HabitIndex(db.habits, habitId);
    if index.None? {
      return Err(NotFound);
    }
    var i := index.value;
    db.habits := db.habits[i := db.habits[i].(isActive := false)];
    r := Ok(());
  }

  // ---------------------------------------------------------------------------
  // update_habit

  /** One column the client set in a partial update, with its new value. */
  datatype FieldUpdate =
    | SetName(name: string)
    | SetWeight(weight: real)
    | SetTargetDaysPerWeek(targetDaysPerWeek: int)
    | SetNonzeroThreshold(nonzeroThreshold: real)
    | SetGoalThreshold(goalThreshold: real)
    | SetStretchThreshold(stretchThreshold: real)
    | SetZeroThreshold(zeroThreshold: Option<real>)
    | SetCompoundRate(compoundRate: real)
    | SetDecayRate(decayRate: real)
    | SetForgivenessDays(forgivenessDays: int)
    | SetInverted(isInverted: bool)
    | SetActive(isActive: bool)

  /** The columns a partial update may name; id and habit type are not among them. */
  datatype Field = Name | Weight | TargetDays | Nonzero | Goal | Stretch | Zero | Compound | Decay | Forgiveness | Inverted | Active

  function FieldOf(u: FieldUpdate): Field {
    match u
    case SetName(_) => Name
    case SetWeight(_) => Weight
    case SetTargetDaysPerWeek(_) => TargetDays
    case SetNonzeroThreshold(_) => Nonzero
    case SetGoalThreshold(_) => Goal
    case SetStretchThreshold(_) => Stretch
    case SetZeroThreshold(_) => Zero
    case SetCompoundRate(_) => Compound
    case SetDecayRate(_) => Decay
    case SetForgivenessDays(_) => Forgiveness
    case SetInverted(_) => Inverted
    case SetActive(_) => Active
  }

  /** Two habits hold the same value in a column. */
  predicate Agree(a: Habit, b: Habit, f: Field) {
    match f
    case Name => a.name == b.name
    case Weight => a.weight == b.weight
    case TargetDays => a.targetDaysPerWeek == b.targetDaysPerWeek
    case Nonzero => a.nonzeroThreshold == b.nonzeroThreshold
    case Goal => a.goalThreshold == b.goalThreshold
    case Stretch => a.stretchThreshold == b.stretchThreshold
    case Zero => a.zeroThreshold == b.zeroThreshold
    case Compound => a.compoundRate == b.compoundRate
    case Decay => a.decayRate == b.decayRate
    case Forgiveness => a.forgivenessDays == b.forgivenessDays
    case Inverted => a.isInverted == b.isInverted
    case Active => a.isActive == b.isActive
  }

  /** setattr of one provided column. */
  function ApplyField(h: Habit, u: FieldUpdate): (r: Habit)
    ensures r.id == h.id && r.habitType == h.habitType
    ensures forall f :: f != FieldOf(u) ==> Agree(r, h, f)
  {
    match u
    case SetName(v) => h.(name := v)
    case SetWeight(v) => h.(weight := v)
    case SetTargetDaysPerWeek(v) => h.(targetDaysPerWeek := v)
    case SetNonzeroThreshold(v) => h.(nonzeroThreshold := v)
    case SetGoalThreshold(v) => h.(goalThreshold := v)
    case SetStretchThreshold(v) => h.(stretchThreshold := v)
    case SetZeroThreshold(v) => h.(zeroThreshold := v)
    case SetCompoundRate(v) => h.(compoundRate := v)
    case SetDecayRate(v) => h.(decayRate := v)
    case SetForgivenessDays(v) => h.(forgivenessDays := v)
    case SetInverted(v) => h.(isInverted := v)
    case SetActive(v) => h.(isActive := v)
  }

  /** The habit after setting the provided columns in order. */
  function ApplyAll(h: Habit, us: seq<FieldUpdate>): Habit
    decreases |us|
  {
    if us == [] then h else ApplyField(ApplyAll(h, us[..|us| - 1]), us[|us| - 1])
  }

  /** A column no update names keeps its value. */
  lemma {:induction false} UntouchedFieldsKept(h: Habit, us: seq<FieldUpdate>, f: Field)
    requires forall i :: 0 <= i < |us| ==> FieldOf(us[i]) != f
    ensures Agree(ApplyAll(h, us), h, f)
    decreases |us|
  {
    if us != [] {
      var before := ApplyAll(h, us[..|us| - 1]);
      UntouchedFieldsKept(h, us[..|us| - 1], f);
      AgreeTransitive(ApplyAll(h, us), before, h, f);
    }
  }

  lemma AgreeTransitive(a: Habit, b: Habit, c: Habit, f: Field)
    requires Agree(a, b, f) && Agree(b, c, f)
    ensures Agree(a, c, f)
  {
  }

  /** Setting a column twice keeps the second value. */
  lemma ApplyFieldOverwrites(h: Habit, u: FieldUpdate, v: FieldUpdate)
    requires FieldOf(u) == FieldOf(v)
    ensures ApplyField(ApplyField(h, u), v) == ApplyField(h, v)
  {
  }

  /** Setting two different columns gives the same row in either order. */
  lemma ApplyFieldCommutes(h: Habit, u: FieldUpdate, v: FieldUpdate)
    requires FieldOf(u) != FieldOf(v)
    ensures ApplyField(ApplyField(h, u), v) == ApplyField(ApplyField(h, v), u)
  {
  }

  /**
   * A provided column holds the value of the last update that names it: setting it again
   * to that value changes nothing.
   */
  lemma {:induction false} ProvidedFieldSet(h: Habit, us: seq<FieldUpdate>, i: nat)
    requires i < |us|
    requires forall j :: i < j < |us| ==> FieldOf(us[j]) != FieldOf(us[i])
    ensures ApplyField(ApplyAll(h, us), us[i]) == ApplyAll(h, us)
    decreases |us|
  {
    var init := us[..|us| - 1];
    var last := us[|us| - 1];
    var before := ApplyAll(h, init);
    if i == |us| - 1 {
      ApplyFieldOverwrites(before, last, last);
    } else {
      ProvidedFieldSet(h, init, i);
      ApplyFieldCommutes(before, last, us[i]);
    }
  }

  /**
   * update_habit: 404 for an unknown id; otherwise set each provided column on the first
   * row with the id. Nothing but that row changes.
   */
  method UpdateHabit(db: Db, habitId: int, updates: seq<FieldUpdate>) returns (r: Result<Habit>)
    modifies db
    ensures r.Err? <==> forall h :: h in old(db.habits) ==> h.id != habitId
    ensures r.Err? ==> r.error == NotFound && db.habits == old(db.habits)
    ensures r.Ok? ==> var i := HabitIndex(old(db.habits), habitId).value;
      && r.value == ApplyAll(old(db.habits)[i], updates)
      && db.habits == old(db.habits)[i := r.value]
    ensures db.entries == old(db.entries) && db.habitScores == old(db.habitScores)
    ensures db.dailyScores == old(db.dailyScores) && db.whoopData == old(db.whoopData)
  {
    var index := HabitIndex(db.habits, habitId);
    if index.None? {
      return Err(NotFound);
    }
    var i := index.value;
    var habit := db.habits[i];
    var k := 0;
    while k < |updates|
      invariant 0 <= k <= |updates|
      invariant habit == ApplyAll(db.habits[i], updates[..k])
    {
      assert updates[..k + 1][..k] == updates[..k];
      habit := ApplyField(habit, updates[k]);
      k := k + 1;
    }
    assert updates[..k] == updates;
    db.habits := db.habits[i := habit];
    r := Ok(habit);
  }

  /** The id and the habit type are not updatable columns. */
  lemma {:induction false} ApplyAllKeepsIdentity(h: Habit, us: seq<FieldUpdate>)
    ensures ApplyAll(h, us).id == h.id && ApplyAll(h, us).habitType == h.habitType
    decreases |us|
  {
    if us != [] {
      ApplyAllKeepsIdentity(h, us[..|us| - 1]);
    }
  }

  /** A partial update never changes an id, so the habit ids stay unique. */
  lemma UpdateKeepsIdsUnique(hs: seq<Habit>, i: nat, us: seq<FieldUpdate>)
    requires UniqueIds(hs) && i < |hs|
    ensures UniqueIds(hs[i := ApplyAll(hs[i], us)])
  {
    ApplyAllKeepsIdentity(hs[i], us);
  }
}
