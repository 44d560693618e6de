/**
 * The persisted records of the habit tracker and the database that holds them.
 * Days are integers (one per calendar date), scores and readings are reals.
 */
module Models {

  datatype Option<T> = None | Some(value: T)

  /** The HTTP errors the handlers raise. */
  datatype HttpError = NotFound | Unauthorized

  datatype Result<T> = Ok(value: T) | Err(error: HttpError)

  /** One row of the habits table: configuration of a tracked habit. */
  datatype Habit = Habit(
    id: int,
    name: string,
    habitType: string,
    weight: real,
    targetDaysPerWeek: int,
    nonzeroThreshold: real,
    goalThreshold: real,
    stretchThreshold: real,
    zeroThreshold: Option<real>,
    compoundRate: real,
    decayRate: real,
    forgivenessDays: int,
    isInverted: bool,
    isActive: bool)

  /** A habit as created with every defaulted column left at its default. */
  function DefaultHabit(id: int, name: string, habitType: string, goal: real, stretch: real): (h: Habit)
    ensures h.id == id && h.goalThreshold == goal && h.stretchThreshold == stretch
    ensures h.weight == 1.0 && h.targetDaysPerWeek == 5 && h.nonzeroThreshold == 0.0
    ensures h.zeroThreshold == None && h.compoundRate == 1.15 && h.decayRate == 0.9
    ensures h.forgivenessDays == 2 && !h.isInverted && h.isActive
  {
    Habit(id, name, habitType, 1.0, 5, 0.0, goal, stretch, None, 1.15, 0.9, 2, false, true)
  }

  /** The derived score of one habit on one day. */
  datatype HabitScore = HabitScore(
    rawScore: real,
    momentumMultiplier: real,
    finalScore: real,
    weeklyCompletionRate: Option<real>)

  /** The derived score of one day. */
  datatype DailyScore = DailyScore(
    baseScore: real,
    whoopMultiplier: real,
    finalScore: real,
    cumulativeScore: real)

  /** One day of recovery readings; any of them may be missing. */
  datatype WhoopData = WhoopData(
    sleepScore: Option<real>,
    hrvScore: Option<real>,
    recoveryScore: Option<real>,
    whoopMultiplier: Option<real>)

  /** Key of the entry and habit-score tables: (habit id, day). */
  type DayKey = (int, int)

  /** The whole database as a value. */
  datatype Tables = Tables(
    habits: seq<Habit>,
    entries: map<DayKey, real>,
    habitScores: map<DayKey, HabitScore>,
    dailyScores: map<int, DailyScore>,
    whoopData: map<int, WhoopData>)

  /**
   * The database session. The handlers keep at most one row per (habit, date) and per
   * date by looking a row up before inserting; the stores are maps on those keys.
   */
  class Db {
    var habits: seq<Habit>
    var entries: map<DayKey, real>
    var habitScores: map<DayKey, HabitScore>
    var dailyScores: map<int, DailyScore>
    var whoopData: map<int, WhoopData>

    function Snapshot(): Tables
      reads this
    {
      Tables(habits, entries, habitScores, dailyScores, whoopData)
    }

    constructor (t: Tables)
      ensures Snapshot() == t
    {
      habits, entries, habitScores, dailyScores, whoopData :=
        t.habits, t.entries, t.habitScores, t.dailyScores, t.whoopData;
    }
  }

  /** Habit ids are the table's primary key. */
  predicate UniqueIds(hs: seq<Habit>) {
    forall i, j :: 0 <= i < |hs| && 0 <= j < |hs| && hs[i].id == hs[j].id ==> i == j
  }

  /** The query `select(Habit).where(Habit.is_active == True)`, in table order. */
  function ActiveHabits(hs: seq<Habit>): (r: seq<Habit>)
    ensures forall h :: h in r <==> h in hs && h.isActive
    ensures |r| <= |hs|
  {
    if hs == [] then []
    else if hs[0].isActive then [hs[0]] + ActiveHabits(hs[1..])
    else ActiveHabits(hs[1..])
  }

  /** Filtering a table with a primary key keeps the key unique. */
  lemma {:induction false} ActiveHabitsUnique(hs: seq<Habit>)
    requires UniqueIds(hs)
    ensures UniqueIds(ActiveHabits(hs))
    decreases |hs|
  {
    if hs != [] {
      var tail := hs[1..];
      UniqueTail(hs);
      ActiveHabitsUnique(tail);
      if hs[0].isActive {
        UniqueCons(hs[0], ActiveHabits(tail));
      }
    }
  }

  /** Dropping the first row keeps ids unique, and no later row has the first row's id. */
  lemma UniqueTail(hs: seq<Habit>)
    requires UniqueIds(hs) && hs != []
    ensures UniqueIds(hs[1..])
    ensures forall h :: h in hs[1..] ==> h.id != hs[0].id
  {
    var tail := hs[1..];
    forall i, j | 0 <= i < |tail| && 0 <= j < |tail| && tail[i].id == tail[j].id ensures i == j {
      assert hs[i + 1].id == hs[j + 1].id;
    }
    forall h | h in tail ensures h.id != hs[0].id {
      var k :| 0 <= k < |tail| && tail[k] == h;
      assert hs[k + 1] == h;
    }
  }

  /** A row whose id no other row has can be put in front of rows with unique ids. */
  lemma UniqueCons(h: Habit, rest: seq<Habit>)
    requires UniqueIds(rest)
    requires forall g :: g in rest ==> g.id != h.id
    ensures UniqueIds([h] + rest)
  {
    var r := [h] + rest;
    forall i, j | 0 <= i < |r| && 0 <= j < |r| && i != j ensures r[i].id != r[j].id {
      if i == 0 {
        assert r[j] in rest;
      } else if j == 0 {
        assert r[i] in rest;
      } else {
        assert r[i] == rest[i - 1] && r[j] == rest[j - 1];
      }
    }
  }

  /** Whether `select(Habit).where(Habit.id == id, Habit.is_active == True)` finds a row. */
  predicate HasActiveHabit(hs: seq<Habit>, id: int) {
    exists h :: h in hs && h.id == id && h.isActive
  }

  /** Position of the first habit row with the given id, if any. */
  function HabitIndex(hs: seq<Habit>, id: int): (r: Option<nat>)
    ensures r.Some? ==> r.value < |hs| && hs[r.value].id == id
    ensures r.Some? ==> forall j :: 0 <= j < r.value ==> hs[j].id != id
    ensures r.None? <==> forall j :: 0 <= j < |hs| ==> hs[j].id != id
  {
    if hs == [] then None
    else if hs[0].id == id then Some(0)
    else
      match HabitIndex(hs[1..], id)
      case None =>
        assert forall j :: 1 <= j < |hs| ==> hs[j] == hs[1..][j - 1];
        None
      case Some(i) => Some(i + 1)
  }

  /**
   * The rows of a date-keyed table whose date lies in [lo, hi], in ascending date order
   * (the `where(date >= lo, date <= hi).order_by(date)` queries).
   */
  function Window<V(==,!new)>(m: map<int, V>, lo: int, hi: int): (r: seq<(int, V)>)
    decreases hi - lo
    ensures forall i :: 0 <= i < |r| ==> lo <= r[i].0 <= hi && r[i].0 in m && m[r[i].0] == r[i].1
    ensures forall i, j :: 0 <= i < j < |r| ==> r[i].0 < r[j].0
    ensures |r| <= if hi < lo then 0 else hi - lo + 1
  {
    if hi < lo then []
    else
      var rest := Window(m, lo, hi - 1);
      if hi !in m then rest
      else
        var r := rest + [(hi, m[hi])];
        assert forall i :: 0 <= i < |rest| ==> r[i] == rest[i];
        r
  }

  /** Every row dated in [lo, hi] is in the window. */
  lemma {:induction false} WindowComplete<V(!new)>(m: map<int, V>, lo: int, hi: int, day: int)
    requires lo <= day <= hi && day in m
    ensures (day, m[day]) in Window(m, lo, hi)
    decreases hi - lo
  {
    if day < hi {
      WindowComplete(m, lo, hi - 1, day);
    }
  }

  /**
   * The score rows of one habit dated in [lo, hi], in ascending date order (the
   * `where(habit_id == id, date >= lo, date <= hi).order_by(date)` query).
   */
  function HabitWindow(m: map<DayKey, HabitScore>, habitId: int, lo: int, hi: int): (r: seq<(int, HabitScore)>)
    decreases hi - lo
    ensures forall i :: 0 <= i < |r| ==>
      lo <= r[i].0 <= hi && (habitId, r[i].0) in m && m[(habitId, r[i].0)] == r[i].1
    ensures forall i, j :: 0 <= i < j < |r| ==> r[i].0 < r[j].0
    ensures |r| <= if hi < lo then 0 else hi - lo + 1
  {
    if hi < lo then []
    else
      var rest := HabitWindow(m, habitId, lo, hi - 1);
      if (habitId, hi) !in m then rest
      else
        var r := rest + [(hi, m[(habitId, hi)])];
        assert forall i :: 0 <= i < |rest| ==> r[i] == rest[i];
        r
  }

  /** Every row of the habit dated in [lo, hi] is in its window. */
  lemma {:induction false} HabitWindowComplete(m: map<DayKey, HabitScore>, habitId: int, lo: int, hi: int, day: int)
    requires lo <= day <= hi && (habitId, day) in m
    ensures (day, m[(habitId, day)]) in HabitWindow(m, habitId, lo, hi)
    decreases hi - lo
  {
    if day < hi {
      HabitWindowComplete(m, habitId, lo, hi - 1, day);
    }
  }

  /** The rows of one habit in the (habit, date)-keyed score table, keyed by date. */
  function ScoresOf(hs: map<DayKey, HabitScore>, habitId: int): (r: map<int, HabitScore>)
    ensures forall day :: day in r <==> (habitId, day) in hs
    ensures forall day :: day in r ==> r[day] == hs[(habitId, day)]
  {
    map k | k in hs && k.0 == habitId :: k.1 := hs[k]
  }

  /** The days of the half-open range [lo, hi). */
  function Days(lo: int, hi: int): (r: set<int>)
    ensures forall k :: k in r <==> lo <= k < hi
    ensures |r| == if hi < lo then 0 else hi - lo
    decreases hi - lo
  {
    if hi <= lo then {} else Days(lo, hi - 1) + {hi - 1}
  }

  lemma {:induction false} MaxExists(s: set<int>)
    requires s != {}
    ensures exists m :: m in s && forall k :: k in s ==> k <= m
    decreases |s|
  {
    if forall y :: y !in s { assert false; }
    var x :| x in s;
    var rest := s - {x};
    if rest == {} {
      assert s == {x};
    } else {
      MaxExists(rest);
      var m :| m in rest && forall k :: k in rest ==> k <= m;
      var top := if x > m then x else m;
      assert forall k :: k in s ==> k == x || k in rest;
      assert top in s && forall k :: k in s ==> k <= top;
    }
  }

  lemma {:induction false} MinExists(s: set<int>)
    requires s != {}
    ensures exists m :: m in s && forall k :: k in s ==> m <= k
    decreases |s|
  {
    if forall y :: y !in s { assert false; }
    var x :| x in s;
    var rest := s - {x};
    if rest == {} {
      assert s == {x};
    } else {
      MinExists(rest);
      var m :| m in rest && forall k :: k in rest ==> m <= k;
      var bottom := if x < m then x else m;
      assert forall k :: k in s ==> k == x || k in rest;
      assert bottom in s && forall k :: k in s ==> bottom <= k;
    }
  }

  /** The latest date of a non-empty set of dates. */
  function MaxKey(s: set<int>): (m: int)
    requires s != {}
    ensures m in s && forall k :: k in s ==> k <= m
  {
    MaxExists(s);
    var m :| m in s && forall k :: k in s ==> k <= m; m
  }

  /** The earliest date of a non-empty set of dates. */
  function MinKey(s: set<int>): (m: int)
    requires s != {}
    ensures m in s && forall k :: k in s ==> m <= k
  {
    MinExists(s);
    var m :| m in s && forall k :: k in s ==> m <= k; m
  }

  /** All rows of a date-keyed table dated on or before `hi`, ascending. */
  function RowsUpTo<V(==,!new)>(m: map<int, V>, hi: int): (r: seq<(int, V)>)
    ensures forall i :: 0 <= i < |r| ==> r[i].0 <= hi && r[i].0 in m && m[r[i].0] == r[i].1
    ensures forall i, j :: 0 <= i < j < |r| ==> r[i].0 < r[j].0
  {
    if m == map[] then [] else Window(m, MinKey(m.Keys), hi)
  }

  /** Every row dated on or before `hi` is listed. */
  lemma RowsUpToComplete<V(!new)>(m: map<int, V>, hi: int, day: int)
    requires day <= hi && day in m
    ensures (day, m[day]) in RowsUpTo(m, hi)
  {
    WindowComplete(m, MinKey(m.Keys), hi, day);
  }

  /** All rows of a date-keyed table dated on or after `lo`, ascending. */
  function RowsFrom<V(==,!new)>(m: map<int, V>, lo: int): (r: seq<(int, V)>)
    ensures forall i :: 0 <= i < |r| ==> lo <= r[i].0 && r[i].0 in m && m[r[i].0] == r[i].1
    ensures forall i, j :: 0 <= i < j < |r| ==> r[i].0 < r[j].0
  {
    if m == map[] then [] else Window(m, lo, MaxKey(m.Keys))
  }

  /** Every row dated on or after `lo` is listed. */
  lemma RowsFromComplete<V(!new)>(m: map<int, V>, lo: int, day: int)
    requires lo <= day && day in m
    ensures (day, m[day]) in RowsFrom(m, lo)
  {
    WindowComplete(m, lo, MaxKey(m.Keys), day);
  }
}
