/**
 * The statistics add-on of enhanced_features.py as functions of the tables: the
 * daily_stats upsert behind every recorded activity, the report over a window of
 * days, the completion rate, the motivational band chosen from it and the
 * ranking of the categories of finished tasks.
 */
module Statistics {
  import opened Wrappers
  import opened Text
  import opened Sequences
  import opened Schema
  import opened TaskQueries

  // ---------------------------------------------------------------------------
  // record_user_activity (enhanced_features.py:89-143)

  datatype Counter = Created | Completed | Deleted

  /** The activity names that move a counter; every other name moves none. */
  function CounterOf(activity: string): Option<Counter>
  {
    if activity == "task_created" then Some(Created)
    else if activity == "task_completed" then Some(Completed)
    else if activity == "task_deleted" then Some(Deleted)
    else None
  }

  /** 1 when `activity` is `name`, else 0. */
  function Added(activity: string, name: string): nat
  {
    if activity == name then 1 else 0
  }

  function RealMax(a: real, b: real): real
  {
    if a >= b then a else b
  }

  /**
   * The productivity score of a day, doubled so that it stays an integer: twice
   * max(0, completed * 2 + created - deleted * 0.5).
   */
  function Score2(created: nat, completed: nat, deleted: nat): (s: nat)
    ensures s as real == 2.0 * RealMax(0.0, completed as real * 2.0 + created as real - deleted as real * 0.5)
  {
    if deleted <= 4 * completed + 2 * created then 4 * completed + 2 * created - deleted else 0
  }

  predicate SameDay(s: DailyStat, user: int, date: int)
  {
    s.owner == user && s.date == date
  }

  predicate HasDay(stats: seq<DailyStat>, user: int, date: int)
  {
    exists i :: 0 <= i < |stats| && SameDay(stats[i], user, date)
  }

  /** A row as INSERT OR IGNORE creates it: every counter and the score at 0. */
  function FreshDay(user: int, date: int): DailyStat
  {
    DailyStat(user, date, 0, 0, 0, 0)
  }

  /** INSERT OR IGNORE INTO daily_stats (user_id, date) VALUES (?, ?) */
  function OpenDay(stats: seq<DailyStat>, user: int, date: int): seq<DailyStat>
  {
    if HasDay(stats, user, date) then stats else stats + [FreshDay(user, date)]
  }

  function Bump(s: DailyStat, c: Counter): DailyStat
  {
    match c
    case Created => s.(created := s.created + 1)
    case Completed => s.(completed := s.completed + 1)
    case Deleted => s.(deleted := s.deleted + 1)
  }

  /** UPDATE daily_stats SET <counter> = <counter> + 1 WHERE user_id = ? AND date = ? */
  function BumpDay(stats: seq<DailyStat>, user: int, date: int, c: Counter): seq<DailyStat>
  {
    seq(|stats|, i requires 0 <= i < |stats| => if SameDay(stats[i], user, date) then Bump(stats[i], c) else stats[i])
  }

  /** The stored score recomputed from the row's own counters. */
  function Rescore(s: DailyStat): DailyStat
  {
    s.(score2 := Score2(s.created, s.completed, s.deleted))
  }

  /** UPDATE daily_stats SET productivity_score = ? WHERE user_id = ? AND date = ? */
  function RescoreDay(stats: seq<DailyStat>, user: int, date: int): seq<DailyStat>
  {
    seq(|stats|, i requires 0 <= i < |stats| => if SameDay(stats[i], user, date) then Rescore(stats[i]) else stats[i])
  }

  /** Every stored score agrees with the counters of its row. */
  ghost predicate Scored(stats: seq<DailyStat>)
  {
    forall i :: 0 <= i < |stats| ==> stats[i].score2 == Score2(stats[i].created, stats[i].completed, stats[i].deleted)
  }

  /** What record_user_activity does to one day row: the counter, then the score. */
  function Count(s: DailyStat, activity: string): DailyStat
  {
    match CounterOf(activity)
    case Some(c) => Rescore(Bump(s, c))
    case None => Rescore(s)
  }

  /** The three statements of record_user_activity, applied in order to daily_stats. */
  function RecordActivity(stats: seq<DailyStat>, user: int, date: int, activity: string): seq<DailyStat>
  {
    var withDay := OpenDay(stats, user, date);
    var counted := match CounterOf(activity)
      case Some(c) => BumpDay(withDay, user, date, c)
      case None => withDay;
    RescoreDay(counted, user, date)
  }

  /** A recorded activity moves its own counter by one, no other counter, and leaves the score in step. */
  lemma CountSpec(s: DailyStat, activity: string)
    ensures Count(s, activity).owner == s.owner && Count(s, activity).date == s.date
    ensures Count(s, activity).created == s.created + Added(activity, "task_created")
    ensures Count(s, activity).completed == s.completed + Added(activity, "task_completed")
    ensures Count(s, activity).deleted == s.deleted + Added(activity, "task_deleted")
    ensures Count(s, activity).score2 == Score2(Count(s, activity).created, Count(s, activity).completed, Count(s, activity).deleted)
  {
  }

  /** The net effect of the three statements: the day row is counted, every other row is kept. */
  lemma RecordActivityRows(stats: seq<DailyStat>, user: int, date: int, activity: string)
    ensures var r := RecordActivity(stats, user, date, activity);
      && |r| == |stats| + (if HasDay(stats, user, date) then 0 else 1)
      && (forall i :: 0 <= i < |stats| ==> r[i] == if SameDay(stats[i], user, date) then Count(stats[i], activity) else stats[i])
      && (!HasDay(stats, user, date) ==> r[|stats|] == Count(FreshDay(user, date), activity))
  {
  }

  /**
   * After record_user_activity there is exactly one row for the user and the day
   * (UNIQUE(user_id, date) is kept and the row exists); that row holds the old
   * counters, or zeros, with only the counter named by the activity moved by one,
   * and a score that matches its counters; every other row is as it was.
   */
  lemma RecordActivityCounters(stats: seq<DailyStat>, user: int, date: int, activity: string)
    requires StatsUnique(stats)
    ensures var r := RecordActivity(stats, user, date, activity);
      && StatsUnique(r)
      && HasDay(r, user, date)
      && (forall i :: 0 <= i < |r| && !SameDay(r[i], user, date) ==> i < |stats| && r[i] == stats[i])
      && (forall i :: 0 <= i < |r| && SameDay(r[i], user, date) ==>
            var b := if i < |stats| then stats[i] else FreshDay(user, date);
            && r[i].created == b.created + Added(activity, "task_created")
            && r[i].completed == b.completed + Added(activity, "task_completed")
            && r[i].deleted == b.deleted + Added(activity, "task_deleted")
            && r[i].score2 == Score2(r[i].created, r[i].completed, r[i].deleted))
  {
    var r := RecordActivity(stats, user, date, activity);
    RecordActivityRows(stats, user, date, activity);
    RecordActivityUnique(stats, user, date, activity);
    forall i | 0 <= i < |r| && SameDay(r[i], user, date)
      ensures var b := if i < |stats| then stats[i] else FreshDay(user, date);
        && r[i].created == b.created + Added(activity, "task_created")
        && r[i].completed == b.completed + Added(activity, "task_completed")
        && r[i].deleted == b.deleted + Added(activity, "task_deleted")
        && r[i].score2 == Score2(r[i].created, r[i].completed, r[i].deleted)
    {
      if i < |stats| {
        CountSpec(stats[i], activity);
      } else {
        CountSpec(FreshDay(user, date), activity);
      }
    }
    if HasDay(stats, user, date) {
      var k :| 0 <= k < |stats| && SameDay(stats[k], user, date);
      assert SameDay(r[k], user, date);
    } else {
      assert SameDay(r[|stats|], user, date);
    }
  }

  /** Counting keeps every row's user and date, and a new row is the day's; so UNIQUE(user_id, date) still holds. */
  lemma RecordActivityUnique(stats: seq<DailyStat>, user: int, date: int, activity: string)
    requires StatsUnique(stats)
    ensures StatsUnique(RecordActivity(stats, user, date, activity))
  {
    var r := RecordActivity(stats, user, date, activity);
    RecordActivityRows(stats, user, date, activity);
    forall i | 0 <= i < |stats| ensures r[i].owner == stats[i].owner && r[i].date == stats[i].date {
      CountSpec(stats[i], activity);
    }
    if !HasDay(stats, user, date) {
      CountSpec(FreshDay(user, date), activity);
      assert SameDay(r[|stats|], user, date);
    }
  }

  /** Scores in step with their counters stay so. */
  lemma RecordActivityScored(stats: seq<DailyStat>, user: int, date: int, activity: string)
    requires Scored(stats)
    ensures Scored(RecordActivity(stats, user, date, activity))
  {
    RecordActivityRows(stats, user, date, activity);
    var r := RecordActivity(stats, user, date, activity);
    forall i | 0 <= i < |r| ensures r[i].score2 == Score2(r[i].created, r[i].completed, r[i].deleted) {
      if i < |stats| && SameDay(stats[i], user, date) {
        CountSpec(stats[i], activity);
      } else if i == |stats| {
        CountSpec(FreshDay(user, date), activity);
      }
    }
  }

  // ---------------------------------------------------------------------------
  // get_user_statistics (enhanced_features.py:145-200)

  predicate InWindow(s: DailyStat, user: int, from: int, to: int)
  {
    s.owner == user && from <= s.date <= to
  }

  function CreatedOf(s: DailyStat): int { s.created }
  function CompletedOf(s: DailyStat): int { s.completed }
  function DeletedOf(s: DailyStat): int { s.deleted }
  function ScoreOf(s: DailyStat): int { s.score2 }
  function One(s: DailyStat): int { 1 }

  /** What a row adds to SUM(f) over the window. */
  function Weight(s: DailyStat, user: int, from: int, to: int, f: DailyStat -> int): int
  {
    if InWindow(s, user, from, to) then f(s) else 0
  }

  /**
   * SUM(f) over the user's rows dated from..to; where SQL's SUM of no rows is
   * NULL the code reports 0, which is the empty sum here.
   */
  function WindowSum(stats: seq<DailyStat>, user: int, from: int, to: int, f: DailyStat -> int): int
  {
    if stats == [] then 0 else Weight(stats[0], user, from, to, f) + WindowSum(stats[1..], user, from, to, f)
  }

  /** The dates that COUNT(DISTINCT date) counts. */
  function WindowDates(stats: seq<DailyStat>, user: int, from: int, to: int): set<int>
  {
    if stats == [] then {}
    else (if InWindow(stats[0], user, from, to) then {stats[0].date} else {}) + WindowDates(stats[1..], user, from, to)
  }

  lemma {:induction false} WindowSumSnoc(stats: seq<DailyStat>, x: DailyStat, user: int, from: int, to: int, f: DailyStat -> int)
    ensures WindowSum(stats + [x], user, from, to, f) == WindowSum(stats, user, from, to, f) + Weight(x, user, from, to, f)
  {
    if stats == [] {
      assert [x][1..] == [];
    } else {
      assert (stats + [x])[1..] == stats[1..] + [x];
      WindowSumSnoc(stats[1..], x, user, from, to, f);
    }
  }

  /** Changing one row changes the sum by that row's change of weight. */
  lemma {:induction false} WindowSumOneChange(s: seq<DailyStat>, t: seq<DailyStat>, k: nat, user: int, from: int, to: int, f: DailyStat -> int)
    requires |s| == |t| && k < |s|
    requires forall i :: 0 <= i < |s| && i != k ==> t[i] == s[i]
    ensures WindowSum(t, user, from, to, f) == WindowSum(s, user, from, to, f) - Weight(s[k], user, from, to, f) + Weight(t[k], user, from, to, f)
  {
    if k == 0 {
      assert t[1..] == s[1..];
    } else {
      WindowSumOneChange(s[1..], t[1..], k - 1, user, from, to, f);
    }
  }

  lemma {:induction false} WindowDatesFrom(stats: seq<DailyStat>, user: int, from: int, to: int, d: int)
    requires d in WindowDates(stats, user, from, to)
    ensures exists j :: 0 <= j < |stats| && InWindow(stats[j], user, from, to) && stats[j].date == d
  {
    if !(InWindow(stats[0], user, from, to) && stats[0].date == d) {
      WindowDatesFrom(stats[1..], user, from, to, d);
      var j :| 0 <= j < |stats[1..]| && InWindow(stats[1..][j], user, from, to) && stats[1..][j].date == d;
      assert stats[j + 1] == stats[1..][j];
    }
  }

  /**
   * Under UNIQUE(user_id, date), COUNT(DISTINCT date) over the window is the
   * number of the user's rows in the window.
   */
  lemma {:induction false} ActiveDaysAreRows(stats: seq<DailyStat>, user: int, from: int, to: int)
    requires StatsUnique(stats)
    ensures |WindowDates(stats, user, from, to)| == WindowSum(stats, user, from, to, One)
  {
    if stats != [] {
      var rest := stats[1..];
      assert StatsUnique(rest) by {
        forall i, j | 0 <= i < j < |rest| ensures rest[i].owner != rest[j].owner || rest[i].date != rest[j].date {
          assert rest[i] == stats[i + 1] && rest[j] == stats[j + 1];
        }
      }
      ActiveDaysAreRows(rest, user, from, to);
      if InWindow(stats[0], user, from, to) && stats[0].date in WindowDates(rest, user, from, to) {
        WindowDatesFrom(rest, user, from, to, stats[0].date);
        assert false;
      }
    }
  }

  /**
   * A recorded activity dated inside the window moves the window's total of the
   * matching counter by one and no other total, and adds an active day exactly
   * when the day had no row yet.
   */
  lemma RecordWindowExisting(stats: seq<DailyStat>, user: int, today: int, days: nat, activity: string, k: nat, f: DailyStat -> int)
    requires StatsUnique(stats) && k < |stats| && SameDay(stats[k], user, today)
    ensures WindowSum(RecordActivity(stats, user, today, activity), user, today - days, today, f)
         == WindowSum(stats, user, today - days, today, f) - f(stats[k]) + f(Count(stats[k], activity))
  {
    var r := RecordActivity(stats, user, today, activity);
    RecordActivityRows(stats, user, today, activity);
    forall i | 0 <= i < |stats| && i != k ensures r[i] == stats[i] {
      assert !SameDay(stats[i], user, today);
    }
    CountSpec(stats[k], activity);
    WindowSumOneChange(stats, r, k, user, today - days, today, f);
  }

  lemma RecordWindowNew(stats: seq<DailyStat>, user: int, today: int, days: nat, activity: string, f: DailyStat -> int)
    requires !HasDay(stats, user, today)
    ensures WindowSum(RecordActivity(stats, user, today, activity), user, today - days, today, f)
         == WindowSum(stats, user, today - days, today, f) + f(Count(FreshDay(user, today), activity))
  {
    var r := RecordActivity(stats, user, today, activity);
    RecordActivityRows(stats, user, today, activity);
    assert r == stats + [Count(FreshDay(user, today), activity)];
    CountSpec(FreshDay(user, today), activity);
    WindowSumSnoc(stats, Count(FreshDay(user, today), activity), user, today - days, today, f);
  }

  /**
   * A recorded activity dated inside the window moves the window's total of the
   * matching counter by one and no other total, and adds an active day exactly
   * when the day had no row yet.
   */
  lemma RecordActivityWindow(stats: seq<DailyStat>, user: int, today: int, days: nat, activity: string)
    requires StatsUnique(stats)
    ensures var r := RecordActivity(stats, user, today, activity);
      && WindowSum(r, user, today - days, today, CreatedOf) == WindowSum(stats, user, today - days, today, CreatedOf) + Added(activity, "task_created")
      && WindowSum(r, user, today - days, today, CompletedOf) == WindowSum(stats, user, today - days, today, CompletedOf) + Added(activity, "task_completed")
      && WindowSum(r, user, today - days, today, DeletedOf) == WindowSum(stats, user, today - days, today, DeletedOf) + Added(activity, "task_deleted")
      && WindowSum(r, user, today - days, today, One) == WindowSum(stats, user, today - days, today, One) + (if HasDay(stats, user, today) then 0 else 1)
  {
    if HasDay(stats, user, today) {
      var k :| 0 <= k < |stats| && SameDay(stats[k], user, today);
      CountSpec(stats[k], activity);
      RecordWindowExisting(stats, user, today, days, activity, k, CreatedOf);
      RecordWindowExisting(stats, user, today, days, activity, k, CompletedOf);
      RecordWindowExisting(stats, user, today, days, activity, k, DeletedOf);
      RecordWindowExisting(stats, user, today, days, activity, k, One);
    } else {
      CountSpec(FreshDay(user, today), activity);
      RecordWindowNew(stats, user, today, days, activity, CreatedOf);
      RecordWindowNew(stats, user, today, days, activity, CompletedOf);
      RecordWindowNew(stats, user, today, days, activity, DeletedOf);
      RecordWindowNew(stats, user, today, days, activity, One);
    }
  }

  /** The dictionary get_user_statistics returns, with the average kept as its doubled sum. */
  datatype UserStatistics = UserStatistics(
    totalCreated: int,
    totalCompleted: int,
    totalDeleted: int,
    scoreTotal2: int,
    activeDays: nat,
    openTasks: nat,
    topCategories: seq<(string, nat)>)

  function DonePred(user: int): Task -> bool
  {
    (t: Task) => t.owner == user && t.status == Done
  }

  /** The user's finished rows, in table order. */
  function DoneOf(tasks: seq<Task>, user: int): seq<Task>
  {
    Filter(tasks, DonePred(user))
  }

  /** ORDER BY count DESC. */
  function CountKey(e: (string, nat)): SortKey
  {
    SortKey("", -(e.1 as int))
  }

  /**
   * SELECT category, COUNT(*) FROM tasks WHERE user_id = ? AND status = 'done'
   * GROUP BY category ORDER BY count DESC LIMIT 5
   */
  function TopCategories(tasks: seq<Task>, user: int): seq<(string, nat)>
  {
    Take(Ranked(DoneOf(tasks, user)), 5)
  }

  /** get_user_statistics over the window [today - days, today], both ends included. */
  function GetUserStatistics(stats: seq<DailyStat>, tasks: seq<Task>, user: int, today: int, days: int): UserStatistics
  {
    var from := today - days;
    UserStatistics(
      WindowSum(stats, user, from, today, CreatedOf),
      WindowSum(stats, user, from, today, CompletedOf),
      WindowSum(stats, user, from, today, DeletedOf),
      WindowSum(stats, user, from, today, ScoreOf),
      |WindowDates(stats, user, from, today)|,
      |OpenOf(tasks, user)|,
      TopCategories(tasks, user))
  }

  /** AVG(productivity_score) over the window's rows, or 0 when there are none. */
  function AvgProductivity(st: UserStatistics): (r: real)
    ensures st.activeDays == 0 ==> r == 0.0
    ensures st.activeDays > 0 ==> r * 2.0 * (st.activeDays as real) == st.scoreTotal2 as real
  {
    if st.activeDays == 0 then 0.0 else st.scoreTotal2 as real / 2.0 / st.activeDays as real
  }

  /** completed / created * 100 when something was created, else 0. */
  function CompletionRate(st: UserStatistics): (r: real)
    ensures st.totalCreated <= 0 ==> r == 0.0
    ensures st.totalCreated > 0 ==> r * st.totalCreated as real == st.totalCompleted as real * 100.0
  {
    if st.totalCreated > 0 then st.totalCompleted as real / st.totalCreated as real * 100.0 else 0.0
  }

  /** A set of rows listed in the ranking. */
  predicate Listed(top: seq<(string, nat)>, c: string)
  {
    exists i :: 0 <= i < |top| && top[i].0 == c
  }

  /** The categories of `ts` with their counts, by non-increasing count. */
  function Ranked(ts: seq<Task>): seq<(string, nat)>
  {
    SortBy(GroupCounts(ts), CountKey)
  }

  lemma RankedOrder(ts: seq<Task>)
    ensures var s := Ranked(ts);
      forall i, j :: 0 <= i < j < |s| ==> s[i].1 >= s[j].1
  {
    var s := Ranked(ts);
    SortBySorted(GroupCounts(ts), CountKey);
    StrLessIrreflexive("");
    forall i, j | 0 <= i < j < |s| ensures s[i].1 >= s[j].1 {
      assert KeyLe(CountKey(s[i]), CountKey(s[j]));
    }
  }

  lemma RankedEntries(ts: seq<Task>)
    ensures var s := Ranked(ts);
      forall i :: 0 <= i < |s| ==> s[i].1 == CountIn(ts, s[i].0) > 0
  {
    var g := GroupCounts(ts);
    var s := Ranked(ts);
    GroupCountsEntries(ts);
    forall i | 0 <= i < |s| ensures s[i].1 == CountIn(ts, s[i].0) > 0 {
      assert s[i] in multiset(g);
    }
  }

  lemma RankedDistinct(ts: seq<Task>)
    ensures var s := Ranked(ts);
      forall i, j :: 0 <= i < j < |s| ==> s[i].0 != s[j].0
  {
    var g := GroupCounts(ts);
    var s := Ranked(ts);
    GroupCountsOrdered(ts);
    RankedEntries(ts);
    assert Distinct(g) by {
      forall i, j | 0 <= i < j < |g| ensures g[i] != g[j] {
        StrLessIrreflexive(g[i].0);
      }
    }
    DistinctPermutation(g, s);
  }

  lemma RankedCovers(ts: seq<Task>)
    ensures var s := Ranked(ts);
      forall k :: 0 <= k < |ts| ==> exists j :: 0 <= j < |s| && s[j].0 == ts[k].category
  {
    var g := GroupCounts(ts);
    var s := Ranked(ts);
    GroupCountsCovers(ts);
    forall k | 0 <= k < |ts| ensures exists j :: 0 <= j < |s| && s[j].0 == ts[k].category {
      var i :| 0 <= i < |g| && g[i].0 == ts[k].category;
      assert g[i] in multiset(s);
      var j :| 0 <= j < |s| && s[j] == g[i];
    }
  }

  /** A row inside a prefix of the ranking is listed in it. */
  lemma ListedWithin(top: seq<(string, nat)>, s: seq<(string, nat)>, j: nat)
    requires |top| <= |s| && top == s[..|top|] && j < |s|
    ensures j < |top| ==> Listed(top, s[j].0)
  {
    if j < |top| {
      assert top[j] == s[j];
    }
  }

  /** A category missing from the first five ranks no higher than the fifth. */
  lemma RankedLeftOut(ts: seq<Task>, k: nat)
    requires k < |ts| && !Listed(Take(Ranked(ts), 5), ts[k].category)
    ensures |Take(Ranked(ts), 5)| == 5 && CountIn(ts, ts[k].category) <= Ranked(ts)[4].1
  {
    var s := Ranked(ts);
    var r := Take(s, 5);
    RankedCovers(ts);
    var j :| 0 <= j < |s| && s[j].0 == ts[k].category;
    ListedWithin(r, s, j);
    RankedOrder(ts);
    RankedEntries(ts);
    assert s[4].1 >= s[j].1;
  }

  /**
   * The ranking holds at most five categories of the user's finished tasks, each
   * once with its number of finished tasks, by non-increasing count; a category
   * left out ranks no higher than the fifth, and the first has the most.
   */
  lemma TopCategoriesSpec(tasks: seq<Task>, user: int)
    ensures var done := DoneOf(tasks, user);
      var r := TopCategories(tasks, user);
      && |r| <= 5
      && (forall i, j :: 0 <= i < j < |r| ==> r[i].1 >= r[j].1)
      && (forall i :: 0 <= i < |r| ==> r[i].1 == CountIn(done, r[i].0) > 0)
      && (forall i, j :: 0 <= i < j < |r| ==> r[i].0 != r[j].0)
      && (forall k :: 0 <= k < |done| && !Listed(r, done[k].category) ==> |r| == 5 && CountIn(done, done[k].category) <= r[4].1)
      && (forall k :: 0 <= k < |done| ==> |r| > 0 && CountIn(done, done[k].category) <= r[0].1)
  {
    var done := DoneOf(tasks, user);
    TopRowsSpec(done);
    TopLeftOutSpec(done);
  }

  /** The first five ranked rows: ordered by count, each with its count, no category twice. */
  lemma TopRowsSpec(ts: seq<Task>)
    ensures var r := Take(Ranked(ts), 5);
      && |r| <= 5
      && (forall i, j :: 0 <= i < j < |r| ==> r[i].1 >= r[j].1)
      && (forall i :: 0 <= i < |r| ==> r[i].1 == CountIn(ts, r[i].0) > 0)
      && (forall i, j :: 0 <= i < j < |r| ==> r[i].0 != r[j].0)
  {
    var s := Ranked(ts);
    var r := Take(s, 5);
    assert forall i :: 0 <= i < |r| ==> r[i] == s[i];
    RankedOrder(ts);
    RankedEntries(ts);
    RankedDistinct(ts);
  }

  /** Against the first five ranked rows: an unlisted category ranks no higher than the fifth, and none beats the first. */
  lemma TopLeftOutSpec(ts: seq<Task>)
    ensures var r := Take(Ranked(ts), 5);
      && (forall k :: 0 <= k < |ts| && !Listed(r, ts[k].category) ==> |r| == 5 && CountIn(ts, ts[k].category) <= r[4].1)
      && (forall k :: 0 <= k < |ts| ==> |r| > 0 && CountIn(ts, ts[k].category) <= r[0].1)
  {
    var s := Ranked(ts);
    var r := Take(s, 5);
    forall k | 0 <= k < |ts| && !Listed(r, ts[k].category)
      ensures |r| == 5 && CountIn(ts, ts[k].category) <= r[4].1
    {
      RankedLeftOut(ts, k);
    }
    forall k | 0 <= k < |ts| ensures |r| > 0 && CountIn(ts, ts[k].category) <= r[0].1 {
      RankedFirstMost(ts, k);
      assert r[0] == s[0];
    }
  }

  /** No category has more finished tasks than the first in the ranking. */
  lemma RankedFirstMost(ts: seq<Task>, k: nat)
    requires k < |ts|
    ensures |Ranked(ts)| > 0 && CountIn(ts, ts[k].category) <= Ranked(ts)[0].1
  {
    var s := Ranked(ts);
    RankedCovers(ts);
    var j :| 0 <= j < |s| && s[j].0 == ts[k].category;
    RankedOrder(ts);
    RankedEntries(ts);
    assert s[0].1 >= s[j].1;
  }

  // ---------------------------------------------------------------------------
  // get_motivational_message (enhanced_features.py:265-282)

  /** The message bands; each but the first also quotes the number of tasks completed. */
  datatype Motivation = Starter | Champion(completed: int, rate: real) | GoodWork(completed: int) | OnTrack(completed: int) | Restart(completed: int)

  /** The if-chain over the window's statistics. */
  function MotivationFor(st: UserStatistics): Motivation
  {
    var rate := CompletionRate(st);
    if st.totalCompleted == 0 then Starter
    else if rate >= 80.0 then Champion(st.totalCompleted, rate)
    else if rate >= 60.0 then GoodWork(st.totalCompleted)
    else if rate >= 40.0 then OnTrack(st.totalCompleted)
    else Restart(st.totalCompleted)
  }

  /** get_motivational_message: the band for the last seven days. */
  function MotivationalMessage(stats: seq<DailyStat>, tasks: seq<Task>, user: int, today: int): Motivation
  {
    MotivationFor(GetUserStatistics(stats, tasks, user, today, 7))
  }

  lemma RateAtLeast(rate: real, created: real, completed100: real, bound: real)
    requires created > 0.0 && rate * created == completed100
    ensures rate >= bound <==> completed100 >= bound * created
  {
    if rate >= bound {
      assert (rate - bound) * created >= 0.0;
    } else {
      assert (bound - rate) * created > 0.0;
    }
  }

  /**
   * The bands in whole numbers: with nothing completed the starter message;
   * otherwise the rate is at least 80, 60 or 40 percent exactly when 100 times
   * the completed count reaches 80, 60 or 40 times the created count, and a
   * window with nothing created falls in the lowest band.
   */
  lemma MotivationByCounts(st: UserStatistics)
    ensures var m := MotivationFor(st);
      var c := st.totalCreated;
      var d := st.totalCompleted;
      && (d == 0 <==> m == Starter)
      && (m.Champion? <==> d != 0 && c > 0 && 100 * d >= 80 * c)
      && (m.GoodWork? <==> d != 0 && c > 0 && 80 * c > 100 * d >= 60 * c)
      && (m.OnTrack? <==> d != 0 && c > 0 && 60 * c > 100 * d >= 40 * c)
      && (m.Restart? <==> d != 0 && (c <= 0 || 40 * c > 100 * d))
  {
    var rate := CompletionRate(st);
    var c := st.totalCreated;
    var d := st.totalCompleted;
    if c > 0 {
      RateAtLeast(rate, c as real, d as real * 100.0, 80.0);
      RateAtLeast(rate, c as real, d as real * 100.0, 60.0);
      RateAtLeast(rate, c as real, d as real * 100.0, 40.0);
    }
  }
}
