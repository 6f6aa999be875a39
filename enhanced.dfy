/**
 * EnhancedTodoBot (enhanced_features.py) as an object over the shared Database:
 * recording an activity in daily_stats, adding a task together with its tags,
 * and the /stats report.
 */
module Enhanced {
  import opened Sequences
  import opened Schema
  import opened TaskQueries
  import opened Statistics
  import opened Tagging

  datatype Medal = Gold | Silver | Bronze

  /** One line of the top-categories block of /stats. */
  datatype PodiumLine = PodiumLine(medal: Medal, category: string, count: nat)

  /** The medal of the i-th line, counting from 0. */
  function MedalAt(i: nat): Medal
  {
    if i == 0 then Gold else if i == 1 then Silver else Bronze
  }

  /** The parts of the /stats reply: the 30-day statistics, the podium and the 7-day motivation. */
  datatype StatsReport = StatsReport(stats: UserStatistics, podium: seq<PodiumLine>, motivation: Motivation)

  class EnhancedTodoBot {
    /** The SQLite file it shares with the plain bot. */
    const db: Database

    /** The tables' constraints, and every stored productivity score in step with its counters. */
    ghost predicate Valid()
      reads db
    {
      db.Valid() && Scored(db.dailyStats)
    }

    /** __init__ (enhanced_features.py:23-24). */
    constructor (db: Database)
      requires db.Valid() && Scored(db.dailyStats)
      ensures Valid() && this.db == db
    {
      this.db := db;
    }

    /**
     * record_user_activity (enhanced_features.py:89-143): create the day's row if
     * missing, move the counter the activity names, recompute the day's score.
     */
    method RecordUserActivity(user: int, activity: string, today: int)
      requires Valid()
      modifies db
      ensures Valid()
      ensures db.dailyStats == RecordActivity(old(db.dailyStats), user, today, activity)
      ensures db.tasks == old(db.tasks) && db.lastTaskId == old(db.lastTaskId)
      ensures db.categories == old(db.categories) && db.taskTags == old(db.taskTags)
    {
      RecordActivityCounters(db.dailyStats, user, today, activity);
      RecordActivityScored(db.dailyStats, user, today, activity);
      db.dailyStats := OpenDay(db.dailyStats, user, today);
      if activity == "task_created" {
        db.dailyStats := BumpDay(db.dailyStats, user, today, Created);
      } else if activity == "task_completed" {
        db.dailyStats := BumpDay(db.dailyStats, user, today, Completed);
      } else if activity == "task_deleted" {
        db.dailyStats := BumpDay(db.dailyStats, user, today, Deleted);
      }
      db.dailyStats := RescoreDay(db.dailyStats, user, today);
    }

    /**
     * The tagging loop of add_task_with_tags (enhanced_features.py:358-366): each
     * tag stripped and lowered, an empty one skipped, the rest inserted with
     * INSERT OR IGNORE.
     */
    method InsertTags(id: int, tags: seq<string>)
      requires Valid() && id <= db.lastTaskId
      modifies db
      ensures Valid()
      ensures db.taskTags == TagRows(old(db.taskTags), id, tags)
      ensures db.tasks == old(db.tasks) && db.lastTaskId == old(db.lastTaskId)
      ensures db.categories == old(db.categories) && db.dailyStats == old(db.dailyStats)
    {
      var i := 0;
      while i < |tags|
        invariant 0 <= i <= |tags|
        invariant Valid()
        invariant db.taskTags == TagRows(old(db.taskTags), id, tags[..i])
        invariant db.tasks == old(db.tasks) && db.lastTaskId == old(db.lastTaskId)
        invariant db.categories == old(db.categories) && db.dailyStats == old(db.dailyStats)
      {
        var tag := NormalizeTag(tags[i]);
        if tag != [] {
          db.InsertTagOrIgnore(id, tag);
        }
        assert tags[..i + 1][..i] == tags[..i];
        i := i + 1;
      }
      assert tags[..|tags|] == tags;
    }

    /**
     * add_task_with_tags (enhanced_features.py:346-375): one new open task, its
     * tags stored in normal form (empty ones skipped, repeats ignored), and one
     * task_created recorded. A missing tag list is the empty one.
     */
    method AddTaskWithTags(user: int, content: string, category: string, tags: seq<string>, today: int) returns (id: int)
      requires Valid()
      modifies db
      ensures Valid()
      ensures id == old(db.lastTaskId) + 1 && db.lastTaskId == id
      ensures db.tasks == old(db.tasks) + [Task(id, user, content, category, Open)]
      ensures db.taskTags == TagRows(old(db.taskTags), id, tags)
      ensures forall name :: HasTag(db.taskTags, id, name) <==> name != [] && exists k :: 0 <= k < |tags| && name == NormalizeTag(tags[k])
      ensures db.dailyStats == RecordActivity(old(db.dailyStats), user, today, "task_created")
      ensures db.categories == old(db.categories)
    {
      ghost var oldTags := db.taskTags;
      id := db.InsertTask(user, content, category);
      assert TagsWellFormed(oldTags, id);
      if tags != [] {
        InsertTags(id, tags);
      }
      FreshTaskTags(oldTags, id, id, tags);
      RecordUserActivity(user, "task_created", today);
    }

    /**
     * stats_command (enhanced_features.py:284-323): the 30-day statistics, the
     * first three ranked categories with their medals, and the 7-day motivation.
     */
    method StatsCommand(user: int, today: int) returns (report: StatsReport)
      ensures report.stats == GetUserStatistics(db.dailyStats, db.tasks, user, today, 30)
      ensures report.motivation == MotivationalMessage(db.dailyStats, db.tasks, user, today)
      ensures var top := report.stats.topCategories;
        && |report.podium| == (if |top| < 3 then |top| else 3)
        && (forall i :: 0 <= i < |report.podium| ==> report.podium[i] == PodiumLine(MedalAt(i), top[i].0, top[i].1))
      ensures forall i, j :: 0 <= i < j < |report.podium| ==> report.podium[i].count >= report.podium[j].count
      ensures forall k :: 0 <= k < |DoneOf(db.tasks, user)| ==>
        |report.podium| > 0 && CountIn(DoneOf(db.tasks, user), DoneOf(db.tasks, user)[k].category) <= report.podium[0].count
    {
      var stats := GetUserStatistics(db.dailyStats, db.tasks, user, today, 30);
      var podium := Podium(stats.topCategories);
      PodiumRanked(db.tasks, user, podium);
      report := StatsReport(stats, podium, MotivationalMessage(db.dailyStats, db.tasks, user, today));
    }
  }

  /** The medal lines of stats_command (enhanced_features.py:304-311): the first three categories, gold first. */
  method Podium(top: seq<(string, nat)>) returns (podium: seq<PodiumLine>)
    ensures |podium| == (if |top| < 3 then |top| else 3)
    ensures forall i :: 0 <= i < |podium| ==> podium[i] == PodiumLine(MedalAt(i), top[i].0, top[i].1)
  {
    var n := if |top| < 3 then |top| else 3;
    podium := [];
    var i := 0;
    while i < n
      invariant 0 <= i <= n <= |top|
      invariant |podium| == i
      invariant forall k :: 0 <= k < i ==> podium[k] == PodiumLine(MedalAt(k), top[k].0, top[k].1)
    {
      var medal := if i == 0 then Gold else if i == 1 then Silver else Bronze;
      podium := podium + [PodiumLine(medal, top[i].0, top[i].1)];
      i := i + 1;
    }
  }

  /**
   * Lines copied from the head of the ranked categories keep their order, and
   * the first one holds the largest done count.
   */
  lemma PodiumRanked(tasks: seq<Task>, user: int, podium: seq<PodiumLine>)
    requires var top := TopCategories(tasks, user);
      && |podium| == (if |top| < 3 then |top| else 3)
      && forall i :: 0 <= i < |podium| ==> podium[i] == PodiumLine(MedalAt(i), top[i].0, top[i].1)
    ensures forall i, j :: 0 <= i < j < |podium| ==> podium[i].count >= podium[j].count
    ensures forall k :: 0 <= k < |DoneOf(tasks, user)| ==>
      |podium| > 0 && CountIn(DoneOf(tasks, user), DoneOf(tasks, user)[k].category) <= podium[0].count
  {
    TopCategoriesSpec(tasks, user);
  }
}
