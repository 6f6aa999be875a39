/**
 * The bot's SQLite file: the rows of the tasks, categories, task_tags and
 * daily_stats tables, the constraints SQLite enforces on them (AUTOINCREMENT ids,
 * UNIQUE keys), and the single SQL statements that change them. The bot and its
 * statistics add-on open the same file, so both work on one Database object.
 */
module Schema {
  import opened Sequences

  datatype Status = Open | Done

  /**
   * A row of `tasks` (main.py:44-54). The id comes from AUTOINCREMENT; rows are
   * kept in insertion order, so the id also orders them by created_at.
   */
  datatype Task = Task(id: int, owner: int, content: string, category: string, status: Status)

  /** A row of `categories` (main.py:57-66); owner 0 holds the global defaults. */
  datatype Category = Category(owner: int, name: string, emoji: string)

  /** A row of `task_tags` (enhanced_features.py:62-70). */
  datatype TaskTag = TaskTag(taskId: int, tagName: string)

  /**
   * A row of `daily_stats` (enhanced_features.py:32-44). The date is a day
   * number and the productivity score is stored doubled, so that it stays an integer.
   */
  datatype DailyStat = DailyStat(owner: int, date: int, created: nat, completed: nat, deleted: nat, score2: int)

  /** The owner id of the global default categories. */
  const GlobalOwner: int := 0

  /** The emoji column's default (main.py:62) and the display fallback (main.py:314). */
  const DefaultEmoji: string := "\U{1F4C2}"

  function TaskId(t: Task): int
  {
    t.id
  }

  /** AUTOINCREMENT: every id lies in 1..lastId and ids grow along the table. */
  ghost predicate TasksWellFormed(tasks: seq<Task>, lastId: nat)
  {
    && (forall i :: 0 <= i < |tasks| ==> 1 <= tasks[i].id <= lastId)
    && StrictlyIncreasing(tasks, TaskId)
  }

  predicate HasCategory(cats: seq<Category>, owner: int, name: string)
  {
    exists i :: 0 <= i < |cats| && cats[i].owner == owner && cats[i].name == name
  }

  /** UNIQUE(user_id, name). */
  ghost predicate CategoriesUnique(cats: seq<Category>)
  {
    forall i, j :: 0 <= i < j < |cats| ==> cats[i].owner != cats[j].owner || cats[i].name != cats[j].name
  }

  predicate HasTag(tags: seq<TaskTag>, taskId: int, name: string)
  {
    exists i :: 0 <= i < |tags| && tags[i].taskId == taskId && tags[i].tagName == name
  }

  /**
   * UNIQUE(task_id, tag_name), and every tag names an id that was handed out.
   * Foreign keys are never switched on, so tags of deleted tasks stay behind.
   */
  ghost predicate TagsWellFormed(tags: seq<TaskTag>, lastId: nat)
  {
    && (forall i :: 0 <= i < |tags| ==> tags[i].taskId <= lastId)
    && (forall i, j :: 0 <= i < j < |tags| ==> tags[i].taskId != tags[j].taskId || tags[i].tagName != tags[j].tagName)
  }

  /** UNIQUE(user_id, date). */
  ghost predicate StatsUnique(stats: seq<DailyStat>)
  {
    forall i, j :: 0 <= i < j < |stats| ==> stats[i].owner != stats[j].owner || stats[i].date != stats[j].date
  }

  predicate Matches(t: Task, id: int, owner: int)
  {
    t.id == id && t.owner == owner
  }

  predicate AnyMatch(tasks: seq<Task>, id: int, owner: int)
  {
    exists i :: 0 <= i < |tasks| && Matches(tasks[i], id, owner)
  }

  /** UPDATE tasks SET status = ? WHERE id = ? AND user_id = ? */
  function SetStatus(tasks: seq<Task>, id: int, owner: int, status: Status): (r: seq<Task>)
    ensures |r| == |tasks|
    ensures forall i :: 0 <= i < |tasks| ==> r[i] == if Matches(tasks[i], id, owner) then tasks[i].(status := status) else tasks[i]
  {
    seq(|tasks|, i requires 0 <= i < |tasks| => if Matches(tasks[i], id, owner) then tasks[i].(status := status) else tasks[i])
  }

  /**
   * Setting the same status twice: the second UPDATE still matches the row (so
   * it reports success) and changes nothing further.
   */
  lemma SetStatusAgain(tasks: seq<Task>, id: int, owner: int, status: Status)
    ensures AnyMatch(SetStatus(tasks, id, owner, status), id, owner) == AnyMatch(tasks, id, owner)
    ensures SetStatus(SetStatus(tasks, id, owner, status), id, owner, status) == SetStatus(tasks, id, owner, status)
  {
    var once := SetStatus(tasks, id, owner, status);
    if AnyMatch(tasks, id, owner) {
      var i :| 0 <= i < |tasks| && Matches(tasks[i], id, owner);
      assert Matches(once[i], id, owner);
    }
    if AnyMatch(once, id, owner) {
      var i :| 0 <= i < |once| && Matches(once[i], id, owner);
      assert Matches(tasks[i], id, owner);
    }
  }

  /** DELETE FROM tasks WHERE id = ? AND user_id = ? */
  function RemoveTask(tasks: seq<Task>, id: int, owner: int): seq<Task>
  {
    Filter(tasks, t => !Matches(t, id, owner))
  }

  class Database {
    var tasks: seq<Task>
    /** The sqlite_sequence entry of `tasks`: the largest id ever handed out. */
    var lastTaskId: nat
    var categories: seq<Category>
    var taskTags: seq<TaskTag>
    var dailyStats: seq<DailyStat>

    ghost predicate Valid()
      reads this
    {
      && TasksWellFormed(tasks, lastTaskId)
      && CategoriesUnique(categories)
      && TagsWellFormed(taskTags, lastTaskId)
      && StatsUnique(dailyStats)
    }

    /** A freshly created file: every table empty. */
    constructor ()
      ensures Valid()
      ensures tasks == [] && categories == [] && taskTags == [] && dailyStats == [] && lastTaskId == 0
    {
      tasks, lastTaskId, categories, taskTags, dailyStats := [], 0, [], [], [];
    }

    /**
     * INSERT INTO tasks (user_id, content, category) VALUES (?, ?, ?), then
     * cursor.lastrowid: a new open row whose id no row has ever had.
     */
    method InsertTask(owner: int, content: string, category: string) returns (id: int)
      requires Valid()
      modifies this
      ensures Valid()
      ensures id == old(lastTaskId) + 1 && lastTaskId == id
      ensures tasks == old(tasks) + [Task(id, owner, content, category, Open)]
      ensures forall i :: 0 <= i < |old(tasks)| ==> old(tasks)[i].id < id
      ensures categories == old(categories) && taskTags == old(taskTags) && dailyStats == old(dailyStats)
    {
      id := lastTaskId + 1;
      tasks := tasks + [Task(id, owner, content, category, Open)];
      lastTaskId := id;
    }

    /**
     * INSERT INTO categories under UNIQUE(user_id, name): the row goes in when
     * no row has the same owner and name; otherwise IntegrityError and nothing changes.
     */
    method InsertCategory(owner: int, name: string, emoji: string) returns (inserted: bool)
      requires Valid()
      modifies this
      ensures Valid()
      ensures inserted <==> !HasCategory(old(categories), owner, name)
      ensures categories == if inserted then old(categories) + [Category(owner, name, emoji)] else old(categories)
      ensures tasks == old(tasks) && lastTaskId == old(lastTaskId)
      ensures taskTags == old(taskTags) && dailyStats == old(dailyStats)
    {
      inserted := !HasCategory(categories, owner, name);
      if inserted {
        categories := categories + [Category(owner, name, emoji)];
      }
    }

    /** UPDATE ... WHERE id = ? AND user_id = ?; the result is `cursor.rowcount > 0`. */
    method UpdateTaskStatus(id: int, owner: int, status: Status) returns (matched: bool)
      requires Valid()
      modifies this
      ensures Valid()
      ensures matched <==> AnyMatch(old(tasks), id, owner)
      ensures tasks == SetStatus(old(tasks), id, owner, status)
      ensures lastTaskId == old(lastTaskId) && categories == old(categories)
      ensures taskTags == old(taskTags) && dailyStats == old(dailyStats)
    {
      matched := AnyMatch(tasks, id, owner);
      tasks := SetStatus(tasks, id, owner, status);
    }

    /** DELETE ... WHERE id = ? AND user_id = ?; tags stay, as no foreign keys are enforced. */
    method DeleteTask(id: int, owner: int) returns (matched: bool)
      requires Valid()
      modifies this
      ensures Valid()
      ensures matched <==> AnyMatch(old(tasks), id, owner)
      ensures tasks == RemoveTask(old(tasks), id, owner)
      ensures lastTaskId == old(lastTaskId) && categories == old(categories)
      ensures taskTags == old(taskTags) && dailyStats == old(dailyStats)
    {
      matched := AnyMatch(tasks, id, owner);
      FilterIncreasing(tasks, t => !Matches(t, id, owner), TaskId);
      tasks := RemoveTask(tasks, id, owner);
    }

    /** INSERT OR IGNORE INTO task_tags (task_id, tag_name). */
    method InsertTagOrIgnore(taskId: int, name: string)
      requires Valid() && taskId <= lastTaskId
      modifies this
      ensures Valid()
      ensures taskTags == if HasTag(old(taskTags), taskId, name) then old(taskTags) else old(taskTags) + [TaskTag(taskId, name)]
      ensures tasks == old(tasks) && lastTaskId == old(lastTaskId)
      ensures categories == old(categories) && dailyStats == old(dailyStats)
    {
      if !HasTag(taskTags, taskId, name) {
        taskTags := taskTags + [TaskTag(taskId, name)];
      }
    }
  }
}
