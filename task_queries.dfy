/**
 * The SELECT statements of main.py's store, as functions of the table contents:
 * the categories a user sees, the task lists with their ORDER BY, and the
 * per-category count of open tasks.
 */
module TaskQueries {
  import opened Wrappers
  import opened Text
  import opened Sequences
  import opened Schema

  function NameKey(c: Category): SortKey
  {
    SortKey(c.name, 0)
  }

  /** ORDER BY category, created_at DESC */
  function TaskKey(t: Task): SortKey
  {
    SortKey(t.category, -t.id)
  }

  function TextKey(s: string): SortKey
  {
    SortKey(s, 0)
  }

  /** get_user_categories (main.py:85-98): the user's rows and the global rows, ORDER BY name. */
  function UserCategories(cats: seq<Category>, user: int): seq<Category>
  {
    SortBy(Filter(cats, (c: Category) => c.owner == user || c.owner == GlobalOwner), NameKey)
  }

  /** Exactly the user's own and the global categories, each once, sorted by name. */
  lemma UserCategoriesSpec(cats: seq<Category>, user: int)
    ensures SortedBy(UserCategories(cats, user), NameKey)
    ensures forall c :: c in UserCategories(cats, user) <==> c in cats && (c.owner == user || c.owner == GlobalOwner)
    ensures forall c :: multiset(UserCategories(cats, user))[c] == if c.owner == user || c.owner == GlobalOwner then multiset(cats)[c] else 0
  {
    var p := (c: Category) => c.owner == user || c.owner == GlobalOwner;
    SortBySorted(Filter(cats, p), NameKey);
    FilterMultiset(cats, p);
    forall c ensures c in UserCategories(cats, user) <==> c in cats && p(c) {
      assert c in UserCategories(cats, user) <==> c in multiset(UserCategories(cats, user));
      assert c in cats <==> c in multiset(cats);
    }
  }

  /** Python's `if category:`: None and the empty string both mean "no category filter". */
  predicate HasCategoryFilter(category: Option<string>)
  {
    category.Some? && category.value != ""
  }

  predicate Selected(t: Task, user: int, category: Option<string>, status: Status)
  {
    t.owner == user && t.status == status && (HasCategoryFilter(category) ==> t.category == category.value)
  }

  /**
   * get_tasks (main.py:132-154). With a category: ORDER BY created_at DESC,
   * i.e. newest first; without one: ORDER BY category, created_at DESC.
   */
  function GetTasks(tasks: seq<Task>, user: int, category: Option<string>, status: Status): seq<Task>
  {
    var rows := Filter(tasks, t => Selected(t, user, category, status));
    if HasCategoryFilter(category) then Reverse(rows) else SortBy(rows, TaskKey)
  }

  /**
   * get_tasks returns exactly the selected rows, each once, newest first within
   * a category and grouped by category when no filter is given.
   */
  lemma GetTasksSpec(tasks: seq<Task>, lastId: nat, user: int, category: Option<string>, status: Status)
    requires TasksWellFormed(tasks, lastId)
    ensures var r := GetTasks(tasks, user, category, status);
      && (forall t :: t in r <==> t in tasks && Selected(t, user, category, status))
      && (forall i, j :: 0 <= i < j < |r| ==> r[i].id != r[j].id)
      && (HasCategoryFilter(category) ==> StrictlyDecreasing(r, TaskId))
      && (!HasCategoryFilter(category) ==> SortedBy(r, TaskKey))
  {
    var p := (t: Task) => Selected(t, user, category, status);
    var rows := Filter(tasks, p);
    FilterIncreasing(tasks, p, TaskId);
    if HasCategoryFilter(category) {
      NewestFirst(rows);
    } else {
      GroupedRows(rows);
    }
  }

  /** Rows in id order, reversed: newest first, ids distinct, the same rows. */
  lemma NewestFirst(rows: seq<Task>)
    requires StrictlyIncreasing(rows, TaskId)
    ensures var r := Reverse(rows);
      && StrictlyDecreasing(r, TaskId)
      && (forall i, j :: 0 <= i < j < |r| ==> r[i].id != r[j].id)
      && (forall t :: t in r <==> t in rows)
  {
    ReverseDecreasing(rows, TaskId);
    ReverseMultiset(rows);
    SameMembers(Reverse(rows), rows);
  }

  /** Rows in id order, sorted by category: ordered by the sort key, ids distinct, the same rows. */
  lemma GroupedRows(rows: seq<Task>)
    requires StrictlyIncreasing(rows, TaskId)
    ensures var r := SortBy(rows, TaskKey);
      && SortedBy(r, TaskKey)
      && (forall i, j :: 0 <= i < j < |r| ==> r[i].id != r[j].id)
      && (forall t :: t in r <==> t in rows)
  {
    var r := SortBy(rows, TaskKey);
    SortBySorted(rows, TaskKey);
    forall i, j | 0 <= i < j < |r| ensures r[i].id != r[j].id {
      DistinctIdsSurviveSort(rows, i, j);
    }
    SameMembers(r, rows);
  }

  /** Sequences with the same multiset hold the same elements. */
  lemma SameMembers<T>(a: seq<T>, b: seq<T>)
    requires multiset(a) == multiset(b)
    ensures forall t :: t in a <==> t in b
  {
    forall t ensures t in a <==> t in b {
      assert t in a <==> t in multiset(a);
      assert t in b <==> t in multiset(b);
    }
  }

  /** Sorting rows whose ids are distinct keeps the ids distinct. */
  lemma DistinctIdsSurviveSort(rows: seq<Task>, i: int, j: int)
    requires StrictlyIncreasing(rows, TaskId)
    requires 0 <= i < j < |SortBy(rows, TaskKey)|
    ensures SortBy(rows, TaskKey)[i].id != SortBy(rows, TaskKey)[j].id
  {
    var r := SortBy(rows, TaskKey);
    if r[i].id == r[j].id {
      assert r[i] in multiset(rows) && r[j] in multiset(rows);
      var a :| 0 <= a < |rows| && rows[a] == r[i];
      var b :| 0 <= b < |rows| && rows[b] == r[j];
      assert a == b;
      assert r[i] == r[j];
      DuplicateCount(r, i, j);
      UniqueIdsCount(rows, r[i]);
      assert false;
    }
  }

  lemma DuplicateCount<T>(s: seq<T>, i: int, j: int)
    requires 0 <= i < j < |s| && s[i] == s[j]
    ensures multiset(s)[s[i]] >= 2
  {
    assert s == s[..i] + [s[i]] + s[i + 1..j] + [s[j]] + s[j + 1..];
  }

  lemma {:induction false} UniqueIdsCount(rows: seq<Task>, t: Task)
    requires StrictlyIncreasing(rows, TaskId)
    ensures multiset(rows)[t] <= 1
  {
    if rows != [] {
      assert rows == [rows[0]] + rows[1..];
      UniqueIdsCount(rows[1..], t);
      if rows[0] == t {
        assert t !in rows[1..];
      }
    }
  }

  // ---------------------------------------------------------------------------
  // GROUP BY category

  /** The number of rows of `ts` in category `c`. */
  function CountIn(ts: seq<Task>, c: string): nat
  {
    if ts == [] then 0 else (if ts[0].category == c then 1 else 0) + CountIn(ts[1..], c)
  }

  predicate Distinct<T(==)>(s: seq<T>)
  {
    forall i, j :: 0 <= i < j < |s| ==> s[i] != s[j]
  }

  /** The distinct categories occurring in `ts`. */
  function CategoriesOf(ts: seq<Task>): (cs: seq<string>)
    ensures Distinct(cs)
    ensures forall i :: 0 <= i < |ts| ==> ts[i].category in cs
    ensures forall c :: c in cs ==> CountIn(ts, c) > 0
  {
    if ts == [] then []
    else
      var rest := CategoriesOf(ts[1..]);
      assert forall i :: 1 <= i < |ts| ==> ts[i] == ts[1..][i - 1];
      if ts[0].category in rest then rest else [ts[0].category] + rest
  }

  /** One (category, count) entry per category in `cs`. */
  function Tally(cs: seq<string>, ts: seq<Task>): (r: seq<(string, nat)>)
    ensures |r| == |cs|
    ensures forall i :: 0 <= i < |cs| ==> r[i] == (cs[i], CountIn(ts, cs[i]))
  {
    if cs == [] then [] else [(cs[0], CountIn(ts, cs[0]))] + Tally(cs[1..], ts)
  }

  /** SELECT category, COUNT(*) ... GROUP BY category ORDER BY category, over the rows `ts`. */
  function GroupCounts(ts: seq<Task>): seq<(string, nat)>
  {
    Tally(SortBy(CategoriesOf(ts), TextKey), ts)
  }

  /** get_task_summary (main.py:187-205): the user's open tasks counted per category. */
  function Summary(tasks: seq<Task>, user: int): seq<(string, nat)>
  {
    GroupCounts(OpenOf(tasks, user))
  }

  function OpenPred(user: int): Task -> bool
  {
    (t: Task) => t.owner == user && t.status == Open
  }

  /** The user's open rows, in table order. */
  function OpenOf(tasks: seq<Task>, user: int): seq<Task>
  {
    Filter(tasks, OpenPred(user))
  }

  function SumCounts(es: seq<(string, nat)>): nat
  {
    if es == [] then 0 else es[0].1 + SumCounts(es[1..])
  }

  lemma {:induction false} SumCountsSnoc(es: seq<(string, nat)>, i: nat)
    requires i < |es|
    ensures SumCounts(es[..i + 1]) == SumCounts(es[..i]) + es[i].1
  {
    if i > 0 {
      assert es[..i + 1][1..] == es[1..][..i];
      assert es[..i][1..] == es[1..][..i - 1];
      SumCountsSnoc(es[1..], i - 1);
    }
  }

  /** The summary is empty exactly when the user has no open task (the guard of main.py:301 and main.py:541). */
  lemma SummaryEmpty(tasks: seq<Task>, user: int)
    ensures Summary(tasks, user) == [] <==> OpenOf(tasks, user) == []
  {
    GroupCountsTotal(OpenOf(tasks, user));
  }

  /** How often `x` occurs in `cs`. */
  function Occurrences(cs: seq<string>, x: string): nat
  {
    if cs == [] then 0 else (if cs[0] == x then 1 else 0) + Occurrences(cs[1..], x)
  }

  lemma {:induction false} OccurrencesDistinct(cs: seq<string>, x: string)
    requires Distinct(cs) && x in cs
    ensures Occurrences(cs, x) == 1
  {
    if cs[0] == x {
      OccurrencesAbsent(cs[1..], x);
    } else {
      OccurrencesDistinct(cs[1..], x);
    }
  }

  lemma {:induction false} OccurrencesAbsent(cs: seq<string>, x: string)
    requires x !in cs
    ensures Occurrences(cs, x) == 0
  {
    if cs != [] {
      OccurrencesAbsent(cs[1..], x);
    }
  }

  lemma {:induction false} TallyCons(cs: seq<string>, t: Task, ts: seq<Task>)
    ensures SumCounts(Tally(cs, [t] + ts)) == Occurrences(cs, t.category) + SumCounts(Tally(cs, ts))
  {
    if cs != [] {
      assert ([t] + ts)[1..] == ts;
      TallyCons(cs[1..], t, ts);
    }
  }

  /** Counting every row once per distinct category accounts for every row. */
  lemma {:induction false} TallyTotal(cs: seq<string>, ts: seq<Task>)
    requires Distinct(cs)
    requires forall i :: 0 <= i < |ts| ==> ts[i].category in cs
    ensures SumCounts(Tally(cs, ts)) == |ts|
  {
    if ts == [] {
      TallyEmpty(cs);
    } else {
      assert ts == [ts[0]] + ts[1..];
      TallyCons(cs, ts[0], ts[1..]);
      OccurrencesDistinct(cs, ts[0].category);
      TallyTotal(cs, ts[1..]);
    }
  }

  lemma {:induction false} TallyEmpty(cs: seq<string>)
    ensures SumCounts(Tally(cs, [])) == 0
  {
    if cs != [] {
      TallyEmpty(cs[1..]);
    }
  }

  lemma DistinctPermutation<T>(a: seq<T>, b: seq<T>)
    requires Distinct(a) && multiset(a) == multiset(b)
    ensures Distinct(b)
  {
    forall i, j | 0 <= i < j < |b| ensures b[i] != b[j] {
      if b[i] == b[j] {
        DuplicateCount(b, i, j);
        DistinctCount(a, b[i]);
      }
    }
  }

  lemma {:induction false} DistinctCount<T>(s: seq<T>, x: T)
    requires Distinct(s)
    ensures multiset(s)[x] <= 1
  {
    if s != [] {
      assert s == [s[0]] + s[1..];
      DistinctCount(s[1..], x);
    }
  }

  /** The grouped categories come out in strictly ascending order, each once. */
  lemma GroupCountsOrdered(ts: seq<Task>)
    ensures var g := GroupCounts(ts);
      forall i, j :: 0 <= i < j < |g| ==> StrLess(g[i].0, g[j].0)
  {
    var cs := CategoriesOf(ts);
    var sorted := SortBy(cs, TextKey);
    SortBySorted(cs, TextKey);
    DistinctPermutation(cs, sorted);
    var g := GroupCounts(ts);
    forall i, j | 0 <= i < j < |g| ensures StrLess(g[i].0, g[j].0) {
      assert KeyLe(TextKey(sorted[i]), TextKey(sorted[j]));
    }
  }

  /** Every entry names a category that occurs in the rows, with its number of rows. */
  lemma GroupCountsEntries(ts: seq<Task>)
    ensures var g := GroupCounts(ts);
      forall i :: 0 <= i < |g| ==> g[i].1 == CountIn(ts, g[i].0) > 0
  {
    var cs := CategoriesOf(ts);
    var sorted := SortBy(cs, TextKey);
    forall i | 0 <= i < |sorted| ensures CountIn(ts, sorted[i]) > 0 {
      assert sorted[i] in multiset(cs);
    }
  }

  /** Every category that occurs in the rows has an entry. */
  lemma GroupCountsCovers(ts: seq<Task>)
    ensures var g := GroupCounts(ts);
      forall k :: 0 <= k < |ts| ==> exists i :: 0 <= i < |g| && g[i].0 == ts[k].category
  {
    var cs := CategoriesOf(ts);
    var sorted := SortBy(cs, TextKey);
    var g := GroupCounts(ts);
    forall k | 0 <= k < |ts| ensures exists i :: 0 <= i < |g| && g[i].0 == ts[k].category {
      assert ts[k].category in multiset(sorted);
      var i :| 0 <= i < |sorted| && sorted[i] == ts[k].category;
      assert g[i].0 == ts[k].category;
    }
  }

  /** The counts add up to the number of rows grouped. */
  lemma GroupCountsTotal(ts: seq<Task>)
    ensures SumCounts(GroupCounts(ts)) == |ts|
  {
    var cs := CategoriesOf(ts);
    var sorted := SortBy(cs, TextKey);
    DistinctPermutation(cs, sorted);
    forall k | 0 <= k < |ts| ensures ts[k].category in sorted {
      assert ts[k].category in multiset(cs);
    }
    TallyTotal(sorted, ts);
  }

  /** A positive count means the category occurs in the rows, and conversely. */
  lemma {:induction false} CountInPositive(ts: seq<Task>, c: string)
    ensures CountIn(ts, c) > 0 <==> exists k :: 0 <= k < |ts| && ts[k].category == c
  {
    if ts != [] {
      CountInPositive(ts[1..], c);
      if exists k :: 0 <= k < |ts| && ts[k].category == c {
        var k :| 0 <= k < |ts| && ts[k].category == c;
        if k > 0 {
          assert ts[1..][k - 1].category == c;
        }
      }
      if exists k :: 0 <= k < |ts[1..]| && ts[1..][k].category == c {
        var k :| 0 <= k < |ts[1..]| && ts[1..][k].category == c;
        assert ts[k + 1].category == c;
      }
    }
  }

  /**
   * The summary's counts add up to the number of tasks the unfiltered task list
   * shows (main.py:312-323 against main.py:396).
   */
  lemma SummaryTotal(tasks: seq<Task>, user: int)
    ensures SumCounts(Summary(tasks, user)) == |GetTasks(tasks, user, None, Open)|
  {
    GroupCountsTotal(OpenOf(tasks, user));
    FilterAgree(tasks, (t: Task) => Selected(t, user, None, Open), OpenPred(user));
  }

  /** A task removed by DELETE shows up in no task list afterwards. */
  lemma DeletedTaskNotListed(tasks: seq<Task>, lastId: nat, id: int, owner: int, user: int, category: Option<string>, status: Status)
    requires TasksWellFormed(tasks, lastId)
    requires AnyMatch(tasks, id, owner)
    ensures forall t :: t in GetTasks(RemoveTask(tasks, id, owner), user, category, status) ==> t.id != id
  {
    var after := RemoveTask(tasks, id, owner);
    FilterIncreasing(tasks, t => !Matches(t, id, owner), TaskId);
    GetTasksSpec(after, lastId, user, category, status);
    var i :| 0 <= i < |tasks| && Matches(tasks[i], id, owner);
    forall t | t in after ensures t.id != id {
      var k :| 0 <= k < |tasks| && tasks[k] == t;
      if k != i {
        assert tasks[k].id != tasks[i].id;
      }
    }
  }

  /** The number of open rows of `owner` that DELETE ... WHERE id = ? AND user_id = ? hits. */
  function OpenHits(tasks: seq<Task>, id: int, owner: int): nat
  {
    if tasks == [] then 0
    else (if Matches(tasks[0], id, owner) && tasks[0].status == Open then 1 else 0) + OpenHits(tasks[1..], id, owner)
  }

  /** Deleting removes from the open list exactly the open rows it hits. */
  lemma {:induction false} OpenAfterRemove(tasks: seq<Task>, id: int, owner: int)
    ensures |OpenOf(RemoveTask(tasks, id, owner), owner)| + OpenHits(tasks, id, owner) == |OpenOf(tasks, owner)|
  {
    if tasks != [] {
      var t := tasks[0];
      var rest := tasks[1..];
      OpenAfterRemove(rest, id, owner);
      var head := if !Matches(t, id, owner) then [t] else [];
      assert RemoveTask(tasks, id, owner) == head + RemoveTask(rest, id, owner);
      FilterConcat(head, RemoveTask(rest, id, owner), OpenPred(owner));
    }
  }

  /** With ids unique, a delete hits at most one open row, and one exactly when such a row exists. */
  lemma {:induction false} OpenHitsUnique(tasks: seq<Task>, id: int, owner: int)
    requires StrictlyIncreasing(tasks, TaskId)
    ensures OpenHits(tasks, id, owner) <= 1
    ensures OpenHits(tasks, id, owner) == 1 <==> exists i :: 0 <= i < |tasks| && Matches(tasks[i], id, owner) && tasks[i].status == Open
  {
    if tasks != [] {
      var rest := tasks[1..];
      OpenHitsUnique(rest, id, owner);
      if Matches(tasks[0], id, owner) {
        NoHitsAbove(rest, id, owner);
      }
      if exists i :: 0 <= i < |rest| && Matches(rest[i], id, owner) && rest[i].status == Open {
        var i :| 0 <= i < |rest| && Matches(rest[i], id, owner) && rest[i].status == Open;
        assert tasks[i + 1] == rest[i];
      }
      if exists i :: 0 <= i < |tasks| && Matches(tasks[i], id, owner) && tasks[i].status == Open {
        var i :| 0 <= i < |tasks| && Matches(tasks[i], id, owner) && tasks[i].status == Open;
        if i > 0 {
          assert rest[i - 1] == tasks[i];
        }
      }
    }
  }

  lemma {:induction false} NoHitsAbove(rest: seq<Task>, id: int, owner: int)
    requires forall i :: 0 <= i < |rest| ==> rest[i].id > id
    ensures OpenHits(rest, id, owner) == 0
  {
    if rest != [] {
      NoHitsAbove(rest[1..], id, owner);
    }
  }

  /** Deleting an open task lowers the summary total by one; deleting any other row leaves it. */
  lemma DeleteSummaryTotal(tasks: seq<Task>, lastId: nat, id: int, owner: int)
    requires TasksWellFormed(tasks, lastId)
    ensures var removed := exists i :: 0 <= i < |tasks| && Matches(tasks[i], id, owner) && tasks[i].status == Open;
      SumCounts(Summary(RemoveTask(tasks, id, owner), owner)) + (if removed then 1 else 0)
        == SumCounts(Summary(tasks, owner))
  {
    GroupCountsTotal(OpenOf(RemoveTask(tasks, id, owner), owner));
    GroupCountsTotal(OpenOf(tasks, owner));
    OpenAfterRemove(tasks, id, owner);
    OpenHitsUnique(tasks, id, owner);
  }

  /** The emoji shown for a category: the first listed category of that name, else the folder icon. */
  function EmojiFor(cats: seq<Category>, name: string): (e: string)
    ensures (exists i :: 0 <= i < |cats| && cats[i].name == name) || e == DefaultEmoji
    ensures e != DefaultEmoji ==> exists i :: 0 <= i < |cats| && cats[i].name == name && cats[i].emoji == e
    ensures (exists i :: 0 <= i < |cats| && cats[i].name == name) ==>
      exists i :: 0 <= i < |cats| && cats[i].name == name && cats[i].emoji == e
  {
    if cats == [] then DefaultEmoji
    else if cats[0].name == name then cats[0].emoji
    else
      var e := EmojiFor(cats[1..], name);
      assert forall i :: 1 <= i < |cats| ==> cats[i] == cats[1..][i - 1];
      e
  }
}
