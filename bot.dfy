/**
 * main.py's TodoBot: the per-user dialogue state (`user_states`,
 * `pending_tasks`), the handlers that move it and write the store, and the two
 * loops that lay out the task list and the open-task summary. A handler
 * returns the reply it would send as a tag; the Hebrew text and the inline
 * keyboards are not modelled, only the data they carry.
 */
module Bot {
  import opened Wrappers
  import opened Text
  import opened Sequences
  import opened Schema
  import opened TaskQueries

  /** The three values `user_states` holds (main.py:229, 361, 483). */
  datatype UserState = WaitingTaskContent | WaitingCategoryName | WaitingCategorySelection

  /** The exceptions a handler can raise; the framework logs them and the update is dropped. */
  datatype PythonError = ValueError | KeyError

  /** One line of the all-tasks message (main.py:410-430). */
  datatype Line = Header(emoji: string, category: string) | Blank | Item(content: string)

  /** One line of the open-task summary (main.py:312-321). */
  datatype SummaryLine = SummaryLine(emoji: string, category: string, count: nat)

  /** What a handler sends back: a tag per message, with the data the message shows. */
  datatype Reply =
    | Silent
    | Greeting
    | AskTaskContent
    | ChooseCategory(content: string, choices: seq<Category>)
    | AskCategoryName
    | CategoryAdded(name: string)
    | CategoryTaken(name: string)
    | TaskAdded(id: int, content: string, category: string)
    | EmptyCategory(category: string)
    | CategoryTasks(category: string, contents: seq<string>, buttons: seq<int>)
    | NothingOpen
    | AllTasks(lines: seq<Line>, buttons: seq<int>)
    | Marked(view: Reply)
    | MarkFailed
    | Deleted(view: Reply)
    | DeleteFailed
    | NoOpenSummary
    | SummaryReport(entries: seq<SummaryLine>, total: nat)
    | Raised(error: PythonError)

  /** The four global categories init_database installs (main.py:69-74). */
  const DefaultCategories: seq<Category> := [
    Category(GlobalOwner, "עבודה", "\U{1F4BC}"),
    Category(GlobalOwner, "לימודים", "\U{1F4DA}"),
    Category(GlobalOwner, "אישי", "\U{1F3E0}"),
    Category(GlobalOwner, "כללי", "\U{2795}")
  ]

  /** A default row is missing when no row of owner 0 has its name. */
  function MissingPred(cats: seq<Category>): Category -> bool
  {
    (d: Category) => !HasCategory(cats, d.owner, d.name)
  }

  /** The defaults that INSERT OR IGNORE actually adds to `cats`. */
  function MissingDefaults(cats: seq<Category>): seq<Category>
  {
    Filter(DefaultCategories, MissingPred(cats))
  }

  /** Installing the defaults a second time adds nothing. */
  lemma MissingDefaultsIdempotent(cats: seq<Category>)
    ensures MissingDefaults(cats + MissingDefaults(cats)) == []
  {
    var after := cats + MissingDefaults(cats);
    forall i | 0 <= i < |DefaultCategories| ensures HasCategory(after, GlobalOwner, DefaultCategories[i].name) {
      var d := DefaultCategories[i];
      if !HasCategory(cats, d.owner, d.name) {
        var m := MissingDefaults(cats);
        assert d in m;
        var k :| 0 <= k < |m| && m[k] == d;
        assert after[|cats| + k] == d;
      } else {
        var k :| 0 <= k < |cats| && cats[k].owner == d.owner && cats[k].name == d.name;
        assert after[k] == cats[k];
      }
    }
    FilterNone(DefaultCategories, MissingPred(after));
  }

  lemma DefaultNamesDistinct()
    ensures forall a, b :: 0 <= a < b < |DefaultCategories| ==> DefaultCategories[a].name != DefaultCategories[b].name
  {
    var d := DefaultCategories;
    assert d[0].name[0] != d[1].name[0] && d[0].name[0] != d[2].name[0] && d[0].name[0] != d[3].name[0];
    assert d[1].name[0] != d[2].name[0] && d[1].name[0] != d[3].name[0];
    assert d[2].name[0] != d[3].name[0];
  }

  /** While installing, the rows added so far never carry the name of the default at hand. */
  lemma {:induction false} DefaultsNotYetAdded(before: seq<Category>, i: nat)
    requires i < |DefaultCategories|
    ensures var d := DefaultCategories[i];
      (HasCategory(before + Filter(DefaultCategories[..i], MissingPred(before)), d.owner, d.name)
       <==> HasCategory(before, d.owner, d.name))
  {
    var d := DefaultCategories[i];
    var added := Filter(DefaultCategories[..i], MissingPred(before));
    var now := before + added;
    DefaultNamesDistinct();
    if HasCategory(now, d.owner, d.name) {
      var k :| 0 <= k < |now| && now[k].owner == d.owner && now[k].name == d.name;
      if k >= |before| {
        assert false;
      }
    } else if HasCategory(before, d.owner, d.name) {
      HasCategoryGrows(before, added, d.owner, d.name);
    }
  }

  lemma HasCategoryGrows(a: seq<Category>, b: seq<Category>, owner: int, name: string)
    requires HasCategory(a, owner, name)
    ensures HasCategory(a + b, owner, name)
  {
    var k :| 0 <= k < |a| && a[k].owner == owner && a[k].name == name;
    assert (a + b)[k] == a[k];
  }

  /** One round of init_database's loop extends the rows added so far by the default at hand exactly when it was missing. */
  lemma InstallStep(before: seq<Category>, prev: seq<Category>, now: seq<Category>, i: nat, inserted: bool)
    requires i < |DefaultCategories|
    requires prev == before + Filter(DefaultCategories[..i], MissingPred(before))
    requires inserted <==> !HasCategory(before, DefaultCategories[i].owner, DefaultCategories[i].name)
    requires now == if inserted then prev + [DefaultCategories[i]] else prev
    ensures now == before + Filter(DefaultCategories[..i + 1], MissingPred(before))
  {
    FilterSnoc(DefaultCategories, i, MissingPred(before));
    assert MissingPred(before)(DefaultCategories[i]) == inserted;
  }

  /** After one round of init_database's loop, every default handled so far is present. */
  lemma InstalledSoFar(prev: seq<Category>, now: seq<Category>, i: nat, inserted: bool)
    requires i < |DefaultCategories|
    requires inserted <==> !HasCategory(prev, DefaultCategories[i].owner, DefaultCategories[i].name)
    requires now == if inserted then prev + [DefaultCategories[i]] else prev
    requires forall k :: 0 <= k < i ==> HasCategory(prev, GlobalOwner, DefaultCategories[k].name)
    ensures forall k :: 0 <= k < i + 1 ==> HasCategory(now, GlobalOwner, DefaultCategories[k].name)
  {
    if inserted {
      assert now[..|prev|] == prev;
      DefaultsStayPresent(prev, now, i);
      assert now[|prev|] == DefaultCategories[i];
    }
  }

  /** Rows present before an insert are present after it. */
  lemma DefaultsStayPresent(prev: seq<Category>, now: seq<Category>, n: nat)
    requires n <= |DefaultCategories|
    requires |prev| <= |now| && now[..|prev|] == prev
    requires forall k :: 0 <= k < n ==> HasCategory(prev, GlobalOwner, DefaultCategories[k].name)
    ensures forall k :: 0 <= k < n ==> HasCategory(now, GlobalOwner, DefaultCategories[k].name)
  {
    assert now == prev + now[|prev|..];
    forall k | 0 <= k < n ensures HasCategory(now, GlobalOwner, DefaultCategories[k].name) {
      HasCategoryGrows(prev, now[|prev|..], GlobalOwner, DefaultCategories[k].name);
    }
  }

  // ---------------------------------------------------------------------------
  // Callback data

  const ListCategoryPrefix: string := "list_category_"
  const ListAllData: string := "list_all_tasks"
  const TaskDonePrefix: string := "task_done_"
  const TaskDeletePrefix: string := "task_delete_"
  const AddCategoryData: string := "add_new_category"
  const SelectPrefix: string := "select_category_"

  /** The branch handle_callback takes for a button's data, with the argument it extracts. */
  datatype Command =
    | ListCategory(category: string)
    | ListAll
    | TaskDone(arg: Option<int>)
    | TaskDelete(arg: Option<int>)
    | AddNewCategory
    | Ignored

  /**
   * handle_callback's if-chain (main.py:345-365), tested in source order. The
   * argument is what is left after removing EVERY occurrence of the prefix
   * (str.replace), and int() of it fails with None.
   */
  function Route(data: string): Command
  {
    if StartsWith(data, ListCategoryPrefix) then ListCategory(ReplaceAll(data, ListCategoryPrefix, ""))
    else if data == ListAllData then ListAll
    else if StartsWith(data, TaskDonePrefix) then TaskDone(ParseInt(ReplaceAll(data, TaskDonePrefix, "")))
    else if StartsWith(data, TaskDeletePrefix) then TaskDelete(ParseInt(ReplaceAll(data, TaskDeletePrefix, "")))
    else if data == AddCategoryData then AddNewCategory
    else Ignored
  }

  /** Data of the form task_done_<suffix> reaches the done branch with int() of the suffix. */
  lemma RouteDone(suffix: string)
    requires !Contains(suffix, TaskDonePrefix)
    ensures Route(TaskDonePrefix + suffix) == TaskDone(ParseInt(suffix))
  {
    DoneDataShape(suffix);
    ReplacePrefix(TaskDonePrefix, suffix);
  }

  /** Which of the prefixes tested before the done branch task_done_<suffix> carries. */
  lemma DoneDataShape(suffix: string)
    ensures var d := TaskDonePrefix + suffix;
      !StartsWith(d, ListCategoryPrefix) && d != ListAllData && StartsWith(d, TaskDonePrefix)
  {
    var d := TaskDonePrefix + suffix;
    assert d[..|TaskDonePrefix|] == TaskDonePrefix;
    assert d[0] != ListCategoryPrefix[0];
    assert d[0] != ListAllData[0];
  }

  /** Data of the form task_delete_<suffix> reaches the delete branch with int() of the suffix. */
  lemma RouteDelete(suffix: string)
    requires !Contains(suffix, TaskDeletePrefix)
    ensures Route(TaskDeletePrefix + suffix) == TaskDelete(ParseInt(suffix))
  {
    DeleteDataShape(suffix);
    ReplacePrefix(TaskDeletePrefix, suffix);
  }

  /** Which of the prefixes tested before the delete branch task_delete_<suffix> carries. */
  lemma DeleteDataShape(suffix: string)
    ensures var d := TaskDeletePrefix + suffix;
      && !StartsWith(d, ListCategoryPrefix) && d != ListAllData
      && !StartsWith(d, TaskDonePrefix) && StartsWith(d, TaskDeletePrefix)
  {
    var d := TaskDeletePrefix + suffix;
    assert d[..|TaskDeletePrefix|] == TaskDeletePrefix;
    assert d[0] != ListCategoryPrefix[0];
    assert d[0] != ListAllData[0];
    assert d[6] != TaskDonePrefix[6];
  }

  /** The done and delete buttons the task views emit carry the task id back unchanged. */
  lemma RouteTaskButtons(id: int)
    ensures Route(TaskDonePrefix + IntToString(id)) == TaskDone(Some(id))
    ensures Route(TaskDeletePrefix + IntToString(id)) == TaskDelete(Some(id))
  {
    IntToStringHasNoLetterWord(id, TaskDonePrefix);
    IntToStringHasNoLetterWord(id, TaskDeletePrefix);
    RouteDone(IntToString(id));
    RouteDelete(IntToString(id));
    IntRoundTrip(id);
  }

  /** A category button of list_command opens that category, when its name does not contain the prefix. */
  lemma RouteListCategory(name: string)
    requires !Contains(name, ListCategoryPrefix)
    ensures Route(ListCategoryPrefix + name) == ListCategory(name)
  {
    ReplacePrefix(ListCategoryPrefix, name);
  }

  /**
   * Because every occurrence of the prefix is removed, the button of a category
   * whose name itself starts with the prefix opens a different category.
   */
  lemma RouteStripsInnerPrefix(x: string)
    requires !Contains(x, ListCategoryPrefix)
    ensures Route(ListCategoryPrefix + (ListCategoryPrefix + x)) == ListCategory(x)
    ensures ListCategoryPrefix + x != x
  {
    ReplaceRemovesInnerOccurrence(ListCategoryPrefix, x);
  }

  /**
   * int() skips a single underscore between digits, so task_done_1_0 and
   * task_delete_1_0 act on task 10.
   */
  lemma RouteUnderscoreId(a: string, b: string)
    requires |a| > 0 && |b| > 0 && AllDigits(a) && AllDigits(b)
    ensures Route(TaskDonePrefix + (a + "_" + b)) == TaskDone(Some(DigitsValue(a + b) as int))
    ensures Route(TaskDeletePrefix + (a + "_" + b)) == TaskDelete(Some(DigitsValue(a + b) as int))
  {
    var t := a + "_" + b;
    UnderscoreChars(a, b);
    NotContainsFirstChar(t, TaskDonePrefix);
    NotContainsFirstChar(t, TaskDeletePrefix);
    RouteDone(t);
    RouteDelete(t);
    ParseIntUnderscore(a, b);
  }

  /** A done button whose suffix holds a character no numeral may contain routes to a failed parse. */
  lemma RouteNonNumeric(suffix: string, i: nat)
    requires !Contains(suffix, TaskDonePrefix)
    requires i < |suffix| && !IsSpace(suffix[i]) && !IsDigit(suffix[i]) && suffix[i] != '-' && suffix[i] != '+' && suffix[i] != '_'
    ensures Route(TaskDonePrefix + suffix) == TaskDone(None)
  {
    RouteDone(suffix);
    ParseIntRejects(suffix, i);
  }

  // ---------------------------------------------------------------------------
  // Views

  function Contents(ts: seq<Task>): (r: seq<string>)
    ensures |r| == |ts| && forall i :: 0 <= i < |ts| ==> r[i] == ts[i].content
  {
    seq(|ts|, i requires 0 <= i < |ts| => ts[i].content)
  }

  function Ids(ts: seq<Task>): (r: seq<int>)
    ensures |r| == |ts| && forall i :: 0 <= i < |ts| ==> r[i] == ts[i].id
  {
    seq(|ts|, i requires 0 <= i < |ts| => ts[i].id)
  }

  /** show_category_tasks (main.py:367-392). */
  function CategoryView(tasks: seq<Task>, user: int, category: string): Reply
  {
    var ts := GetTasks(tasks, user, Some(category), Open);
    if ts == [] then EmptyCategory(category) else CategoryTasks(category, Contents(ts), Ids(ts))
  }

  /** The lines one row of the all-tasks loop adds: a header when the category changes, then the item. */
  function LayoutStep(tasks: seq<Task>, cats: seq<Category>, k: nat): seq<Line>
    requires k < |tasks|
  {
    var c := tasks[k].category;
    var head :=
      if k == 0 then [Header(EmojiFor(cats, c), c)]
      else if c != tasks[k - 1].category then [Blank, Header(EmojiFor(cats, c), c)]
      else [];
    head + [Item(tasks[k].content)]
  }

  /** The lines of the all-tasks message after the first `n` rows. */
  function Layout(tasks: seq<Task>, cats: seq<Category>, n: nat): seq<Line>
    requires n <= |tasks|
  {
    if n == 0 then [] else Layout(tasks, cats, n - 1) + LayoutStep(tasks, cats, n - 1)
  }

  /** The item lines, in order. */
  function Items(lines: seq<Line>): seq<string>
  {
    if lines == [] then []
    else (if lines[0].Item? then [lines[0].content] else []) + Items(lines[1..])
  }

  /** The categories of the header lines, in order. */
  function Headers(lines: seq<Line>): seq<string>
  {
    if lines == [] then []
    else (if lines[0].Header? then [lines[0].category] else []) + Headers(lines[1..])
  }

  lemma {:induction false} ItemsConcat(a: seq<Line>, b: seq<Line>)
    ensures Items(a + b) == Items(a) + Items(b)
  {
    if a == [] {
      assert a + b == b;
    } else {
      assert (a + b)[0] == a[0] && (a + b)[1..] == a[1..] + b;
      ItemsConcat(a[1..], b);
    }
  }

  lemma {:induction false} HeadersConcat(a: seq<Line>, b: seq<Line>)
    ensures Headers(a + b) == Headers(a) + Headers(b)
  {
    if a == [] {
      assert a + b == b;
    } else {
      assert (a + b)[0] == a[0] && (a + b)[1..] == a[1..] + b;
      HeadersConcat(a[1..], b);
    }
  }

  /** A header line precedes a row exactly when its category differs from the previous row's. */
  function NewGroup(tasks: seq<Task>, k: nat): bool
    requires k < |tasks|
  {
    k == 0 || tasks[k].category != tasks[k - 1].category
  }

  lemma StepLines(tasks: seq<Task>, cats: seq<Category>, k: nat)
    requires k < |tasks|
    ensures Headers(LayoutStep(tasks, cats, k)) == if NewGroup(tasks, k) then [tasks[k].category] else []
    ensures Items(LayoutStep(tasks, cats, k)) == [tasks[k].content]
  {
    var c := tasks[k].category;
    var item := [Item(tasks[k].content)];
    assert Headers(item) == [] && Items(item) == [tasks[k].content] by {
      assert item[1..] == [];
    }
    var hd := [Header(EmojiFor(cats, c), c)];
    var step := LayoutStep(tasks, cats, k);
    if k == 0 {
      assert step == hd + item;
      assert step[1..] == item;
    } else if c != tasks[k - 1].category {
      assert step == [Blank] + hd + item;
      assert step[1..] == hd + item;
      assert step[1..][1..] == item;
    } else {
      assert step == item;
    }
  }

  /** One more row adds its category to the headers when it starts a group. */
  lemma HeadersStep(tasks: seq<Task>, cats: seq<Category>, n: nat)
    requires 0 < n <= |tasks|
    ensures Headers(Layout(tasks, cats, n))
      == Headers(Layout(tasks, cats, n - 1)) + (if NewGroup(tasks, n - 1) then [tasks[n - 1].category] else [])
  {
    HeadersConcat(Layout(tasks, cats, n - 1), LayoutStep(tasks, cats, n - 1));
    StepLines(tasks, cats, n - 1);
  }

  /** One more row adds its text to the items. */
  lemma ItemsStep(tasks: seq<Task>, cats: seq<Category>, n: nat)
    requires 0 < n <= |tasks|
    ensures Items(Layout(tasks, cats, n)) == Items(Layout(tasks, cats, n - 1)) + [tasks[n - 1].content]
  {
    ItemsConcat(Layout(tasks, cats, n - 1), LayoutStep(tasks, cats, n - 1));
    StepLines(tasks, cats, n - 1);
  }

  /** Every task listed shows up as one item line, in list order. */
  lemma {:induction false} LayoutItems(tasks: seq<Task>, cats: seq<Category>, n: nat)
    requires n <= |tasks|
    ensures Items(Layout(tasks, cats, n)) == Contents(tasks[..n])
  {
    if n > 0 {
      LayoutItems(tasks, cats, n - 1);
      ItemsStep(tasks, cats, n);
      assert Contents(tasks[..n]) == Contents(tasks[..n - 1]) + [tasks[n - 1].content];
    } else {
      assert Contents(tasks[..n]) == [];
    }
  }

  /**
   * On a list ordered by category the headers rise strictly, so no category
   * gets two headers; the last header names the last row's category.
   */
  lemma {:induction false} LayoutHeadersAscend(tasks: seq<Task>, cats: seq<Category>, n: nat)
    requires n <= |tasks| && SortedBy(tasks, TaskKey)
    ensures var h := Headers(Layout(tasks, cats, n));
      && StrictlyRising(h)
      && (n > 0 ==> |h| > 0 && h[|h| - 1] == tasks[n - 1].category)
  {
    if n > 0 {
      LayoutHeadersAscend(tasks, cats, n - 1);
      HeadersStep(tasks, cats, n);
      HeadersRise(Headers(Layout(tasks, cats, n - 1)), tasks, n - 1);
    }
  }

  /** The headers after row `k` of a list ordered by category still rise and end with that row's category. */
  lemma HeadersRise(prev: seq<string>, tasks: seq<Task>, k: nat)
    requires k < |tasks| && SortedBy(tasks, TaskKey) && StrictlyRising(prev)
    requires if k == 0 then prev == [] else prev != [] && prev[|prev| - 1] == tasks[k - 1].category
    ensures var now := prev + (if NewGroup(tasks, k) then [tasks[k].category] else []);
      StrictlyRising(now) && now != [] && now[|now| - 1] == tasks[k].category
  {
    if NewGroup(tasks, k) {
      if k > 0 {
        assert KeyLe(TaskKey(tasks[k - 1]), TaskKey(tasks[k]));
      }
      AscendAppend(prev, tasks[k].category);
    }
  }

  /** Each name is below every later one, so none repeats. */
  ghost predicate StrictlyRising(h: seq<string>)
  {
    forall i, j :: 0 <= i < j < |h| ==> StrLess(h[i], h[j])
  }

  /** A strictly rising list stays so when a name above its last one is appended. */
  lemma AscendAppend(prev: seq<string>, c: string)
    requires StrictlyRising(prev)
    requires prev != [] ==> StrLess(prev[|prev| - 1], c)
    ensures StrictlyRising(prev + [c])
  {
    var h := prev + [c];
    forall i, j | 0 <= i < j < |h| ensures StrLess(h[i], h[j]) {
      if j == |prev| {
        if i < |prev| - 1 {
          StrLessTransitive(prev[i], prev[|prev| - 1], c);
        }
      } else {
        assert h[i] == prev[i] && h[j] == prev[j];
      }
    }
  }

  /** Every listed row's category has a header. */
  lemma {:induction false} LayoutHeadersComplete(tasks: seq<Task>, cats: seq<Category>, n: nat)
    requires n <= |tasks|
    ensures forall k :: 0 <= k < n ==> tasks[k].category in Headers(Layout(tasks, cats, n))
  {
    if n > 0 {
      LayoutHeadersComplete(tasks, cats, n - 1);
      HeadersStep(tasks, cats, n);
      var prev := Headers(Layout(tasks, cats, n - 1));
      var h := Headers(Layout(tasks, cats, n));
      forall k | 0 <= k < n ensures tasks[k].category in h {
        if k < n - 1 {
          assert tasks[k].category in prev;
        } else if !NewGroup(tasks, n - 1) {
          assert tasks[n - 2].category in prev;
        }
      }
    }
  }

  /** Every header names the category of a listed row. */
  lemma {:induction false} LayoutHeadersSound(tasks: seq<Task>, cats: seq<Category>, n: nat)
    requires n <= |tasks|
    ensures forall i :: 0 <= i < |Headers(Layout(tasks, cats, n))| ==>
      exists k :: 0 <= k < n && tasks[k].category == Headers(Layout(tasks, cats, n))[i]
  {
    if n > 0 {
      LayoutHeadersSound(tasks, cats, n - 1);
      HeadersStep(tasks, cats, n);
      var prev := Headers(Layout(tasks, cats, n - 1));
      var h := Headers(Layout(tasks, cats, n));
      forall i | 0 <= i < |h| ensures exists k :: 0 <= k < n && tasks[k].category == h[i] {
        if i < |prev| {
          var k :| 0 <= k < n - 1 && tasks[k].category == prev[i];
          assert h[i] == prev[i];
        } else {
          assert h[i] == tasks[n - 1].category;
        }
      }
    } else {
      assert Headers(Layout(tasks, cats, n)) == [];
    }
  }

  /** Each header shows the emoji of its category. */
  lemma {:induction false} LayoutHeaderEmoji(tasks: seq<Task>, cats: seq<Category>, n: nat)
    requires n <= |tasks|
    ensures forall l :: l in Layout(tasks, cats, n) && l.Header? ==> l.emoji == EmojiFor(cats, l.category)
  {
    if n > 0 {
      LayoutHeaderEmoji(tasks, cats, n - 1);
    }
  }

  /** show_all_tasks (main.py:394-433) as a value: the user's open tasks, laid out by category. */
  function AllTasksView(tasks: seq<Task>, cats: seq<Category>, user: int): Reply
  {
    var ts := GetTasks(tasks, user, None, Open);
    if ts == [] then NothingOpen else AllTasks(Layout(ts, UserCategories(cats, user), |ts|), Ids(ts))
  }

  /** The first category of the given name supplies the emoji; the folder icon otherwise (main.py:314-318). */
  lemma EmojiForFirst(cats: seq<Category>, name: string, i: nat)
    requires i < |cats| && cats[i].name == name
    requires forall k :: 0 <= k < i ==> cats[k].name != name
    ensures EmojiFor(cats, name) == cats[i].emoji
  {
    if i > 0 {
      assert cats[1..][i - 1] == cats[i];
      EmojiForFirst(cats[1..], name, i - 1);
    }
  }

  /** The emoji search loop of main.py:314-318, which stops at the first match. */
  method LookupEmoji(cats: seq<Category>, name: string) returns (emoji: string)
    ensures emoji == EmojiFor(cats, name)
  {
    emoji := DefaultEmoji;
    var i := 0;
    while i < |cats|
      invariant 0 <= i <= |cats|
      invariant EmojiFor(cats[i..], name) == EmojiFor(cats, name)
    {
      if cats[i].name == name {
        emoji := cats[i].emoji;
        break;
      }
      assert cats[i..][1..] == cats[i + 1..];
      i := i + 1;
    }
  }

  /** The header lines main.py:411-424 put before a row of category `c` when the previous row's was `current`. */
  method GroupHead(cats: seq<Category>, current: Option<string>, c: string) returns (head: seq<Line>)
    ensures current == Some(c) ==> head == []
    ensures current == None ==> head == [Header(EmojiFor(cats, c), c)]
    ensures current.Some? && current != Some(c) ==> head == [Blank, Header(EmojiFor(cats, c), c)]
  {
    head := [];
    if current != Some(c) {
      if current.Some? {
        head := [Blank];
      }
      var emoji := LookupEmoji(cats, c);
      head := head + [Header(emoji, c)];
    }
  }

  /** The loop of main.py:410-430: a header whenever the category changes, one item and one button row per task. */
  method RenderAllTasks(tasks: seq<Task>, cats: seq<Category>) returns (lines: seq<Line>, buttons: seq<int>)
    ensures lines == Layout(tasks, cats, |tasks|)
    ensures buttons == Ids(tasks)
  {
    lines, buttons := [], [];
    var current: Option<string> := None;
    var i := 0;
    while i < |tasks|
      invariant 0 <= i <= |tasks|
      invariant lines == Layout(tasks, cats, i)
      invariant buttons == Ids(tasks)[..i]
      invariant current == if i == 0 then None else Some(tasks[i - 1].category)
    {
      var t := tasks[i];
      var head := GroupHead(cats, current, t.category);
      current := Some(t.category);
      assert head + [Item(t.content)] == LayoutStep(tasks, cats, i);
      lines := lines + (head + [Item(t.content)]);
      assert Ids(tasks)[..i + 1] == Ids(tasks)[..i] + [t.id];
      buttons := buttons + [t.id];
      i := i + 1;
    }
    assert Ids(tasks)[..|tasks|] == Ids(tasks);
  }

  /** One line per summary entry, with the emoji of its category. */
  function SummaryEntries(summary: seq<(string, nat)>, cats: seq<Category>): (r: seq<SummaryLine>)
    ensures |r| == |summary|
    ensures forall i :: 0 <= i < |summary| ==> r[i] == SummaryLine(EmojiFor(cats, summary[i].0), summary[i].0, summary[i].1)
  {
    seq(|summary|, i requires 0 <= i < |summary| => SummaryLine(EmojiFor(cats, summary[i].0), summary[i].0, summary[i].1))
  }

  /**
   * The all-tasks view lists every open task of the user once, in list order,
   * with one done/delete button row per task and one header per category.
   */
  lemma AllTasksViewSpec(tasks: seq<Task>, lastId: nat, cats: seq<Category>, user: int)
    requires TasksWellFormed(tasks, lastId)
    ensures var ts := GetTasks(tasks, user, None, Open);
      var v := AllTasksView(tasks, cats, user);
      && (v == NothingOpen <==> ts == [])
      && (v.AllTasks? ==>
        && Items(v.lines) == Contents(ts)
        && v.buttons == Ids(ts)
        && (forall i, j :: 0 <= i < j < |Headers(v.lines)| ==> StrLess(Headers(v.lines)[i], Headers(v.lines)[j]))
        && (forall k :: 0 <= k < |ts| ==> ts[k].category in Headers(v.lines)))
  {
    var ts := GetTasks(tasks, user, None, Open);
    var ucats := UserCategories(cats, user);
    GetTasksSpec(tasks, lastId, user, None, Open);
    LayoutItems(ts, ucats, |ts|);
    assert ts[..|ts|] == ts;
    LayoutHeadersAscend(ts, ucats, |ts|);
    LayoutHeadersComplete(ts, ucats, |ts|);
  }

  /** The loop of main.py:312-321: one line per summary entry and the running total. */
  method RenderSummary(summary: seq<(string, nat)>, cats: seq<Category>) returns (entries: seq<SummaryLine>, total: nat)
    ensures entries == SummaryEntries(summary, cats)
    ensures total == SumCounts(summary)
  {
    entries, total := [], 0;
    var i := 0;
    while i < |summary|
      invariant 0 <= i <= |summary|
      invariant |entries| == i
      invariant forall k :: 0 <= k < i ==> entries[k] == SummaryLine(EmojiFor(cats, summary[k].0), summary[k].0, summary[k].1)
      invariant total == SumCounts(summary[..i])
    {
      var (category, count) := summary[i];
      var emoji := LookupEmoji(cats, category);
      entries := entries + [SummaryLine(emoji, category, count)];
      SumCountsSnoc(summary, i);
      total := total + count;
      i := i + 1;
    }
    assert summary[..|summary|] == summary;
  }

  /** The add-category button goes to handle_callback and takes its add_new_category branch. */
  lemma RouteAddCategory()
    ensures !StartsWith(AddCategoryData, SelectPrefix)
    ensures Route(AddCategoryData) == AddNewCategory
  {
    assert AddCategoryData[0] != SelectPrefix[0];
    assert AddCategoryData[0] != ListCategoryPrefix[0];
    assert AddCategoryData[0] != TaskDonePrefix[0];
    assert AddCategoryData[0] != TaskDeletePrefix[0];
  }

  /** A category button's data carries the category name back, when the name does not contain the prefix. */
  lemma SelectData(category: string)
    requires !Contains(category, SelectPrefix)
    ensures StartsWith(SelectPrefix + category, SelectPrefix)
    ensures ReplaceAll(SelectPrefix + category, SelectPrefix, "") == category
  {
    assert (SelectPrefix + category)[..|SelectPrefix|] == SelectPrefix;
    ReplacePrefix(SelectPrefix, category);
  }

  /** The user daily_reminder reports on (main.py:537). */
  const ReminderUser: int := 123456789

  class TodoBot {
    /** The SQLite file named by the configuration. */
    const db: Database
    var userStates: map<int, UserState>
    /** The text of a task waiting for its category, per user. */
    var pendingTasks: map<int, string>

    ghost predicate Valid()
      reads db
    {
      db.Valid()
    }

    /** __init__ (main.py:31-36): no dialogue in progress. */
    constructor (db: Database)
      requires db.Valid()
      ensures Valid() && this.db == db
      ensures userStates == map[] && pendingTasks == map[]
    {
      this.db := db;
      userStates := map[];
      pendingTasks := map[];
    }

    /**
     * init_database (main.py:38-83): each default category is inserted under
     * owner 0 unless a row of that name is already there, whose emoji then stays.
     */
    method InitDatabase()
      requires Valid()
      modifies db
      ensures Valid()
      ensures db.categories == old(db.categories) + MissingDefaults(old(db.categories))
      ensures forall i :: 0 <= i < |DefaultCategories| ==> HasCategory(db.categories, GlobalOwner, DefaultCategories[i].name)
      ensures db.tasks == old(db.tasks) && db.lastTaskId == old(db.lastTaskId)
      ensures db.taskTags == old(db.taskTags) && db.dailyStats == old(db.dailyStats)
    {
      ghost var before := db.categories;
      var i := 0;
      while i < |DefaultCategories|
        invariant 0 <= i <= |DefaultCategories|
        invariant db.Valid()
        invariant db.categories == before + Filter(DefaultCategories[..i], MissingPred(before))
        invariant forall k :: 0 <= k < i ==> HasCategory(db.categories, GlobalOwner, DefaultCategories[k].name)
        invariant db.tasks == old(db.tasks) && db.lastTaskId == old(db.lastTaskId)
        invariant db.taskTags == old(db.taskTags) && db.dailyStats == old(db.dailyStats)
      {
        var d := DefaultCategories[i];
        DefaultsNotYetAdded(before, i);
        ghost var prev := db.categories;
        var inserted := db.InsertCategory(d.owner, d.name, d.emoji);
        InstallStep(before, prev, db.categories, i, inserted);
        InstalledSoFar(prev, db.categories, i, inserted);
        i := i + 1;
      }
      assert DefaultCategories[..|DefaultCategories|] == DefaultCategories;
    }

    /** add_command (main.py:226-235): the user now owes the bot the text of a task. */
    method AddCommand(user: int) returns (reply: Reply)
      modifies this
      ensures userStates == old(userStates)[user := WaitingTaskContent]
      ensures pendingTasks == old(pendingTasks)
      ensures reply == AskTaskContent
    {
      userStates := userStates[user := WaitingTaskContent];
      reply := AskTaskContent;
    }

    /**
     * handle_message (main.py:457-505): what a text does depends on the user's
     * state; with no state, or while a category button is awaited, nothing changes.
     */
    method HandleMessage(user: int, text: string) returns (reply: Reply)
      requires Valid()
      modifies this, db
      ensures Valid()
      ensures user !in old(userStates) ==> reply == Greeting && unchanged(this, db)
      ensures user in old(userStates) && old(userStates)[user] == WaitingTaskContent ==>
        && pendingTasks == old(pendingTasks)[user := text]
        && userStates == old(userStates)[user := WaitingCategorySelection]
        && unchanged(db)
        && reply == ChooseCategory(text, UserCategories(db.categories, user))
      ensures user in old(userStates) && old(userStates)[user] == WaitingCategoryName ==>
        var added := !HasCategory(old(db.categories), user, text);
        && db.categories == (if added then old(db.categories) + [Category(user, text, DefaultEmoji)] else old(db.categories))
        && userStates == (if added then old(userStates) - {user} else old(userStates))
        && pendingTasks == old(pendingTasks)
        && db.tasks == old(db.tasks) && db.lastTaskId == old(db.lastTaskId)
        && db.taskTags == old(db.taskTags) && db.dailyStats == old(db.dailyStats)
        && reply == (if added then CategoryAdded(text) else CategoryTaken(text))
      ensures user in old(userStates) && old(userStates)[user] == WaitingCategorySelection ==>
        reply == Silent && unchanged(this, db)
    {
      if user !in userStates {
        return Greeting;
      }
      match userStates[user]
      case WaitingTaskContent =>
        pendingTasks := pendingTasks[user := text];
        userStates := userStates[user := WaitingCategorySelection];
        reply := ChooseCategory(text, UserCategories(db.categories, user));
      case WaitingCategoryName =>
        var added := db.InsertCategory(user, text, DefaultEmoji);
        if added {
          userStates := userStates - {user};
          reply := CategoryAdded(text);
        } else {
          reply := CategoryTaken(text);
        }
      case WaitingCategorySelection =>
        reply := Silent;
    }

    /**
     * handle_category_selection (main.py:507-531): with a pending text, the
     * task is stored under the chosen category and both dialogue entries are
     * deleted. The state entry is deleted without a check, so when it is
     * already gone the handler raises KeyError after the task was stored.
     */
    method HandleCategorySelection(user: int, data: string) returns (reply: Reply)
      requires Valid()
      modifies this, db
      ensures Valid()
      ensures !(StartsWith(data, SelectPrefix) && user in old(pendingTasks)) ==> reply == Silent && unchanged(this, db)
      ensures StartsWith(data, SelectPrefix) && user in old(pendingTasks) ==>
        var id := old(db.lastTaskId) + 1;
        var content := old(pendingTasks)[user];
        var category := ReplaceAll(data, SelectPrefix, "");
        && db.tasks == old(db.tasks) + [Task(id, user, content, category, Open)]
        && db.lastTaskId == id
        && db.categories == old(db.categories) && db.taskTags == old(db.taskTags) && db.dailyStats == old(db.dailyStats)
        && pendingTasks == old(pendingTasks) - {user}
        && userStates == old(userStates) - {user}
        && reply == (if user in old(userStates) then TaskAdded(id, content, category) else Raised(KeyError))
    {
      reply := Silent;
      if StartsWith(data, SelectPrefix) {
        var category := ReplaceAll(data, SelectPrefix, "");
        if user in pendingTasks {
          var content := pendingTasks[user];
          var id := db.InsertTask(user, content, category);
          pendingTasks := pendingTasks - {user};
          if user !in userStates {
            return Raised(KeyError);
          }
          userStates := userStates - {user};
          reply := TaskAdded(id, content, category);
        }
      }
    }

    /** show_all_tasks (main.py:394-433). */
    method ShowAllTasks(user: int) returns (reply: Reply)
      ensures reply == AllTasksView(db.tasks, db.categories, user)
    {
      var ts := GetTasks(db.tasks, user, None, Open);
      if ts == [] {
        reply := NothingOpen;
      } else {
        var lines, buttons := RenderAllTasks(ts, UserCategories(db.categories, user));
        reply := AllTasks(lines, buttons);
      }
    }

    /** mark_task_done (main.py:435-444): no statistics are recorded here. */
    method MarkTaskDone(user: int, id: int) returns (reply: Reply)
      requires Valid()
      modifies db
      ensures Valid()
      ensures db.tasks == SetStatus(old(db.tasks), id, user, Done)
      ensures db.lastTaskId == old(db.lastTaskId) && db.categories == old(db.categories)
      ensures db.taskTags == old(db.taskTags) && db.dailyStats == old(db.dailyStats)
      ensures reply == if AnyMatch(old(db.tasks), id, user) then Marked(AllTasksView(db.tasks, db.categories, user)) else MarkFailed
    {
      var ok := db.UpdateTaskStatus(id, user, Done);
      if ok {
        var view := ShowAllTasks(user);
        reply := Marked(view);
      } else {
        reply := MarkFailed;
      }
    }

    /** delete_task_callback (main.py:446-455). */
    method DeleteTaskCallback(user: int, id: int) returns (reply: Reply)
      requires Valid()
      modifies db
      ensures Valid()
      ensures db.tasks == RemoveTask(old(db.tasks), id, user)
      ensures db.lastTaskId == old(db.lastTaskId) && db.categories == old(db.categories)
      ensures db.taskTags == old(db.taskTags) && db.dailyStats == old(db.dailyStats)
      ensures reply == if AnyMatch(old(db.tasks), id, user) then Deleted(AllTasksView(db.tasks, db.categories, user)) else DeleteFailed
    {
      var ok := db.DeleteTask(id, user);
      if ok {
        var view := ShowAllTasks(user);
        reply := Deleted(view);
      } else {
        reply := DeleteFailed;
      }
    }

    /** handle_callback (main.py:337-365), one branch per route. */
    method HandleCallback(user: int, data: string) returns (reply: Reply)
      requires Valid()
      modifies this, db
      ensures Valid()
      ensures Route(data).ListCategory? ==> reply == CategoryView(db.tasks, user, Route(data).category) && unchanged(this, db)
      ensures Route(data) == ListAll ==> reply == AllTasksView(db.tasks, db.categories, user) && unchanged(this, db)
      ensures Route(data) == TaskDone(None) || Route(data) == TaskDelete(None) ==> reply == Raised(ValueError) && unchanged(this, db)
      ensures Route(data).TaskDone? && Route(data).arg.Some? ==>
        var id := Route(data).arg.value;
        && db.tasks == SetStatus(old(db.tasks), id, user, Done)
        && db.lastTaskId == old(db.lastTaskId) && db.categories == old(db.categories)
        && db.taskTags == old(db.taskTags) && db.dailyStats == old(db.dailyStats)
        && userStates == old(userStates) && pendingTasks == old(pendingTasks)
        && reply == if AnyMatch(old(db.tasks), id, user) then Marked(AllTasksView(db.tasks, db.categories, user)) else MarkFailed
      ensures Route(data).TaskDelete? && Route(data).arg.Some? ==>
        var id := Route(data).arg.value;
        && db.tasks == RemoveTask(old(db.tasks), id, user)
        && db.lastTaskId == old(db.lastTaskId) && db.categories == old(db.categories)
        && db.taskTags == old(db.taskTags) && db.dailyStats == old(db.dailyStats)
        && userStates == old(userStates) && pendingTasks == old(pendingTasks)
        && reply == if AnyMatch(old(db.tasks), id, user) then Deleted(AllTasksView(db.tasks, db.categories, user)) else DeleteFailed
      ensures Route(data) == AddNewCategory ==>
        && userStates == old(userStates)[user := WaitingCategoryName]
        && pendingTasks == old(pendingTasks) && unchanged(db)
        && reply == AskCategoryName
      ensures Route(data) == Ignored ==> reply == Silent && unchanged(this, db)
    {
      match Route(data)
      case ListCategory(category) =>
        reply := CategoryView(db.tasks, user, category);
      case ListAll =>
        reply := ShowAllTasks(user);
      case TaskDone(arg) =>
        if arg.None? {
          return Raised(ValueError);
        }
        reply := MarkTaskDone(user, arg.value);
      case TaskDelete(arg) =>
        if arg.None? {
          return Raised(ValueError);
        }
        reply := DeleteTaskCallback(user, arg.value);
      case AddNewCategory =>
        userStates := userStates[user := WaitingCategoryName];
        reply := AskCategoryName;
      case Ignored =>
        reply := Silent;
    }

    /**
     * The callback dispatch of setup_handlers (main.py:569-573): data starting
     * with select_category_ goes to handle_category_selection, all other data
     * to handle_callback, which never touches the categories or a pending text.
     */
    method OnCallback(user: int, data: string) returns (reply: Reply)
      requires Valid()
      modifies this, db
      ensures Valid()
      ensures StartsWith(data, SelectPrefix) && user in old(pendingTasks) ==>
        var id := old(db.lastTaskId) + 1;
        var content := old(pendingTasks)[user];
        var category := ReplaceAll(data, SelectPrefix, "");
        && db.tasks == old(db.tasks) + [Task(id, user, content, category, Open)]
        && db.categories == old(db.categories)
        && pendingTasks == old(pendingTasks) - {user}
        && userStates == old(userStates) - {user}
        && reply == (if user in old(userStates) then TaskAdded(id, content, category) else Raised(KeyError))
      ensures StartsWith(data, SelectPrefix) && user !in old(pendingTasks) ==> reply == Silent && unchanged(this, db)
      ensures !StartsWith(data, SelectPrefix) ==>
        && db.categories == old(db.categories) && pendingTasks == old(pendingTasks)
        && db.lastTaskId == old(db.lastTaskId)
        && (Route(data) == AddNewCategory ==> userStates == old(userStates)[user := WaitingCategoryName] && unchanged(db))
        && (Route(data) != AddNewCategory ==> userStates == old(userStates))
        && (Route(data) == Ignored ==> reply == Silent && unchanged(db))
      ensures !StartsWith(data, SelectPrefix) && Route(data).ListCategory? ==>
        reply == CategoryView(db.tasks, user, Route(data).category) && unchanged(this, db)
      ensures !StartsWith(data, SelectPrefix) && Route(data) == ListAll ==>
        reply == AllTasksView(db.tasks, db.categories, user) && unchanged(this, db)
      ensures !StartsWith(data, SelectPrefix) && (Route(data) == TaskDone(None) || Route(data) == TaskDelete(None)) ==>
        reply == Raised(ValueError) && unchanged(this, db)
      ensures !StartsWith(data, SelectPrefix) && Route(data).TaskDone? && Route(data).arg.Some? ==>
        var id := Route(data).arg.value;
        && db.tasks == SetStatus(old(db.tasks), id, user, Done)
        && db.taskTags == old(db.taskTags) && db.dailyStats == old(db.dailyStats)
        && reply == if AnyMatch(old(db.tasks), id, user) then Marked(AllTasksView(db.tasks, db.categories, user)) else MarkFailed
      ensures !StartsWith(data, SelectPrefix) && Route(data).TaskDelete? && Route(data).arg.Some? ==>
        var id := Route(data).arg.value;
        && db.tasks == RemoveTask(old(db.tasks), id, user)
        && db.taskTags == old(db.taskTags) && db.dailyStats == old(db.dailyStats)
        && reply == if AnyMatch(old(db.tasks), id, user) then Deleted(AllTasksView(db.tasks, db.categories, user)) else DeleteFailed
      ensures !StartsWith(data, SelectPrefix) && Route(data) == AddNewCategory ==> reply == AskCategoryName
    {
      if StartsWith(data, SelectPrefix) {
        reply := HandleCategorySelection(user, data);
      } else {
        reply := HandleCallback(user, data);
      }
    }

    /** summary_command (main.py:296-335). */
    method SummaryCommand(user: int) returns (reply: Reply)
      ensures reply == NoOpenSummary <==> OpenOf(db.tasks, user) == []
      ensures reply != NoOpenSummary ==>
        reply == SummaryReport(SummaryEntries(Summary(db.tasks, user), UserCategories(db.categories, user)),
                               |GetTasks(db.tasks, user, None, Open)|)
    {
      var summary := Summary(db.tasks, user);
      SummaryEmpty(db.tasks, user);
      if summary == [] {
        reply := NoOpenSummary;
      } else {
        var entries, total := RenderSummary(summary, UserCategories(db.categories, user));
        SummaryTotal(db.tasks, user);
        reply := SummaryReport(entries, total);
      }
    }

    /** daily_reminder (main.py:533-559): a message only when the fixed user has open tasks. */
    method DailyReminder() returns (message: Option<Reply>)
      ensures message.None? <==> OpenOf(db.tasks, ReminderUser) == []
      ensures message.Some? ==>
        message.value == SummaryReport(SummaryEntries(Summary(db.tasks, ReminderUser), UserCategories(db.categories, ReminderUser)),
                                       |GetTasks(db.tasks, ReminderUser, None, Open)|)
    {
      var summary := Summary(db.tasks, ReminderUser);
      SummaryEmpty(db.tasks, ReminderUser);
      if summary == [] {
        message := None;
      } else {
        var entries, total := RenderSummary(summary, UserCategories(db.categories, ReminderUser));
        SummaryTotal(db.tasks, ReminderUser);
        message := Some(SummaryReport(entries, total));
      }
    }

    /** /add, the task text, then a tap on a category button: one new open task, dialogue closed. */
    method AddTaskDialogue(user: int, text: string, category: string) returns (reply: Reply)
      requires Valid() && !Contains(category, SelectPrefix)
      modifies this, db
      ensures Valid()
      ensures db.tasks == old(db.tasks) + [Task(old(db.lastTaskId) + 1, user, text, category, Open)]
      ensures db.categories == old(db.categories)
      ensures reply == TaskAdded(old(db.lastTaskId) + 1, text, category)
      ensures user !in userStates && user !in pendingTasks
    {
      var _ := AddCommand(user);
      var _ := HandleMessage(user, text);
      SelectData(category);
      reply := OnCallback(user, SelectPrefix + category);
    }

    /**
     * /add and the task text, then the add-category button and a fresh name
     * before any category is chosen: the category is added, the state entry
     * is deleted, and the task text stays pending.
     */
    method InterruptWithNewCategory(user: int, text: string, name: string)
      requires Valid() && !HasCategory(db.categories, user, name)
      modifies this, db
      ensures Valid()
      ensures db.categories == old(db.categories) + [Category(user, name, DefaultEmoji)]
      ensures db.tasks == old(db.tasks) && db.lastTaskId == old(db.lastTaskId)
      ensures user in pendingTasks && pendingTasks[user] == text && user !in userStates
    {
      var _ := AddCommand(user);
      var _ := HandleMessage(user, text);
      RouteAddCategory();
      var _ := OnCallback(user, AddCategoryData);
      var _ := HandleMessage(user, name);
    }

    /**
     * A category button tapped after that interruption: the task is still
     * stored, and then the handler raises KeyError.
     */
    method StaleCategoryTap(user: int, text: string, name: string, category: string) returns (reply: Reply)
      requires Valid() && !Contains(category, SelectPrefix) && !HasCategory(db.categories, user, name)
      modifies this, db
      ensures Valid()
      ensures db.categories == old(db.categories) + [Category(user, name, DefaultEmoji)]
      ensures db.tasks == old(db.tasks) + [Task(old(db.lastTaskId) + 1, user, text, category, Open)]
      ensures reply == Raised(KeyError)
      ensures user !in userStates && user !in pendingTasks
    {
      InterruptWithNewCategory(user, text, name);
      SelectData(category);
      reply := OnCallback(user, SelectPrefix + category);
    }
  }
}
