/**
 * run_bot.py: the bot that joins the plain TodoBot and the statistics add-on over
 * one SQLite file, its tag-aware task insertion and /search command, and the
 * start-up decision of main(): which exit code, and whether to poll or to serve
 * a webhook at which port, path and public URL.
 */
module Runner {
  import opened Wrappers
  import opened Text
  import opened Sequences
  import opened Schema
  import opened Bot
  import opened Statistics
  import opened Tagging
  import opened Enhanced
  import opened Config

  // ---------------------------------------------------------------------------
  // /search replies (run_bot.py:102-132)

  /** One listed result: the task's text, its category and its id. */
  datatype SearchLine = SearchLine(content: string, category: string, id: int)

  datatype SearchReply =
    | SearchUsage
    | NoResults(query: string)
    | Results(query: string, lines: seq<SearchLine>, more: Option<nat>)

  /** How many results a reply lists at most. */
  const MaxListed: nat := 10

  function LineOf(t: Task): SearchLine
  {
    SearchLine(t.content, t.category, t.id)
  }

  // ---------------------------------------------------------------------------
  // Two task_created records on one day

  /**
   * The day's row is found by the second call, so the window's created total
   * grows by two while the number of active days grows by at most one.
   */
  lemma DoubleRecordWindow(stats: seq<DailyStat>, user: int, today: int, days: nat)
    requires StatsUnique(stats)
    ensures var once := RecordActivity(stats, user, today, "task_created");
      var twice := RecordActivity(once, user, today, "task_created");
      && WindowSum(twice, user, today - days, today, CreatedOf) == WindowSum(stats, user, today - days, today, CreatedOf) + 2
      && WindowSum(twice, user, today - days, today, CompletedOf) == WindowSum(stats, user, today - days, today, CompletedOf)
      && WindowSum(twice, user, today - days, today, DeletedOf) == WindowSum(stats, user, today - days, today, DeletedOf)
      && WindowSum(twice, user, today - days, today, One) == WindowSum(stats, user, today - days, today, One) + (if HasDay(stats, user, today) then 0 else 1)
  {
    var once := RecordActivity(stats, user, today, "task_created");
    RecordActivityCounters(stats, user, today, "task_created");
    RecordActivityWindow(stats, user, today, days, "task_created");
    RecordActivityWindow(once, user, today, days, "task_created");
  }

  /** No task_tags row names the task. */
  predicate Untagged(rows: seq<TaskTag>, taskId: int)
  {
    forall i :: 0 <= i < |rows| ==> rows[i].taskId != taskId
  }

  /** Tagging one task leaves every other task without tags if it had none. */
  lemma OtherTagsKept(rows: seq<TaskTag>, lastId: nat, taskId: int, tags: seq<string>, other: int)
    requires TagsWellFormed(rows, lastId) && taskId <= lastId && other != taskId
    requires Untagged(rows, other)
    ensures Untagged(TagRows(rows, taskId, tags), other)
  {
    TagRowsSpec(rows, lastId, taskId, tags);
    var r := TagRows(rows, taskId, tags);
    forall i | 0 <= i < |r| ensures r[i].taskId != other {
      if i < |rows| {
        assert r[i] == r[..|rows|][i];
      }
    }
  }

  /** No tag names an id above the counter. */
  lemma NoTagsAbove(rows: seq<TaskTag>, lastId: nat, other: int)
    requires TagsWellFormed(rows, lastId) && lastId < other
    ensures Untagged(rows, other)
  {
  }

  /**
   * The tags enhanced_add_task leaves behind, from the rows before it and the
   * counter: the id it returns never carries a tag, since none names it before
   * the insert and the tags that follow go to the copy inserted after it; and
   * the copy carries every `#word` of the text.
   */
  lemma EnhancedAddTaskTags(rows: seq<TaskTag>, lastId: nat, content: string)
    requires TagsWellFormed(rows, lastId)
    ensures Untagged(rows, lastId + 1)
    ensures var r := TagRows(rows, lastId + 2, HashTags(content));
      && Untagged(r, lastId + 1)
      && forall k :: 0 <= k < |HashTags(content)| ==> HasTag(r, lastId + 2, NormalizeTag(HashTags(content)[k]))
  {
    NoTagsAbove(rows, lastId, lastId + 1);
    assert TagsWellFormed(rows, lastId + 2);
    OtherTagsKept(rows, lastId + 2, lastId + 2, HashTags(content), lastId + 1);
    HashTagsStored(content);
    TagRowsCover(rows, lastId + 2, HashTags(content));
  }

  /** Every `#word` tag has a non-empty normal form, so each one is stored. */
  lemma HashTagsStored(content: string)
    ensures forall k :: 0 <= k < |HashTags(content)| ==> NormalizeTag(HashTags(content)[k]) != []
  {
    var tags := HashTags(content);
    forall k | 0 <= k < |tags| ensures NormalizeTag(tags[k]) != [] {
      assert IsWordChar(tags[k][0]);
      assert !IsSpace(tags[k][0]);
    }
  }

  /** What search_tasks returns, index by index: open tasks of the user that match, newest first. */
  lemma ListedResults(tasks: seq<Task>, lastId: nat, tags: seq<TaskTag>, user: int, q: string)
    requires TasksWellFormed(tasks, lastId)
    ensures var r := SearchTasks(tasks, tags, user, q);
      && (forall k :: 0 <= k < |r| ==> r[k] in tasks && SearchHit(r[k], tags, user, q))
      && (forall i, j :: 0 <= i < j < |r| ==> r[i].id > r[j].id)
  {
    var r := SearchTasks(tasks, tags, user, q);
    SearchSpec(tasks, lastId, tags, user, q);
    forall k | 0 <= k < |r| ensures r[k] in tasks && SearchHit(r[k], tags, user, q) {
      assert r[k] in r;
    }
    forall i, j | 0 <= i < j < |r| ensures r[i].id > r[j].id {
      assert TaskId(r[i]) > TaskId(r[j]);
    }
  }

  /** The loop over results[:10] in search_command (run_bot.py:124-126): one line per listed task, in order. */
  method FirstLines(results: seq<Task>) returns (lines: seq<SearchLine>)
    ensures |lines| == (if |results| < MaxListed then |results| else MaxListed)
    ensures forall i :: 0 <= i < |lines| ==> lines[i] == LineOf(results[i])
  {
    var n := if |results| < MaxListed then |results| else MaxListed;
    lines := [];
    var i := 0;
    while i < n
      invariant 0 <= i <= n
      invariant |lines| == i
      invariant forall k :: 0 <= k < i ==> lines[k] == LineOf(results[k])
    {
      lines := lines + [LineOf(results[i])];
      i := i + 1;
    }
  }

  class AdvancedTodoBot {
    /** The SQLite file both halves open. */
    const db: Database
    /** The TodoBot half: store, dialogue and callbacks. */
    const bot: TodoBot
    /** The EnhancedTodoBot half: statistics, tags and search. */
    const enhanced: EnhancedTodoBot
    /** enable_enhanced_features, that is, no --no-enhanced flag. */
    const enableEnhanced: bool

    ghost predicate Valid()
      reads db
    {
      bot.db == db && enhanced.db == db && enhanced.Valid()
    }

    /** __init__ (run_bot.py:26-29): both halves built over the same file. */
    constructor (db: Database, enableEnhanced: bool)
      requires db.Valid() && Scored(db.dailyStats)
      ensures Valid() && this.db == db && this.enableEnhanced == enableEnhanced
      ensures fresh(bot) && fresh(enhanced)
      ensures bot.userStates == map[] && bot.pendingTasks == map[]
    {
      this.db := db;
      bot := new TodoBot(db);
      enhanced := new EnhancedTodoBot(db);
      this.enableEnhanced := enableEnhanced;
    }

    /**
     * init_database (run_bot.py:60-64): the plain bot's tables and default
     * categories; the add-on's tables only need creating, which changes no row.
     */
    method InitDatabase()
      requires Valid()
      modifies db
      ensures Valid()
      ensures db.categories == old(db.categories) + MissingDefaults(old(db.categories))
      ensures forall i :: 0 <= i < |DefaultCategories| ==> HasCategory(db.categories, GlobalOwner, DefaultCategories[i].name)
      ensures db.tasks == old(db.tasks) && db.lastTaskId == old(db.lastTaskId)
      ensures db.taskTags == old(db.taskTags) && db.dailyStats == old(db.dailyStats)
    {
      bot.InitDatabase();
    }

    /**
     * enhanced_add_task (run_bot.py:134-153). The task goes in through the plain
     * add_task and its id is returned. With the add-on on, `#word` tags in the
     * text make add_task_with_tags insert a second copy of the task, which gets
     * the tags and a task_created record of its own; task_created is then
     * recorded once more.
     */
    method EnhancedAddTask(user: int, content: string, category: string, today: int) returns (id: int)
      requires Valid()
      modifies db
      ensures Valid()
      ensures id == old(db.lastTaskId) + 1
      ensures db.categories == old(db.categories)
      ensures !enableEnhanced ==>
        && db.tasks == old(db.tasks) + [Task(id, user, content, category, Open)]
        && db.lastTaskId == id
        && db.taskTags == old(db.taskTags) && db.dailyStats == old(db.dailyStats)
      ensures enableEnhanced && !HasHashWord(content) ==>
        && db.tasks == old(db.tasks) + [Task(id, user, content, category, Open)]
        && db.lastTaskId == id
        && db.taskTags == old(db.taskTags)
        && db.dailyStats == RecordActivity(old(db.dailyStats), user, today, "task_created")
      ensures enableEnhanced && HasHashWord(content) ==>
        && db.tasks == old(db.tasks) + [Task(id, user, content, category, Open), Task(id + 1, user, content, category, Open)]
        && db.lastTaskId == id + 1
        && db.taskTags == TagRows(old(db.taskTags), id + 1, HashTags(content))
        && db.dailyStats == RecordActivity(RecordActivity(old(db.dailyStats), user, today, "task_created"), user, today, "task_created")
    {
      id := db.InsertTask(user, content, category);
      if enableEnhanced {
        var tags := HashTags(content);
        HashTagsFound(content);
        TagCopy(user, content, category, tags, today, id);
        enhanced.RecordUserActivity(user, "task_created", today);
      }
    }

    /**
     * The tagging step of enhanced_add_task (run_bot.py:146-148), run after the
     * plain insert of task `id` with the tags found in its text: when there are
     * any, add_task_with_tags inserts a copy of the task carrying them and
     * records task_created; otherwise nothing changes.
     */
    method TagCopy(user: int, content: string, category: string, tags: seq<string>, today: int, id: int)
      requires Valid() && id == db.lastTaskId
      modifies db
      ensures Valid()
      ensures db.categories == old(db.categories)
      ensures tags == [] ==>
        && db.tasks == old(db.tasks) && db.lastTaskId == id
        && db.taskTags == old(db.taskTags) && db.dailyStats == old(db.dailyStats)
      ensures tags != [] ==>
        && db.tasks == old(db.tasks) + [Task(id + 1, user, content, category, Open)]
        && db.lastTaskId == id + 1
        && db.taskTags == TagRows(old(db.taskTags), id + 1, tags)
        && db.dailyStats == RecordActivity(old(db.dailyStats), user, today, "task_created")
    {
      if tags != [] {
        var copy := enhanced.AddTaskWithTags(user, content, category, tags, today);
      }
    }

    /**
     * search_command (run_bot.py:102-132): usage when no words follow /search;
     * otherwise the words joined by single spaces are searched, and the first ten
     * results are listed newest first with a note of how many more there are.
     */
    method SearchCommand(user: int, args: seq<string>) returns (reply: SearchReply)
      requires Valid()
      ensures reply.SearchUsage? <==> args == []
      ensures args != [] ==> reply.query == Join(args, " ")
      ensures var results := SearchTasks(db.tasks, db.taskTags, user, Join(args, " "));
        && (reply.NoResults? <==> args != [] && results == [])
        && (reply.Results? ==>
              && |reply.lines| == (if |results| < MaxListed then |results| else MaxListed)
              && (forall i :: 0 <= i < |reply.lines| ==> reply.lines[i] == LineOf(results[i]))
              && (reply.more.Some? <==> |results| > MaxListed)
              && |reply.lines| + reply.more.GetOr(0) == |results|)
      ensures reply.Results? ==> forall i, j :: 0 <= i < j < |reply.lines| ==> reply.lines[i].id > reply.lines[j].id
      ensures reply.Results? ==> forall i :: 0 <= i < |reply.lines| ==>
        exists t :: t in db.tasks && LineOf(t) == reply.lines[i] && SearchHit(t, db.taskTags, user, reply.query)
    {
      if args == [] {
        return SearchUsage;
      }
      var query := Join(args, " ");
      var results := SearchTasks(db.tasks, db.taskTags, user, query);
      ListedResults(db.tasks, db.lastTaskId, db.taskTags, user, query);
      if results == [] {
        return NoResults(query);
      }
      var lines := FirstLines(results);
      var more := if |results| > MaxListed then Some(|results| - MaxListed) else None;
      reply := Results(query, lines, more);
      forall k | 0 <= k < |lines|
        ensures exists t :: t in db.tasks && LineOf(t) == lines[k] && SearchHit(t, db.taskTags, user, query)
      {
        assert results[k] in db.tasks && LineOf(results[k]) == lines[k];
      }
    }
  }

  // ---------------------------------------------------------------------------
  // main() (run_bot.py:223-293)

  /** The command-line flags main() reads; --token is None when not given. */
  datatype Flags = Flags(
    production: bool,
    noEnhanced: bool,
    createService: bool,
    token: Option<string>,
    webhook: bool,
    polling: bool)

  /** The environment variables main() and config.py read; None when unset. */
  datatype Environ = Environ(
    botToken: Option<string>,
    botEnv: Option<string>,
    port: Option<string>,
    webhookPort: Option<string>,
    webhookPath: Option<string>,
    webhookUrl: Option<string>,
    renderUrl: Option<string>)

  /**
   * Where main() ends. Webhook carries the port (None when it does not parse),
   * the URL path and the public URL it computed; Webhook and Polling carry the
   * settings the bot then runs with (database file, log level).
   */
  datatype Launch =
    | ServiceFile
    | NoToken
    | BadConfig(message: string)
    | Webhook(port: Option<int>, urlPath: string, webhookUrl: Option<string>, settings: Settings)
    | Polling(enhanced: bool, settings: Settings)

  /** Python's `a or b` on two optional strings: a unless it is unset or empty. */
  function OrElse(a: Option<string>, b: Option<string>): Option<string>
  {
    if a.Some? && a.value != "" then a else b
  }

  /** use_webhook (run_bot.py:266-267): --webhook, or PORT set (even to "") without --polling. */
  function UseWebhook(webhookFlag: bool, port: Option<string>, polling: bool): bool
  {
    webhookFlag || (port.Some? && !polling)
  }

  /** --webhook wins over --polling, --polling wins over PORT, and an empty PORT still counts as set. */
  lemma UseWebhookPrecedence(port: Option<string>)
    ensures UseWebhook(true, port, true)
    ensures !UseWebhook(false, port, true)
    ensures UseWebhook(false, Some(""), false)
    ensures !UseWebhook(false, None, false)
  {
  }

  /**
   * int(port_env or os.getenv('WEBHOOK_PORT', '10000')) (run_bot.py:272): None
   * when the chosen text is not a decimal integer.
   */
  function WebhookPort(port: Option<string>, webhookPort: Option<string>): Option<int>
  {
    ParseInt(OrElse(port, Some(webhookPort.GetOr("10000"))).value)
  }

  /** With PORT and WEBHOOK_PORT both unset, or PORT empty, the port is 10000. */
  lemma WebhookPortDefault()
    ensures WebhookPort(None, None) == Some(10000)
    ensures WebhookPort(Some(""), None) == Some(10000)
  {
    DefaultPortParses();
  }

  /** The fallback text "10000" reads as the number 10000. */
  lemma DefaultPortParses()
    ensures ParseInt("10000") == Some(10000)
  {
    assert NatToString(1) == "1";
    assert NatToString(10) == "10";
    assert NatToString(100) == "100";
    assert NatToString(1000) == "1000";
    assert IntToString(10000) == "10000";
    IntRoundTrip(10000);
  }

  /**
   * A PORT holding the decimal text of a number selects that number, whatever
   * WEBHOOK_PORT says; with PORT unset or empty, WEBHOOK_PORT's number is used.
   */
  lemma WebhookPortOfNumber(n: int, webhookPort: Option<string>)
    ensures WebhookPort(Some(IntToString(n)), webhookPort) == Some(n)
    ensures WebhookPort(None, Some(IntToString(n))) == Some(n)
    ensures WebhookPort(Some(""), Some(IntToString(n))) == Some(n)
  {
    IntRoundTrip(n);
    assert ParseInt("") == None;
  }

  /**
   * The public webhook URL (run_bot.py:274-278): WEBHOOK_URL, or when that is
   * unset or empty RENDER_EXTERNAL_URL; with its trailing slashes removed, a
   * slash and the path appended; None when neither is a non-empty string.
   */
  function WebhookUrl(webhookUrl: Option<string>, renderUrl: Option<string>, path: string): (r: Option<string>)
    ensures var ext := OrElse(webhookUrl, renderUrl).GetOr("");
      && (r.None? <==> ext == "")
      && (r.Some? ==>
            |r.value| > |path| &&
            var u := r.value;
            var base := u[..|u| - |path| - 1];
            && u[|u| - |path| - 1..] == "/" + path
            && |base| <= |ext| && base == ext[..|base|]
            && (base == [] || base[|base| - 1] != '/')
            && (forall i :: |base| <= i < |ext| ==> ext[i] == '/'))
    ensures webhookUrl.Some? && webhookUrl.value != "" ==> r.Some? && StartsWith(webhookUrl.value, r.value[..|r.value| - |path| - 1])
  {
    var ext := OrElse(webhookUrl, renderUrl).GetOr("");
    if ext != "" then
      var base := RStripChar(ext, '/');
      var u := base + "/" + path;
      assert u[..|u| - |path| - 1] == base;
      assert u[|u| - |path| - 1..] == "/" + path;
      Some(u)
    else
      None
  }

  /** The URL path: WEBHOOK_PATH when set, even to "", else the token. */
  function UrlPath(webhookPath: Option<string>, token: string): string
  {
    webhookPath.GetOr(token)
  }

  /**
   * main() (run_bot.py:223-293). The token is --token or TELEGRAM_BOT_TOKEN; the
   * configuration class was chosen from BOT_ENV when config.py was imported, so
   * --production, which only sets BOT_ENV afterwards, does not change it; and
   * validate reads the token config.py saw, not --token.
   */
  function LaunchOf(f: Flags, env: Environ): Launch
  {
    if f.createService then ServiceFile
    else
      var token := OrElse(f.token, env.botToken).GetOr("");
      if token == "" then NoToken
      else
        var settings := SettingsFor(SelectEnvironment(env.botEnv), env.botToken.GetOr(""));
        var errors := ValidationErrors(settings);
        if errors != [] then BadConfig("Configuration errors: " + Join(errors, ", "))
        else if UseWebhook(f.webhook, env.port, f.polling) then
          var path := UrlPath(env.webhookPath, token);
          Webhook(WebhookPort(env.port, env.webhookPort), path, WebhookUrl(env.webhookUrl, env.renderUrl, path), settings)
        else Polling(!f.noEnhanced, settings)
  }

  /**
   * The process exit code. run_webhook is not defined by TodoBot,
   * EnhancedTodoBot or AdvancedTodoBot, so the webhook branch ends in the
   * AttributeError handler (or in the ValueError one when the port does not
   * parse); polling catches everything it meets and returns 0.
   */
  function ExitCode(l: Launch): int
  {
    match l
    case ServiceFile => 0
    case Polling(_, _) => 0
    case _ => 1
  }

  /**
   * main() succeeds exactly when it writes the service file, or when
   * TELEGRAM_BOT_TOKEN is a non-empty string and the bot polls; --token alone
   * is not enough, and the webhook branch never succeeds.
   */
  lemma LaunchSucceeds(f: Flags, env: Environ)
    ensures ExitCode(LaunchOf(f, env)) == 0 <==>
      (f.createService || (env.botToken.Some? && env.botToken.value != "" && !UseWebhook(f.webhook, env.port, f.polling)))
    ensures LaunchOf(f, env).Polling? ==> LaunchOf(f, env).enhanced == !f.noEnhanced
  {
    var settings := SettingsFor(SelectEnvironment(env.botEnv), env.botToken.GetOr(""));
    ShippedSettingsValidate(SelectEnvironment(env.botEnv), env.botToken.GetOr(""));
  }

  /**
   * With --token given but TELEGRAM_BOT_TOKEN unset or empty, main() passes the
   * token check and then fails validation on the token alone.
   */
  lemma TokenFlagWithoutEnvironment(f: Flags, env: Environ)
    requires !f.createService && f.token.Some? && f.token.value != ""
    requires env.botToken.None? || env.botToken.value == ""
    ensures LaunchOf(f, env) == BadConfig("Configuration errors: " + TokenError)
  {
    ShippedSettingsValidate(SelectEnvironment(env.botEnv), "");
  }

  /** --production changes nothing main() does, the settings it runs with included. */
  lemma ProductionFlagIgnored(f: Flags, env: Environ)
    ensures LaunchOf(f.(production := true), env) == LaunchOf(f.(production := false), env)
  {
  }

  /**
   * With BOT_ENV unset, a bot started with --production still runs on the
   * development database at DEBUG level.
   */
  lemma ProductionFlagKeepsDevelopment(f: Flags, env: Environ)
    requires f.production && env.botEnv.None?
    ensures var l := LaunchOf(f, env);
      (l.Polling? || l.Webhook?) ==> l.settings.databaseName == "todo_tasks_dev.db" && l.settings.logLevel == "DEBUG"
  {
  }

  /**
   * In the webhook branch the path defaults to the token, and the URL, when
   * there is one, ends in "/" followed by that path.
   */
  lemma WebhookPlan(f: Flags, env: Environ)
    requires LaunchOf(f, env).Webhook?
    ensures var l := LaunchOf(f, env);
      && l.urlPath == env.webhookPath.GetOr(OrElse(f.token, env.botToken).value)
      && (l.webhookUrl.Some? <==> OrElse(env.webhookUrl, env.renderUrl).GetOr("") != "")
      && (l.webhookUrl.Some? ==> var u := l.webhookUrl.value; |u| > |l.urlPath| && u[|u| - |l.urlPath| - 1..] == "/" + l.urlPath)
  {
  }
}
