# TelegramToDoBot in Dafny

A model of the Telegram to-do bot: a task and category store kept in one SQLite
file, the per-user dialogue that turns `/add`, a text and a category button
into a stored task, the inline-button callbacks, the statistics add-on
(daily counters, productivity score, 30-day report, motivational band), tags and
search, the combined bot of `run_bot.py` with its start-up decision, and the
configuration classes.

Modules:

- `Wrappers` holds `Option` and `Result`.
- `Text` holds the string operations the bot borrows from Python: `str.replace`, `strip`, ASCII `lower`, `int()`, `rstrip('/')` and `', '.join`.
- `Sequences` holds the stable ordering used for `ORDER BY`, `WHERE` as a filter, and reversal.
- `Schema` holds the table rows and their constraints, plus class `Database`: the SQLite file, with one method per SQL statement that changes it.
- `TaskQueries` holds the `SELECT`s of `main.py` as functions of the tables.
- `Bot` holds class `TodoBot`: the dialogue maps `user_states` and `pending_tasks`, the handlers, and the message-building loops.
- `Statistics` holds `record_user_activity` as a function on the `daily_stats` rows, the window sums, the report, the ranking and the motivational bands.
- `Tagging` holds tag normalisation, the tagging loop, `#word` extraction and search.
- `Enhanced` holds class `EnhancedTodoBot`, which works over the same `Database`.
- `Runner` holds class `AdvancedTodoBot`, plus the `/search` paging and the decision `main()` makes from flags and environment.
- `Config` holds the configuration classes, `BOT_ENV` selection and `validate`.

Conventions of the model:

- A task id comes from AUTOINCREMENT and rows are kept in insertion order. So "ORDER BY created_at DESC" is "id descending". Two tasks created in the same second are ordered by id.
- Dates are day numbers. "Today" is a parameter wherever the code asks the clock.
- The productivity score is stored doubled: `score2 = max(0, 4*completed + 2*created - deleted)`. `Statistics.Score2` proves it equals twice the real-valued formula of the code.
- The completion rate is a real number. `Statistics.MotivationByCounts` restates its bands as whole-number comparisons.
- Replies are abstract values (`Reply`, `SearchReply`, `StatsReport`, `Launch`), not the Hebrew Markdown text.

Points where the code behaves otherwise than its declarations, comments or help texts suggest; the model follows the code:

- `task_tags` declares `ON DELETE CASCADE`, but foreign keys are never switched on. Deleting a task therefore leaves its tags behind (`Schema.Database.DeleteTask`, `Schema.TagsWellFormed`).
- `handle_category_selection` deletes `user_states[user]` without a check. A category tap after the state entry is gone therefore stores the task and then raises `KeyError` (`Bot.TodoBot.StaleCategoryTap`).
- `enhanced_add_task` first calls `add_task`, then `add_task_with_tags`. That inserts the task a second time, and only the copy carries the tags; `task_created` is recorded twice.
- Nothing in the bot calls `enhanced_add_task`; it is only defined (run_bot.py:134). `add_task_with_tags` is reached only from it, and `record_user_activity` only from those two. So the double insert never happens in the running bot, `daily_stats` is never written, and /stats reports zero for the created, completed and deleted totals, the average score and the active days; only the open count and the top categories, which come from `tasks`, move.
- `--production` sets `BOT_ENV` after `config.py` has already chosen its class, so it changes nothing.
- `validate` reads the token `config.py` saw in the environment, not `--token`.
- `run_webhook` is defined by none of the bot classes, so the webhook branch of `main()` always ends with exit code 1.
- The window of `get_user_statistics` is `[today - days, today]`, both ends included, so it covers `days + 1` dates.

## Model

| member | source | states |
|---|---|---|
| `Schema.Database.constructor` | main.py:44-66 | a new file has every table empty, with the tables' constraints holding |
| `Schema.Database.InsertTask` | main.py:117-130 | exactly one open row is appended, with content and category stored as given and an id above every id handed out so far; that id is returned; AUTOINCREMENT order is kept and no other table changes |
| `Schema.Database.InsertCategory` | main.py:100-115 | inserts and returns true exactly when no row has the same owner and name; otherwise returns false and every category, the existing emoji included, stays as it was; UNIQUE(user_id, name) is kept |
| `Schema.Database.UpdateTaskStatus` | main.py:156-170 | returns true exactly when a row with that id and that owner existed; only such rows get the new status, every other row and table is unchanged |
| `Schema.SetStatusAgain` | main.py:161-170 | marking a task done a second time still reports a match and changes nothing further |
| `Schema.Database.DeleteTask` | main.py:172-185 | returns true exactly when a row with that id and owner existed; only such rows go, id order is kept, and the tag rows stay |
| `Schema.Database.InsertTagOrIgnore` | enhanced_features.py:364-367 | a tag row is added only when that (task, tag) pair is absent, so UNIQUE(task_id, tag_name) is kept |
| `TaskQueries.UserCategoriesSpec` | main.py:85-98 | the categories listed are exactly the user's own rows and the owner-0 rows, each once, sorted by name |
| `TaskQueries.GetTasksSpec` | main.py:132-154 | the tasks listed are exactly the user's rows with the status asked for (and the category, when one is given), each once; newest first within a category; grouped by ascending category without a filter |
| `TaskQueries.SummaryEmpty` | main.py:187-205 | the summary is empty exactly when the user has no open task |
| `TaskQueries.GroupCountsOrdered` | main.py:192-198 | the grouped categories come out strictly ascending, so each appears once |
| `TaskQueries.GroupCountsEntries` | main.py:192-198 | every entry names a category of the rows, with its number of rows |
| `TaskQueries.GroupCountsCovers` | main.py:192-198 | every category of the rows has an entry |
| `TaskQueries.GroupCountsTotal` | main.py:192-198 | the counts add up to the number of rows grouped |
| `TaskQueries.CountInPositive` | main.py:192-198 | a category has a positive count exactly when it occurs in the rows |
| `TaskQueries.SummaryTotal` | main.py:187-205 | the summary's counts add up to the length of the user's unfiltered open-task list |
| `TaskQueries.DeletedTaskNotListed` | main.py:172-185 | after a delete, the deleted task appears in no task list |
| `TaskQueries.OpenAfterRemove` | main.py:177-180 | a delete removes from the open list exactly the open rows it hits |
| `TaskQueries.OpenHitsUnique` | main.py:177-180 | with unique ids a delete hits at most one open row, and hits one exactly when such a row exists |
| `TaskQueries.DeleteSummaryTotal` | main.py:172-205 | deleting an open task of the user lowers the summary total by one; deleting anything else leaves it |
| `TaskQueries.EmojiFor` | main.py:313-318 | when some category has that name, the emoji shown is the emoji of such a category (even when it is the folder icon); when none has, it is the folder icon |
| `Bot.DefaultNamesDistinct` | main.py:69-74 | the four default category names are pairwise distinct |
| `Bot.MissingDefaultsIdempotent` | main.py:76-80 | installing the defaults a second time adds nothing |
| `Bot.RouteDone` | main.py:352-354 | task_done_ followed by a text that does not itself contain the prefix reaches the done branch, with int() of that text |
| `Bot.RouteDelete` | main.py:356-358 | task_delete_ followed by a text that does not itself contain the prefix reaches the delete branch, with int() of that text |
| `Bot.RouteTaskButtons` | main.py:427-430 | the done and delete buttons of a task carry its id back to the matching branch unchanged |
| `Bot.RouteListCategory` | main.py:345-347 | a list_category_ button opens its category when the name does not itself contain the prefix |
| `Bot.RouteStripsInnerPrefix` | main.py:345-347 | because every occurrence of the prefix is removed, a category whose name starts with the prefix opens a different category |
| `Bot.RouteNonNumeric` | main.py:352-353 | a done button whose suffix holds a character that is not whitespace, an ASCII digit, a sign or an underscore routes to the ValueError outcome |
| `Bot.RouteUnderscoreId` | main.py:352-358 | task_done_ and task_delete_ followed by two digit runs joined by one underscore act on the task whose id is the digits run together (task_done_1_0 marks task 10) |
| `Text.ParseIntRejects` | main.py:352-358 | int() fails on any text holding a character that is neither whitespace, an ASCII digit, a sign nor an underscore |
| `Text.ParseIntUnderscore` | main.py:352-358 | int() reads two digit runs joined by one underscore as the digits run together |
| `Bot.RouteAddCategory` | main.py:360-361 | the add_new_category data takes the add-category branch |
| `Bot.SelectData` | main.py:514-515 | a select_category_ button carries its category name back when the name does not contain the prefix |
| `Bot.LayoutItems` | main.py:410-430 | every listed task shows up as one item line, in list order |
| `Bot.LayoutHeadersAscend` | main.py:410-424 | on a list sorted by category the headers rise strictly, so no category gets two headers |
| `Bot.LayoutHeadersComplete` | main.py:410-424 | every listed task's category has a header |
| `Bot.LayoutHeadersSound` | main.py:410-424 | every header names the category of a listed task |
| `Bot.LayoutHeaderEmoji` | main.py:415-423 | each header shows the emoji of its category |
| `Bot.AllTasksViewSpec` | main.py:394-433 | the all-tasks view lists every open task of the user once, in list order, with one button row per task and one header per category |
| `Bot.EmojiForFirst` | main.py:314-318 | the first category with the name supplies the emoji |
| `Bot.LookupEmoji` | main.py:314-318 | the search loop stops at the first category with the name and returns its emoji, or the folder icon |
| `Bot.RenderAllTasks` | main.py:410-430 | the message loop produces exactly the lines of the all-tasks layout, and one button row per task, carrying the task ids in order |
| `Bot.GroupHead` | main.py:411-424 | no header for a row in the current category; a header with the category's emoji for the first row; a blank line and then the header when the category changes |
| `Bot.RenderSummary` | main.py:312-321 | one line per summary entry, with its category's emoji, and a total equal to the sum of the counts |
| `Bot.TodoBot.constructor` | main.py:31-36 | no dialogue is in progress for anyone |
| `Bot.TodoBot.InitDatabase` | main.py:38-83 | each default category is added under owner 0 unless that name is already there (whose emoji then stays); afterwards every default is present |
| `Bot.TodoBot.AddCommand` | main.py:226-235 | the user's state becomes waiting-for-task-text; nothing else changes |
| `Bot.TodoBot.HandleMessage` | main.py:457-505 | with no state, text changes nothing; waiting for a task text, the text becomes pending and the state moves to category selection; waiting for a category name, the category is added and the state deleted, or on a collision everything is kept; waiting for a category button, nothing changes |
| `Bot.TodoBot.HandleCategorySelection` | main.py:507-531 | with a pending text, exactly one open task with that text and the chosen category is stored and both dialogue entries are removed (KeyError when the state entry was already gone); without one, nothing changes |
| `Bot.TodoBot.ShowAllTasks` | main.py:394-433 | the reply is the all-tasks view of the current tables |
| `Bot.TodoBot.MarkTaskDone` | main.py:435-444 | only the user's task with that id becomes done; the reply refreshes the view exactly when one matched; no statistics are recorded |
| `Bot.TodoBot.DeleteTaskCallback` | main.py:446-455 | only the user's task with that id is deleted; the reply refreshes the view exactly when one matched |
| `Bot.TodoBot.HandleCallback` | main.py:337-365 | each route does what its branch does: show a category or all tasks, mark or delete the parsed id, raise on a non-numeric id, or await a category name; unknown data changes nothing |
| `Bot.TodoBot.OnCallback` | main.py:569-573 | select_category_ data goes to the selection handler; everything else gets handle_callback's reply and new state for each route (category and full lists, done and delete with their refreshed view or failure, ValueError on a non-numeric id, the add-category prompt, silence), and never touches categories or pending texts |
| `Bot.TodoBot.SummaryCommand` | main.py:296-335 | the no-tasks reply comes exactly when the user has no open task; otherwise one line per category with its open count, and their total |
| `Bot.TodoBot.DailyReminder` | main.py:533-559 | a message is produced exactly when the fixed user has open tasks, listing the summary and its total |
| `Bot.TodoBot.AddTaskDialogue` | main.py:457-531 | /add, a text and a category tap store one new open task and close the dialogue |
| `Bot.TodoBot.InterruptWithNewCategory` | main.py:457-505 | an add-category detour after the task text adds the category, deletes the state and leaves the text pending |
| `Bot.TodoBot.StaleCategoryTap` | main.py:507-531 | a category tap after that detour still stores the task, then raises KeyError |
| `Statistics.Score2` | enhanced_features.py:129-140 | the stored score is twice max(0, 2*completed + created - 0.5*deleted), so it is never negative |
| `Statistics.CountSpec` | enhanced_features.py:103-140 | recording an activity on a day row moves only its own counter, by one, and leaves the score in step with the counters |
| `Statistics.RecordActivityRows` | enhanced_features.py:96-140 | the day row is counted (created first when missing) and every other row is kept |
| `Statistics.RecordActivityCounters` | enhanced_features.py:96-140 | afterwards there is exactly one row for the user and day, holding the old counters (or zeros) with only the named counter moved by one and a matching score; an unknown activity moves no counter; every other row is unchanged |
| `Statistics.RecordActivityScored` | enhanced_features.py:129-140 | scores in step with their counters stay so |
| `Statistics.RecordActivityUnique` | enhanced_features.py:96-100 | recording an activity keeps UNIQUE(user_id, date) on daily_stats |
| `Statistics.ActiveDaysAreRows` | enhanced_features.py:153-162 | under UNIQUE(user_id, date) the distinct dates counted are the user's rows in the window |
| `Statistics.RecordActivityWindow` | enhanced_features.py:89-162 | one recorded activity moves the window total of its counter by one and no other total, and adds an active day exactly when the day had no row |
| `Statistics.AvgProductivity` | enhanced_features.py:158-193 | the average score times the number of active days is the window's score total (stored doubled, so halved); 0 when there are no active days |
| `Statistics.CompletionRate` | enhanced_features.py:197 | rate times created equals 100 times completed when something was created; 0 otherwise |
| `Statistics.RankedLeftOut` | enhanced_features.py:176-185 | a category missing from the first five ranks no higher than the fifth |
| `Statistics.RankedFirstMost` | enhanced_features.py:176-185 | no category of the done tasks has more of them than the first ranked |
| `Statistics.TopCategoriesSpec` | enhanced_features.py:176-185 | at most five categories of the user's done tasks, each once with its number of done tasks, by non-increasing count; a category left out ranks no higher than the fifth, and the first has the most |
| `Statistics.RateAtLeast` | enhanced_features.py:275-279 | comparing the rate with a bound is comparing 100 times completed with the bound times created |
| `Statistics.MotivationByCounts` | enhanced_features.py:265-282 | nothing completed gives the starter message whatever the rate; otherwise the bands 80, 60 and 40 percent are taken in order, and nothing created falls in the lowest band |
| `Tagging.NormalizeTag` | enhanced_features.py:362-363 | a stored tag has no surrounding whitespace and no ASCII capital, and is empty exactly when the input was all whitespace |
| `Tagging.NormalizeTagIdempotent` | enhanced_features.py:362 | normalising a normalised tag changes nothing |
| `Tagging.TagStepSpec` | enhanced_features.py:362-367 | one pass keeps the rows, adds at most the tag's non-empty normal form, and leaves that form stored |
| `Tagging.TagStepWellFormed` | enhanced_features.py:364-367 | INSERT OR IGNORE keeps UNIQUE(task_id, tag_name) |
| `Tagging.TagRowsSpec` | enhanced_features.py:359-367 | the loop keeps existing rows and appends rows for the task only, each a non-empty normal form of a given tag, with no pair repeated |
| `Tagging.TagRowsCover` | enhanced_features.py:359-367 | every tag that is not all whitespace ends up stored for the task |
| `Tagging.FreshTaskTags` | enhanced_features.py:352-367 | for a fresh task id the names stored are exactly the non-empty normal forms of the tags |
| `Tagging.HashTags` | run_bot.py:144 | every tag found is a non-empty run of word characters |
| `Tagging.HashTagsOccur` | run_bot.py:144 | every tag found stands in the text right after a '#' |
| `Tagging.HashTagsFound` | run_bot.py:144-146 | some tag is found exactly when a '#' is directly followed by a word character |
| `Tagging.SearchSpec` | enhanced_features.py:377-399 | the results are exactly the user's open tasks whose content, category or some tag contains the query, case-insensitively, each once, newest first |
| `Tagging.SearchEmptyQuery` | enhanced_features.py:382-394 | an empty query lists every open task of the user, newest first |
| `Tagging.SearchFindsTag` | enhanced_features.py:385-391 | a query that lowers to one of a task's tags finds that open task, whatever the case of its letters |
| `Enhanced.EnhancedTodoBot.constructor` | enhanced_features.py:23-24 | the add-on works over the given file, whose stored scores agree with their counters |
| `Enhanced.EnhancedTodoBot.RecordUserActivity` | enhanced_features.py:89-143 | daily_stats becomes the result of the insert-or-ignore, the counter update and the rescoring; no other table changes and the scores stay in step |
| `Enhanced.EnhancedTodoBot.InsertTags` | enhanced_features.py:359-367 | the tag rows become those the tagging loop writes for the task; nothing else changes |
| `Enhanced.EnhancedTodoBot.AddTaskWithTags` | enhanced_features.py:346-375 | exactly one open task with a fresh id is stored and returned; its tags are exactly the non-empty normalised inputs; one task_created is recorded; categories are untouched |
| `Enhanced.EnhancedTodoBot.StatsCommand` | enhanced_features.py:284-323 | the report holds the 30-day statistics, the 7-day motivation and the first three ranked categories with gold, silver and bronze, by non-increasing count, the first at least any done category's count |
| `Enhanced.Podium` | enhanced_features.py:304-311 | one line for each of the first three ranked categories (fewer when fewer are ranked), gold, silver, then bronze, with the category and its count |
| `Enhanced.PodiumRanked` | enhanced_features.py:176-185 | lines copied from the head of the ranking keep non-increasing counts, and the first holds the largest done count of any category |
| `Runner.AdvancedTodoBot.constructor` | run_bot.py:26-29 | both halves work over one file, with no dialogue in progress |
| `Runner.AdvancedTodoBot.InitDatabase` | run_bot.py:60-64 | the plain bot's defaults are installed; the add-on's tables add no rows |
| `Runner.AdvancedTodoBot.EnhancedAddTask` | run_bot.py:134-153 | returns the id of the plain insert; disabled: one task, no statistics; enabled without a #word: one task, one task_created; enabled with one: a second copy of the task carrying the tags, and task_created recorded twice |
| `Runner.AdvancedTodoBot.TagCopy` | run_bot.py:146-148 | with tags, one open copy of the task with the next id is stored, the tag rows become those the tagging loop writes for it, and one task_created is recorded; without tags nothing changes |
| `Runner.EnhancedAddTaskTags` | run_bot.py:134-153 | the id enhanced_add_task returns carries no tag before or after the copy is tagged, and the copy carries the normal form of every `#word` of the text |
| `Runner.OtherTagsKept` | enhanced_features.py:359-367 | tagging one task gives no tag to another task that had none |
| `Runner.DoubleRecordWindow` | run_bot.py:144-151 | the two records raise the window's created total by two, leave completed and deleted alone, and add at most one active day |
| `Runner.AdvancedTodoBot.SearchCommand` | run_bot.py:102-132 | usage exactly when no words are given; otherwise the query is the words joined by single spaces; no-results exactly when the search is empty; else the first ten results, newest first and each a matching open task of the user, and a "more" count present exactly when there are over ten, equal to the rest |
| `Runner.FirstLines` | run_bot.py:124-126 | one line per result, in order, for the first ten results and no more |
| `Runner.UseWebhookPrecedence` | run_bot.py:266-267 | --webhook wins over --polling, --polling wins over PORT, and an empty PORT still counts as set |
| `Runner.WebhookPortDefault` | run_bot.py:272 | with PORT and WEBHOOK_PORT unset, or PORT empty, the port is 10000 |
| `Runner.WebhookPortOfNumber` | run_bot.py:272 | a PORT written from a number gives that number whatever WEBHOOK_PORT holds; with PORT unset or empty, WEBHOOK_PORT's number is used |
| `Runner.WebhookUrl` | run_bot.py:274-278 | no URL exactly when neither WEBHOOK_URL nor RENDER_EXTERNAL_URL is non-empty; otherwise that base without its trailing slashes, then '/', then the path |
| `Runner.WebhookPlan` | run_bot.py:271-278 | the path defaults to the token, and the URL, when present, ends in '/' and the path |
| `Runner.LaunchSucceeds` | run_bot.py:223-293 | exit code 0 exactly when writing the service file, or when TELEGRAM_BOT_TOKEN is non-empty and the bot polls; polling has enhanced features unless --no-enhanced |
| `Runner.TokenFlagWithoutEnvironment` | run_bot.py:244-259 | --token without TELEGRAM_BOT_TOKEN passes the token check, then fails validation with the token message alone |
| `Runner.ProductionFlagIgnored` | run_bot.py:240-241 | --production changes nothing main() does, including the settings the bot runs with |
| `Runner.ProductionFlagKeepsDevelopment` | config.py:141-144 | with BOT_ENV unset, a bot started with --production that goes on to poll or serve a webhook uses todo_tasks_dev.db at DEBUG level |
| `Text.RStripChar` | run_bot.py:277 | the result is a prefix of the input not ending in the character, and everything removed is that character |
| `Text.IntRoundTrip` | run_bot.py:272 | int() reads back the decimal text of any integer |
| `Config.SettingsFor` | config.py:141-156 | every environment class keeps the token, the time zone and the 500/50 limits; only the testing class turns reminders off |
| `Config.SelectEnvironmentSpec` | config.py:159-166 | unset means development; production or testing exactly when BOT_ENV lowers to that name; anything else means development |
| `Config.Validate` | config.py:115-132 | fails exactly when the token is empty or a length limit is not positive, with the failed checks joined by ", "; otherwise returns true |
| `Config.ValidationErrorsSpec` | config.py:118-130 | each failed check is listed once, no other message is, the token message comes first, and the list is empty exactly when all checks pass |
| `Config.ShippedSettingsValidate` | config.py:115-132 | with the shipped limits, validation fails only for an empty token, and then names the token alone |
| `Config.UserTimezoneFixed` | config.py:134-138 | under every environment, any two users get the same zone, Asia/Jerusalem |

## Left out

- The Telegram transport is not modelled: `Application`, handler registration, `reply_text`, `edit_message_text`, `query.answer`, keyboards and the Markdown message text. Replies are abstract values.
- `start_command`, `categories_command` and `list_command` are not modelled. They only build keyboards from `get_user_categories` and `get_tasks`, which are modelled.
- SQLite plumbing is not modelled: connections, commits, the `CREATE TABLE` statements (here, an empty `Database`), `created_at` and `updated_at` timestamps, and the wording of SQL errors.
- Two tasks created in the same second are ordered by id; SQLite leaves their order open.
- Ties in `ORDER BY count DESC` are left in group order by a stable sort; SQLite leaves their order open.
- The `user_preferences` and `recurring_tasks` tables are created but never read or written, so they are not modelled.
- Clocks and time zones are not modelled: `datetime.now()`, pytz, the date strings (here, day numbers compared as integers) and the `job_queue` that schedules `daily_reminder`.
- Floating point is not modelled. The rate and the average are real numbers, and scores are doubled integers, so there is no `:.1f` formatting or float rounding at band boundaries.
- Rendering beyond the values the model computes is not modelled: the productivity chart (`create_productivity_chart`, `show_productivity_chart`) and the backup files (`backup_user_data`, `backup_command`).
- Process glue is not modelled: logging setup and `log_user_activity`, signal handling, `run_with_monitoring`, `create_systemd_service` (except that `--create-service` exits 0), `render_main.py` and `backup_before_deploy.py`.
- `Tagging.HashTags`: Unicode `\w` is approximated. It treats ASCII letters, digits and '_' as word characters, plus every non-ASCII character that is not whitespace. Non-ASCII punctuation and symbols therefore count as word characters here.
- `Tagging.SearchSpec`: LIKE is modelled as an ASCII case-insensitive substring test. `%` and `_` inside the query are not treated as wildcards, and SQLite's Unicode case rules are not modelled.
- `Tagging.NormalizeTag`: `lower()` lowers only ASCII capitals here, not every Unicode cased letter.
- `Text.ParseInt`: `int()` is modelled on ASCII digits only; Python also accepts other Unicode decimal digits, such as Arabic-Indic ones.
- `Text.ParseIntRejects`: a non-ASCII decimal digit counts as rejected, where Python's `int()` would read it.
- `Bot.RouteNonNumeric`: a non-ASCII decimal digit in the suffix counts as a failed parse, where Python's `int()` would read it.
- Ties in `ORDER BY name` (main.py:93) are kept in table order, so an owner-0 default category comes before a user's own category of the same name, and its emoji is the one shown. SQLite leaves the order of such ties open.
- `Runner.LaunchSucceeds`: the exit code of the webhook branch follows from `run_webhook` being undefined. What a real `run_webhook` would do is not part of this model. Exceptions raised while the bot is built, outside the `try`, are not modelled either.
- `Statistics.AvgProductivity`: the average is of the doubled scores divided by two, over reals; SQLite's float `AVG` is not modelled.
