# Task scheduling of the English-learning backend, in Dafny

This project models the practice-task scheduler of the English-learning
backend. The scheduler has four parts:

- `POST /tasks` validates a task definition, expands it into dated task
  items (`create_task_items_by_cycle`), and stores the task with
  `task_num` set to the number of items.
- `PUT /tasks/<id>` edits a task, key by key. Moving a task to
  `completed` stamps its finish date once.
- `PUT /task-items/<id>` records progress on one item. The first score an
  item receives counts it in the task's `finished_task_num`.
- `DELETE /task-items/<id>` removes an item. Two listings show items: the
  items still open at the end of today, and the items of one task.

Modules:

- `Common`: nullable values, request keys (missing, `null` or a value),
  results and error responses.
- `Calendar`: timestamps in microseconds, days, midnight and
  `datetime.weekday()`.
- `WeekDays`: parsing of the weekday string (`split`, `strip`, `isdigit`,
  `int`, and the `except` that empties the list when `int` raises).
- `Schedule`: the planned dates of each cycle type, as functions, with
  their properties.
- `Models`: tasks (objects updated in place), task-item rows, and the
  database that holds both.
- `Tasks`: the expansion loops (daily, and weekly week by week), task
  creation and task update.
- `TaskItems`: the item update, deletion, and the two listings.

The expansion methods keep the source's loops. Each loop is proved to
append exactly the items of the planned dates. The properties of the plans
are proved for the functions:

- a daily task runs 30 days, or up to its end date;
- a weekly task runs 12 weeks of every parsed weekday, or until the first
  week with nothing left in range;
- with an end date, every in-range date of a selected weekday is planned
  and nothing past the end is.

Progress bookkeeping follows the code. A score cleared with `null` and set
again counts the item a second time. This is proved by
`TaskItems.ClearAndRescoreCountsTwice`. Because of it, `finished_task_num
<= task_num` is not an invariant of these routes. Without a clearing request an item is counted at most once. This
is proved by `TaskItems.CountedOnce`.

## Model

| member | source | states |
|---|---|---|
| Calendar.WeekdayAfterDays | backend/app/routes/tasks.py:175-179 | moving `n` whole days moves the day number by `n` and `weekday()` by `n` mod 7 |
| Calendar.Midnight | backend/app/routes/task_items.py:51-52 | midnight of day `d` is the first instant of day `d` (`Days(d)`), and it lies on day `d` |
| Calendar.DayOfBounds | backend/app/routes/task_items.py:51 | every instant lies within the day `date()` gives it |
| WeekDays.Split | backend/app/routes/tasks.py:162 | `str.split(',')` always gives at least one part |
| WeekDays.SplitSeparatorFree | backend/app/routes/tasks.py:162 | no part of a split contains the separator |
| WeekDays.JoinSplit | backend/app/routes/tasks.py:162 | joining the parts of a split with the separator gives the string back |
| WeekDays.SplitJoin | backend/app/routes/tasks.py:162 | splitting a joined list of separator-free parts gives the parts back |
| WeekDays.SplitNoSep | backend/app/routes/tasks.py:162 | a string without a comma is one part |
| WeekDays.SplitConcat | backend/app/routes/tasks.py:162 | splitting at one comma gives the left parts followed by the right parts |
| WeekDays.LeftMargin | backend/app/routes/tasks.py:162 | the leading whitespace run that `strip()` drops ends at the first non-space character |
| WeekDays.RightMargin | backend/app/routes/tasks.py:162 | the trailing whitespace run that `strip()` drops starts after the last non-space character |
| WeekDays.StripSpec | backend/app/routes/tasks.py:162 | `strip()` leaves a slice of the token, with whitespace margins cut on both sides and a non-space character at each end |
| WeekDays.DecimalValue | backend/app/routes/tasks.py:162 | `int` reads each decimal digit of any script as a value 0..9 |
| WeekDays.Decimal | backend/app/routes/tasks.py:162 | a number's decimal rendering is `isdigit` text in ASCII digits, without a leading zero, that `int` accepts |
| WeekDays.DigitsValueDecimal | backend/app/routes/tasks.py:162 | `int()` reads back the number its decimal rendering spells |
| WeekDays.Select | backend/app/routes/tasks.py:162 | the comprehension keeps at most one weekday per token |
| WeekDays.TokenDay | backend/app/routes/tasks.py:162 | a token contributes at most one weekday |
| WeekDays.GatherBound | backend/app/routes/tasks.py:162 | a rule that keeps at most one weekday per token keeps at most one per token over a list |
| WeekDays.GatherRaises | backend/app/routes/tasks.py:161-164 | a comprehension raises exactly when its rule raises on some token |
| WeekDays.GatherConcat | backend/app/routes/tasks.py:161-164 | a comprehension over two lists raises exactly when it raises on either, and otherwise concatenates their results |
| WeekDays.GatherNone | backend/app/routes/tasks.py:162 | a comprehension over tokens its rule keeps nothing of selects nothing and raises nowhere |
| WeekDays.GatherSingle | backend/app/routes/tasks.py:162 | a comprehension over one token gives that token's result |
| WeekDays.SelectSingle | backend/app/routes/tasks.py:162 | the weekday comprehension over one token is that token's contribution |
| WeekDays.SelectRaises | backend/app/routes/tasks.py:161-164 | the comprehension raises exactly when `int` raises on one of the tokens `isdigit` lets through |
| WeekDays.ParseWeekDays | backend/app/routes/tasks.py:161-164 | at most one weekday per comma-separated part, and the empty list when `int` raises on any part |
| WeekDays.SelectConcat | backend/app/routes/tasks.py:161-164 | the comprehension over two token lists raises exactly when it raises on either, and otherwise concatenates their results |
| WeekDays.ParseWeekDaysConcat | backend/app/routes/tasks.py:161-164 | text joined at a comma is refused exactly when one side is, and then gives no weekday; otherwise the weekday list keeps token order and duplicates |
| WeekDays.ParseWeekDaysToken | backend/app/routes/tasks.py:161-164 | one token gives its number when, once stripped, `isdigit` accepts it and it is decimal; nothing when `isdigit` refuses it; and nothing, through the `except`, when `int` raises on it |
| WeekDays.SelectNone | backend/app/routes/tasks.py:161-166 | text without a token `isdigit` accepts selects no weekday and raises nowhere, so the weekly branch plans nothing |
| WeekDays.ArabicIndicThree | backend/app/routes/tasks.py:161-164 | the Arabic-Indic digit three selects weekday 3 |
| WeekDays.AsciiOne | backend/app/routes/tasks.py:161-164 | `"1"` selects weekday 1 and raises nowhere |
| WeekDays.SuperscriptRefused | backend/app/routes/tasks.py:161-164 | `"²"` passes `isdigit` and makes `int` raise |
| WeekDays.SuperscriptEmptiesList | backend/app/routes/tasks.py:161-164 | `"1"` selects weekday 1, but `"1,²"` selects none: the superscript passes `isdigit`, fails `int`, and the `except` empties the whole list |
| Schedule.DailyDates | backend/app/routes/tasks.py:139-157 | without an end date: 30 consecutive days from the start; with one: every day from the start while not past the end, the next day past it, and nothing when the end is before the start |
| Schedule.Planned | backend/app/routes/tasks.py:137-216 | a `once` task plans exactly one item at now; a weekly task with a falsy weekday string and any unknown cycle type plan nothing |
| Schedule.DaysAhead | backend/app/routes/tasks.py:174-176 | `days_ahead`: the weekday's distance from the start's weekday, moved on a week when negative (its range is stated by `DaysAheadRange`) |
| Schedule.ItemDate | backend/app/routes/tasks.py:178 | `item_date` of a weekday in week `w` (its bounds and weekday are stated by the three `ItemDate` lemmas) |
| Schedule.DaysAheadRange | backend/app/routes/tasks.py:175-177 | `days_ahead` is never negative; for a weekday 0..6 it is below 7 and lands on that weekday |
| Schedule.ItemDateBounds | backend/app/routes/tasks.py:179 | the date of week `w` is at least `7w` days after the start; for a weekday `wd` in 0..6 it also lies before day `7w + 7` |
| Schedule.ItemDateWeekday | backend/app/routes/tasks.py:175-179 | a weekday 0..6 is planned on that weekday, never before the start, and in week 0 within six days of it |
| Schedule.ItemDateNextWeek | backend/app/routes/tasks.py:179 | each weekday's date moves on by exactly seven days per week |
| Schedule.WeekPrefix | backend/app/routes/tasks.py:172-192 | the first `i` weekday entries of a week give at most `i` dates |
| Schedule.WeeklyDates | backend/app/routes/tasks.py:159-201 | the weekly plan: the weeks below the week bound, in order (characterised by `WeeklyOpen`, `WeeklyBoundedMembers` and `StopAtEmptyWeek`) |
| Schedule.Recurring | backend/app/routes/tasks.py:139-201 | the daily plan, the weekly plan of the parsed weekdays when `week_days` is truthy, and nothing for any other cycle type |
| Schedule.WeeklyTurn | backend/app/routes/tasks.py:170-201 | one turn of the weekly `while True` loop keeps the loop state, and on exit the rows are the weekly plan |
| Schedule.PlannedAsWritten | backend/app/routes/tasks.py:203-215 | the `once` branch as written raises, and only that branch |
| Schedule.WeekPrefixOpenLength | backend/app/routes/tasks.py:172-192 | without an end date every weekday entry gives a date |
| Schedule.WeekPrefixOpenAt | backend/app/routes/tasks.py:172-192 | without an end date entry `k` of week `w` is the date of weekday `wds[k]` in that week |
| Schedule.RowsOpenLength | backend/app/routes/tasks.py:170-201 | without an end date, `n` weeks hold `n * len(wds)` dates |
| Schedule.RowsOpenAt | backend/app/routes/tasks.py:170-201 | without an end date, the date of entry `i` in week `w` sits at position `w * len(wds) + i` |
| Schedule.WeeklyOpen | backend/app/routes/tasks.py:170-198 | without an end date the plan has exactly `12 * len(wds)` dates, week by week in weekday-list order |
| Schedule.WeekPrefixMembers | backend/app/routes/tasks.py:172-190 | the dates of the first `i` entries are exactly their in-range dates |
| Schedule.WeekRowMembers | backend/app/routes/tasks.py:172-190 | a week's dates are exactly the in-range dates of its weekday entries |
| Schedule.RowsMembers | backend/app/routes/tasks.py:170-201 | the dates of weeks `0..n-1` are exactly the in-range dates of those weeks |
| Schedule.PastBound | backend/app/routes/tasks.py:199-201 | a week whose start is not past the end date lies below the week bound |
| Schedule.WeeklyBoundedMembers | backend/app/routes/tasks.py:170-201 | with an end date, a date is planned exactly when it is some selected weekday's date in some week and not past the end |
| Schedule.WeekRowEmpty | backend/app/routes/tasks.py:182-201 | a week is empty exactly when all its weekday dates are past the end |
| Schedule.EmptyWeekStaysEmpty | backend/app/routes/tasks.py:199-201 | after an empty week every later week is empty, so stopping there loses nothing |
| Schedule.BeyondBoundEmpty | backend/app/routes/tasks.py:199-201 | weeks at or past the bound are empty |
| Schedule.RowsStable | backend/app/routes/tasks.py:199-201 | appending empty weeks leaves the plan unchanged |
| Schedule.StopAtEmptyWeek | backend/app/routes/tasks.py:199-201 | the weeks before the first empty week are the whole plan |
| Schedule.WeeklyNoWeekdays | backend/app/routes/tasks.py:166 | an empty weekday list plans nothing |
| Models.Task.constructor | backend/app/routes/tasks.py:104-114 | a new task has the requested attributes, no items counted yet, and equal create and update dates |
| Models.NewItems | backend/app/routes/tasks.py:142-150 | one item per planned date |
| Models.NewItemsAt | backend/app/routes/tasks.py:142-150 | item `k` is planned for date `k`, with the owner, task and resource of the task and no begin time, end time or score |
| Models.NewItemsSnoc | backend/app/routes/tasks.py:150 | adding one more item extends the table by the next item |
| Models.NewItemsConcat | backend/app/routes/tasks.py:170-190 | the items of two runs of dates are the items of each run, numbered on |
| Models.WellNumberedAppend | backend/app/routes/tasks.py:150 | appending new items keeps row ids increasing and below the next id |
| Models.FindTask | backend/app/routes/task_items.py:204-207 | the lookup finds a task with that id (and owner) or reports that there is none |
| Tasks.CreateTaskItemsByCycle | backend/app/routes/tasks.py:133-216 | the table gains exactly one new item per planned date, in plan order, and the returned count is their number |
| Tasks.AddDaily | backend/app/routes/tasks.py:139-157 | the daily loop appends exactly the items of the daily plan |
| Tasks.AddWeek | backend/app/routes/tasks.py:172-192 | one pass of the inner `for` loop appends exactly that week's in-range items and reports whether there was any |
| Tasks.AddWeekly | backend/app/routes/tasks.py:159-201 | the weekly loop appends exactly the items of the weekly plan |
| Tasks.Accept | backend/app/routes/tasks.py:68-114 | a create request is accepted exactly when all checks pass; each check, once the earlier ones pass, fixes the failure: a missing `task_type` or `task_plan_date` key, an invalid type, an invalid or `null` status and an unknown resource are 400 with their reason, a `null` plan date is 500, a plan date or truthy finish date that is not a date is 400, and a missing `cycle_type` or `week_days` key is 500; an accepted request stores its values, with status `pending` by default |
| Tasks.CreateTask | backend/app/routes/tasks.py:62-130 | a refused request changes nothing; an accepted one adds the task and all its items together, with `task_num` equal to the number of items and no finished item |
| Tasks.PatchError | backend/app/routes/tasks.py:231-261 | the keys are checked in the route's order, and the first one that fails decides: an invalid or `null` type is 400 InvalidTaskType, then an invalid or `null` status 400 InvalidStatus, an unknown resource 400 UnknownResource, a `null` plan date 500, a plan date that is not a date 400 BadDateFormat, a malformed finish date 400 BadDateFormat; no error exactly when every key passes |
| Tasks.FinishAfter | backend/app/routes/tasks.py:243-261 | the finish date a patch leaves (stated by `CompletionStampsOnce`, `ExplicitFinishWins` and `FinishDateKept`) |
| Tasks.Patched | backend/app/routes/tasks.py:229-264 | a patch is refused exactly when a key is refused, with the failure `PatchError` names; otherwise each present key is stored, each missing key keeps its value, and `update_date` becomes now |
| Tasks.CompletionStampsOnce | backend/app/routes/tasks.py:243-245 | moving to `completed` keeps an existing finish date and stamps a missing one with now |
| Tasks.ExplicitFinishWins | backend/app/routes/tasks.py:257-261 | an explicit finish-date key decides the finish date whatever the status, and a falsy value clears it |
| Tasks.FinishDateKept | backend/app/routes/tasks.py:243-261 | without a finish-date key or a move to `completed`, the finish date is kept |
| Tasks.PatchIdempotent | backend/app/routes/tasks.py:229-264 | sending the same patch twice changes only `update_date`; the completion stamp of the first request is not renewed |
| Tasks.RejectionIgnoresState | backend/app/routes/tasks.py:231-261 | whether a patch is refused depends on the patch and the uploaded files alone |
| Tasks.PatchTask | backend/app/routes/tasks.py:229-264 | the route's key-by-key sequence with early returns computes `Patched` |
| Tasks.UpdateTask | backend/app/routes/tasks.py:220-268 | 404 unless the user owns the task; a refused patch stores nothing; otherwise only that task's editable attributes change, to `Patched` of the old ones |
| TaskItems.FindItem | backend/app/routes/task_items.py:142-148 | the lookup finds the first row with that id owned by the user, or reports that there is none |
| TaskItems.FoundRowIsOnly | backend/app/routes/task_items.py:181-184 | in a well-numbered table the row found is the only one with that id |
| TaskItems.UpdatedItem | backend/app/routes/task_items.py:153-160 | an update fails only for a time text that is not a date; otherwise it keeps the row's id, owner, task and plan time, keeps attributes whose key is missing, and stores each present key, with a falsy time clearing the time |
| TaskItems.Completes | backend/app/routes/task_items.py:163 | the condition under which the route counts a finished item (its meaning is stated by `CompletesExactly`) |
| TaskItems.CompletesExactly | backend/app/routes/task_items.py:150-163 | an update completes an item exactly when its stored score goes from NULL to a value |
| TaskItems.Step | backend/app/routes/task_items.py:159-166 | the counter rises by one exactly when the stored score was NULL and a non-null score is sent, and an item that already has a score never moves it |
| TaskItems.ReplayBounds | backend/app/routes/task_items.py:159-166 | over any run of updates the counter never falls and rises at most once per update |
| TaskItems.CountedOnce | backend/app/routes/task_items.py:159-166 | without a clearing `null` an item is counted at most once, exactly when it had no score and some update sets one |
| TaskItems.ReplaySettled | backend/app/routes/task_items.py:159-166 | a scored item that is never cleared never moves the counter |
| TaskItems.ClearAndRescoreCountsTwice | backend/app/routes/task_items.py:159-166 | score, clear, score again counts one item twice |
| TaskItems.Credited | backend/app/routes/task_items.py:159-166 | the task credited by an update is one of the tasks of the table |
| TaskItems.UpdateTaskItem | backend/app/routes/task_items.py:139-173 | 404 for a missing row; otherwise the row is replaced by its update, and only the item's task gains one finished item, exactly when the update completes the item; the new score and counter of that task are `Step` of the old ones; the commit sets that task's `update_date` to `utcNow` (the column's `onupdate` hook) and keeps every other task's |
| TaskItems.UpdatedItemAsWritten | backend/app/routes/task_items.py:155-158 | the update as written, which fails with 500 for every truthy begin or end time (stated by `BeginTimeRaises` and `AsWrittenAgreesWithoutTimes`) |
| TaskItems.BeginTimeRaises | backend/app/routes/task_items.py:155-156 | as written, a well-formed begin time fails with 500, while the intended update stores it |
| TaskItems.AsWrittenAgreesWithoutTimes | backend/app/routes/task_items.py:155-158 | requests without a non-empty time text behave the same as written and as intended |
| TaskItems.WellNumberedRemove | backend/app/routes/task_items.py:190 | removing a row keeps the numbering |
| TaskItems.DeleteTaskItem | backend/app/routes/task_items.py:177-195 | 404 for a missing row; otherwise exactly that row leaves the table, no row with its id is left, and no task counter changes |
| TaskItems.Filter | backend/app/routes/task_items.py:55-59 | the filter keeps each row that passes, as often as it occurs, and nothing else |
| TaskItems.Insert | backend/app/routes/task_items.py:60 | insertion adds exactly the new row |
| TaskItems.SortedCons | backend/app/routes/task_items.py:60 | a row before a sorted run it precedes gives a sorted run |
| TaskItems.InsertPrecedes | backend/app/routes/task_items.py:60 | a row that precedes a run and the inserted row precedes the result |
| TaskItems.InsertSorted | backend/app/routes/task_items.py:60 | inserting into a sorted run keeps it sorted |
| TaskItems.SortByPlan | backend/app/routes/task_items.py:60 | `ORDER BY plan_time` gives a sorted permutation of its input |
| TaskItems.TodayEnd | backend/app/routes/task_items.py:51-52 | 23:59:59 of today (stated by `TodayEndCovers`) |
| TaskItems.TodayEndCovers | backend/app/routes/task_items.py:51-59 | a plan time is before the end of today exactly when it falls on an earlier day, or today before 23:59:59 |
| TaskItems.UncompletedItems | backend/app/routes/task_items.py:44-62 | the listing holds exactly the user's items without end time and score planned before the end of today, each as often as stored, latest plan first |
| TaskItems.UncompletedByDay | backend/app/routes/task_items.py:51-59 | an open item planned earlier today is listed; one planned for a later day is not |
| TaskItems.ItemsOfTask | backend/app/routes/task_items.py:199-222 | 404 exactly when the user owns no task with that id; otherwise exactly the user's items of that task, each as often as stored, earliest plan first |
| Common.Field.AsOption | backend/app/routes/tasks.py:252 | a present key stores exactly its value, and `null` stores NULL |
| Common.Failure.Status | backend/app/routes/tasks.py:125-130 | refusals are 400, missing rows 404, and unexpected exceptions 500, each exactly |

## Left out

- Task items are row values, not objects. An update replaces its row in
  the table. Aliasing of ORM objects within a request is not modelled.
- Row ids are a counter, `nextItemId`, standing in for the database's
  autoincrement.
- Timestamps are given as integers. `datetime.fromisoformat` is not
  modelled: a date key is blank, text the parser rejects, or the instant it
  parses to. Non-string JSON values for date keys are not modelled.
- Clocks, randomness and other tables are parameters:
  - `datetime.now()` and `date.today()` are an input `now`;
  - `utcnow` is an input `utcNow`;
  - `uuid4()` is an input `id`;
  - the uploaded files are a set of ids.
- Authentication (`jwt_required`, `get_jwt_identity`) is left out. The
  current user is an input.
- Pagination of the listings is left out. Their per-item resource lookups
  and the `task` object in the by-task response are left out too.
- Order of rows with equal plan times: the database puts ties in an
  unspecified order. The model's sort keeps table order. NULL plan times
  sort first ascending, as SQLite orders them.
- A failed commit or rollback is left out. Storage is assumed to succeed.
- A request without a JSON body is left out. A body that is not a mapping
  is left out too.
- `DecimalValue` and `IsOtherDigit` follow Unicode 15.0, the database of
  Python 3.12 (the Unicode 15.1 of Python 3.13 adds no digits). A Python
  with another Unicode version knows other digits: one that `isdigit`
  refuses there is skipped there and selected here, and the reverse.
- `ParseWeekDaysToken`, `ParseWeekDaysConcat` and `SelectNone` do not model
  the limit of 4300 digits that `int` enforces on recent Pythons: a longer
  all-digit token raises there, which empties the list, and is read as a
  number here.
- The range of `datetime` is not modelled. Timestamps are unbounded
  integers, so a date that `timedelta` arithmetic pushes past year 9999, or
  a `timedelta` of more than 999999999 days, raises `OverflowError` in the
  source and not here. That exception is not a `ValueError`, so the route
  answers 500 and stores nothing; for example the weekday text `"3000000"`
  on a weekly task without an end date. The model plans 12 items for it,
  and `Tasks.CreateTask` succeeds.
- Naive and offset-aware times are not told apart. A naive plan date with
  a finish date ending in `Z` makes the comparisons of the daily and weekly
  loops raise `TypeError`, so the source answers 500 and the model plans
  the items. `weekday()` of an offset-aware time is its wall-clock weekday,
  which a single instant does not capture; the model takes the weekday of
  the instant.
- `update_task` is routed as `/tasks/<int:task_id>`, so only an integer id
  reaches it, while `create_task` gives each task a uuid string id. The
  model's `Tasks.UpdateTask` looks tasks up by that string id, so it can
  find a task the route, as written, cannot reach.
- Scores are reals. Only whether a score is NULL matters.
- `TaskItem` rows have no `create_date` or `update_date`: the defaults and
  the `onupdate` hook of models/task_item.py:14-15 are not modelled, so
  `UpdateTaskItem` does not restamp the row it changes. The `onupdate` hook
  of a task's `update_date` is modelled.
- The schema is taken as the routes use it. `models/task.py` declares no
  `cycle_type`, `week_days`, `task_num` or `finished_task_num` columns, so
  the `Task(...)` call of `create_task` would be refused by the ORM.
  `task_items.task_id` is declared an integer key to the task's integer
  `id`, yet the routes store and look up the string id. The model gives
  these attributes to the task and uses the string id throughout.
- `finished_task_num` of a new task is taken as 0. The route never sets
  it.
- `Tasks.Accept`: the error text of each refusal is not modelled. Only its
  kind and status are.
- Concurrent scoring of items of the same task, and lost counter updates,
  are left out. Each request is one atomic step.
- The other routes of the two files (listing, reading and deleting tasks,
  creating a task item) are outside this model.

## Findings

| source | as written | input that shows it | evidently intended | confidence | as-written member | corrected member |
|---|---|---|---|---|---|---|
| backend/app/routes/tasks.py:203-215 | the function-local `from datetime import datetime` makes `datetime.datetime.now()` raise `AttributeError`, so every `once` task fails with 500 | `cycle_type = "once"` | one item planned at the current time | not executed | Schedule.PlannedAsWritten | Tasks.CreateTaskItemsByCycle |
| backend/app/routes/task_items.py:155-158 | `datetime` is the class, so `datetime.datetime.fromisoformat` raises `AttributeError` for any truthy begin or end time, before the `try`; the request fails with 500 and nothing is stored | `{"begin_time": "2024-05-01T10:00:00Z"}` | the parsed time is stored | not executed | TaskItems.BeginTimeRaises | TaskItems.UpdateTaskItem |
