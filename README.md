# lawn-todo in Dafny

This is a model of lawn-todo, a Flask todo list for logged-in users, together with a GitHub-style activity heatmap (the "lawn") of the days on which todos were completed. The model covers:

- **The todo table and its request handlers** (`project/main.py`; `app.py` holds the same handlers). These are add, edit, toggle completion, toggle importance, delete and the ordered listing. The model is the class `Store.TodoStore`, whose `todos` map is updated in place. Every handler takes the caller's user id as a parameter. The handlers that read the clock also take it: `Add` and `Complete` take `now`, and `Edit` takes `today`. The handlers that change the table return their outcome as a `Response`. `Index` returns the ordered listing.
- **The `Todo` record and `to_dict`** (`project/models.py`), in `Models`. The dates and timestamps it writes are in `DateFormat`.
- **The heatmap of `get_lawn_data`** (`project/utils.py`), in `Lawn`:
  - the per-day completion count query;
  - the intensity levels;
  - the Sunday-to-Saturday grid of one year;
  - the ordered `month_weeks` tally of weeks per month label.
- **The older heatmap of the `lawn` route in `app.py`**, in `LegacyLawn`:
  - a window of the 365 days up to today;
  - weeks closed on Sundays;
  - a month label on the grid's first cell and on every first of a month.

Python's `datetime.date` is modelled in `Calendar`. A day is its ordinal (`toordinal()`, day 1 = 0001-01-01, `MaxOrdinal` = 9999-12-31). `Weekday` is `weekday()`, with Monday as 0. `FromOrdinal`/`ToOrdinal` convert to and from year, month and day, and `NextDay` is `+ timedelta(days=1)` on a calendar date. The `Lawn` grid stores ordinals in its cells. The `LegacyLawn` loop steps a calendar date with `NextDay`, as the `lawn` route steps its `date` cursor, and its cells hold that calendar date.

Two kinds of Python exception are modelled as error results:
- `date(year, 1, 1)` with a year outside 1..9999 raises ValueError;
- stepping a date outside that range raises OverflowError.

The year-based grid therefore fails exactly for the years 1 and 9999. For year 1, the Sunday before 0001-01-01 does not exist. For year 9999, the Saturday after 9999-12-31 does not exist. This is proved as `Lawn.GridFitsExactly`.

The model shows two behaviours of `get_lawn_data` that are easy to miss:
- `end_date + timedelta(days=5 - end_date.weekday())` moves back one day when December 31 is a Sunday, so that day is not in the grid. This happens in 2023, for example; see `Lawn.GridEnd` and `Lawn.Grid2023DropsLastDay`.
- The first week is labelled by its fourth day. For a year that starts on a Thursday, Friday or Saturday, that day is in the previous December, so December's entry in `month_weeks` counts that week as well as the weeks at the end of the year; see `Lawn.FirstWeekLabel` and `Lawn.TallyFacts`.

## Model

| member | source | states |
|---|---|---|
| Calendar.ToOrdinal | project/utils.py:11-12 | `date.toordinal()`: the days before the year, the days before the month in that year, and the day; specified by Calendar.ToFromOrdinal and Calendar.FromToOrdinal |
| Calendar.Weekday | project/utils.py:23-24 | `date.weekday()` of an ordinal, Monday 0 to Sunday 6 (day 1, 0001-01-01, is a Monday); used by Lawn.GridStart, Lawn.GridEnd and Lawn.WeekdayOffset |
| Calendar.FromOrdinal | project/utils.py:7-9 | the calendar date of a day (as `today.year` reads it) is a valid Gregorian date |
| Calendar.FromToOrdinal | project/utils.py:48 | the ordinal of the calendar date of a day is that day, so the month read from a cell's date belongs to that day |
| Calendar.ToFromOrdinal | project/utils.py:11-12 | every valid date from 0001-01-01 to 9999-12-31 has an ordinal in range, and converting it back gives the same date (with FromOrdinal, the two conversions are inverse bijections) |
| Calendar.NextDay | app.py:144 | `date + timedelta(days=1)` on the calendar fields: the next day, else the first of the next month, else January 1 of the next year; specified by Calendar.NextDayOrdinal, Calendar.NextDayAgrees and Calendar.NextDayMonth |
| Calendar.NextDayOrdinal | app.py:144 | `day_cursor += timedelta(days=1)` on any date but the last gives a valid date whose ordinal is one more |
| Calendar.NextDayAgrees | app.py:144 | stepping a calendar date by a day and stepping its ordinal by one give the same date |
| Calendar.NextDayMonth | app.py:120-124 | the next date is a first of a month exactly when its month differs from the current date's month |
| Calendar.LastDate | app.py:144 | 9999-12-31 is a valid date with the last ordinal, so stepping past it leaves the range |
| DateFormat.ZeroPad | project/models.py:34-36 | `%02d`/`%04d` padding gives exactly `width` decimal digits |
| DateFormat.PadThenValue | project/models.py:34-36 | a number below 10^width reads back from its padded digits unchanged |
| DateFormat.ValueThenPad | project/main.py:51 | a digit string is the padded form of the number it denotes |
| DateFormat.FormatDate | project/models.py:34 | `strftime('%Y-%m-%d')` is 10 characters with dashes at positions 4 and 7 |
| DateFormat.ParseDate | project/main.py:51 | `strptime(s, '%Y-%m-%d').date()`: four digits, a dash, two digits, a dash and two digits naming a real date in range, else None (the ValueError); specified by DateFormat.FormatThenParse and DateFormat.ParseThenFormat |
| DateFormat.FormatThenParse | project/main.py:51 | reading a formatted date with `%Y-%m-%d` gives back the same date |
| DateFormat.ParseThenFormat | project/main.py:51 | a string the strict parser accepts is exactly what the formatter writes for the parsed date |
| DateFormat.FormatTimestamp | project/models.py:35 | `strftime('%Y-%m-%d %H:%M:%S')` is 19 characters and begins with the date's text |
| DateFormat.FormatThenParseTimestamp | project/models.py:35-36 | a timestamp's text reads back to the same date, hour, minute and second |
| Models.NewTodo | project/main.py:57-62 | `Todo(content=..., user_id=..., due_date=..., important=...)` with the column defaults of project/models.py:16-21 and the key the table hands out; specified by Models.NewTodoIsIncomplete and Store.TodoStore.Add |
| Models.NewTodoIsIncomplete | project/models.py:13-21 | a new todo starts not completed, with no completion time, and so respects `completed` iff `completed_at` is set |
| Models.ToDict | project/models.py:28-37 | `id`, `content`, `completed` and `important` are copied; `due_date` and `completed_at` are None exactly when missing, otherwise 10 and 19 character texts that read back to the stored values; `created_at` is always a 19 character timestamp that reads back |
| Store.Access | project/main.py:109-111 | `get_or_404` then the author check, shared by edit, complete, delete and important (also lines 70-73, 125-127, 135-137): NotFound for an unknown id, Forbidden for another owner's todo, else no failure; specified through the NotFound/Forbidden clauses of the Store.TodoStore handlers |
| Store.ValidateInput | project/main.py:45-55 | rejects missing content, then an unparsable due date, then a due date before today, each exactly in its case; accepts with no due date exactly when the field is empty; accepts a parsable due date on or after today, returning that date; an accepted due date is not before today and is the parsed string |
| Store.ToggledCompletion | project/main.py:113-117 | flips `completed` and sets `completed_at` to `now` when it becomes true, to None otherwise; specified by Store.ToggledCompletionConsistent and Store.ToggledCompletionTwice |
| Store.ToggledCompletionConsistent | project/main.py:113-117 | toggling flips `completed`, stamps `now` when it becomes true and clears the time when false, keeps `completed` iff `completed_at` set, and changes no other field |
| Store.ToggledCompletionTwice | project/main.py:113-117 | completing an open todo and toggling it again gives back the original todo |
| Store.ToggledImportance | project/main.py:138 | flips `important`; specified by Store.ToggledImportanceInvolution |
| Store.ToggledImportanceInvolution | project/main.py:138 | toggling importance changes only `important`, and twice is the identity |
| Store.Edited | project/main.py:84-98 | a todo with the new content, importance and due date (None when the field is empty); specified by Store.EditedKeepsCompletion and Store.TodoStore.Edit |
| Store.EditedKeepsCompletion | project/main.py:84-98 | an edit keeps `completed`, `completed_at`, `created_at`, `user_id` and `id`, and so preserves the completion invariant |
| Store.SortKey | project/main.py:12-18 | the ORDER BY columns as integers, compared lexicographically: for main.py completed ascending, due date missing last, due date ascending, important first, newest first; for app.py:80-86 completed ascending, important first, due date missing last, due date ascending, id ascending; its length is five, and the order is specified by Store.LexLeTotal, Store.LexLeTransitive and Store.OrderBy |
| Store.LexLeTotal | project/main.py:12-18 | any two sort keys are comparable |
| Store.LexLeTransitive | project/main.py:12-18 | the lexicographic key order is transitive |
| Store.InsertKeepsSorted | project/main.py:12-18 | inserting a row between neighbours it fits keeps a listing sorted |
| Store.Insert | project/main.py:12-18 | inserting one row into a sorted listing gives a sorted listing holding the old rows and the new one, each as often as before |
| Store.OrderBy | app.py:80-86 | the `ORDER BY` returns a permutation of its rows, sorted by the key of either listing order (main.py's or app.py's) |
| Store.TodoStore.constructor | project/models.py:13-14 | an empty `todo` table, whose integer primary key starts at 1 |
| Store.TodoStore.Add | project/main.py:34-65 | a rejected input changes nothing; otherwise one new todo is stored under a fresh key with the given content, owner, parsed due date and importance, not completed and created `now`, and its `to_dict` is returned; the table invariant is kept |
| Store.TodoStore.Edit | project/main.py:67-102 | unknown id gives NotFound and another owner's todo Forbidden, with nothing changed; rejected input changes nothing; otherwise only that todo changes: content, importance and due date (cleared when the field is empty) |
| Store.TodoStore.Complete | project/main.py:106-120 | NotFound/Forbidden change nothing; otherwise only the target is toggled, and the answer is its new `completed` |
| Store.TodoStore.Delete | project/main.py:122-130 | NotFound/Forbidden change nothing; otherwise exactly the target row is removed |
| Store.TodoStore.Important | project/main.py:132-140 | NotFound/Forbidden change nothing; otherwise only the target's importance flips, and the answer is its new value |
| Store.TodoStore.Index | project/main.py:9-18 | the listing holds each of the caller's todos exactly once and nothing else, sorted by the chosen order |
| Lawn.CountOn | project/utils.py:14-21 | the number of todos of the user completed on a day (the grouped `count(Todo.id)`); specified by Lawn.CountOnPositive and Lawn.CompletionCounts |
| Lawn.CountOnPositive | project/utils.py:14-21 | a day has a positive count exactly when one of the caller's todos was completed that day |
| Lawn.CountLookup | project/utils.py:31 | `completion_counts.get(day, 0)` is the day's completion count inside the year and 0 outside it |
| Lawn.CompletionCounts | project/utils.py:14-21 | `completion_counts` has a key exactly for the days in [from, to] with a completion, holding the number of the caller's todos completed that day |
| Lawn.Level | project/utils.py:32 | the level lies in 0..4 and is above i exactly when the count reaches the i-th of the thresholds 1, 3, 5, 10 |
| Lawn.LevelMonotone | project/utils.py:32 | a larger count never gets a lower level |
| Lawn.FirstDay | project/utils.py:11 | `date(year, 1, 1)` as an ordinal |
| Lawn.LastDay | project/utils.py:12 | `date(year, 12, 31)` as an ordinal |
| Lawn.GridStart | project/utils.py:23 | `start_of_grid` is the Sunday on or before the start, at most six days earlier |
| Lawn.GridEnd | project/utils.py:24 | `end_of_grid` is a Saturday: the Saturday on or after the end, or the day before the end when the end is a Sunday |
| Lawn.GridCell | project/utils.py:31-38 | the cell of a day: its date, its count inside the year (0 outside it) and its level; specified by Lawn.CountLookup and used by Lawn.IsGrid in Lawn.FillGrid |
| Lawn.WeekdayOffset | project/utils.py:40 | the weekday of a day counted from a Sunday is fixed by its distance from that Sunday |
| Lawn.FirstIndex | project/utils.py:46-50 | the position of the first occurrence of a label |
| Lawn.Bump | project/utils.py:49-50 | `setdefault(m, 0)` then `+= 1` on the ordered dict, as a list of (month, weeks) pairs; specified by Lawn.BumpFacts |
| Lawn.Tally | project/utils.py:46-50 | the ordered dict after bumping every label in turn; specified by Lawn.TallyTotal, Lawn.TallySpans, Lawn.TallyKeys and Lawn.TallyOrder |
| Lawn.BumpFacts | project/utils.py:49-50 | `setdefault` then `+= 1` adds one week to the label's entry, appends the label when it is new, and leaves the other entries alone |
| Lawn.FirstIndexAppend | project/utils.py:46-50 | appending a label does not move the first occurrence of an earlier one |
| Lawn.TallyFacts | project/utils.py:46-50 | the counts of `month_weeks` sum to the number of weeks; each label's count is its number of weeks; the keys are exactly the labels, each once, in the order of their first week |
| Lawn.WeekMonth | project/utils.py:48 | the label of a week: the month of its day at index 3, or of its first day when it is shorter; specified on the result by Lawn.LawnKeysAreMonths |
| Lawn.TallyTotal | project/utils.py:46-50 | the counts of the tally of a label sequence sum to its length |
| Lawn.TallySpans | project/utils.py:46-50 | each label's count in the tally is its number of occurrences |
| Lawn.TallyKeys | project/utils.py:46-50 | the keys of the tally are exactly the labels that occur, each once |
| Lawn.TallyOrder | project/utils.py:46-50 | the keys of the tally are in the order of each label's first occurrence |
| Lawn.GridAppend | project/utils.py:34-38 | appending the cell of the next day keeps the grid built so far correct |
| Lawn.GridClose | project/utils.py:40-42 | closing a full week moves it to the finished weeks and keeps the grid built so far correct |
| Lawn.VisitDay | project/utils.py:31-42 | one loop step adds the cell of the next day, with its count and level, and closes the week after a Saturday, keeping the grid built so far correct |
| Lawn.FillGrid | project/utils.py:26-44 | the loop yields weeks of exactly seven cells, Sunday to Saturday, one per consecutive day from grid start to grid end; each cell's count is the day's completions inside the year and 0 outside it, with its level |
| Lawn.MonthWeeks | project/utils.py:46-50 | the loop builds the ordered tally of the week labels: its counts sum to the number of weeks, its keys are distinct, and each label counts its weeks |
| Lawn.ChosenYear | project/utils.py:8-9 | the given year, or today's year when none is given; used by Lawn.GetLawnData |
| Lawn.GetLawnData | project/utils.py:6-52 | no year means today's year; a year outside 1..9999 is a ValueError and a grid leaving the date range an OverflowError, each exactly in its case; otherwise the result is `IsLawnOf` the year: the grid of seven-day weeks from GridStart of Jan 1 to GridEnd of Dec 31 with each day's count and level, Sunday first, the ordered tally of the week labels, and today unchanged |
| Lawn.YearLawn | project/utils.py:14-50 | for a year whose grid fits, the count query, the grid loop and the tally loop together give `IsLawnOf` that year |
| Lawn.LawnKeysAreMonths | project/utils.py:46-50 | every week of the result has seven days and is labelled by the month of its day at index 3 (the grid start plus 7k+3); the keys of `month_weeks` are exactly the months of those days |
| Lawn.Grid2024 | project/utils.py:23-24 | 2024 starts on a Monday, and its grid runs from Sunday 2023-12-31 to Saturday 2025-01-04 |
| Lawn.Grid2023DropsLastDay | project/utils.py:24 | 2023 ends on a Sunday, so its grid ends on 2023-12-30 |
| Lawn.GridFitsExactly | project/utils.py:23-24 | the grid of a year fits in the date range exactly when the year is neither 1 nor 9999 |
| Lawn.FirstYearOverflows | project/utils.py:23 | the Sunday before 0001-01-01 would be day 0 |
| Lawn.LastYearOverflows | project/utils.py:24 | the Saturday after 9999-12-31 would be one day past the last date |
| Lawn.InJanuary | project/utils.py:48 | the first 31 days of a year are in January |
| Lawn.InDecember | project/utils.py:48 | the last 31 days before a year are in December |
| Lawn.FirstWeekLabel | project/utils.py:23-48 | the first week's label is January when the year starts Sunday to Wednesday, and December otherwise |
| Lawn.FirstWeekInJanuary | project/utils.py:48 | the first week's fourth day is in January when it is on or after Jan 1 |
| Lawn.FirstWeekInDecember | project/utils.py:48 | the first week's fourth day is in December when it is before Jan 1 |
| Lawn.FourthDayInYear | project/utils.py:23-48 | the first week's fourth day falls in the year exactly when Jan 1 is a Sunday to Wednesday |
| Lawn.LaterYearStart | project/utils.py:11 | every year after year 1 starts on day 366 or later |
| LegacyLawn.LabelledCellAt | app.py:120-134 | the cell of a calendar date: its count inside the window (0 outside it), its level, and its month on the grid's first date or on a first of a month; specified by LegacyLawn.MonthLabel, LegacyLawn.LabelIsMonth and LegacyLawn.GridLabelsChangeMonth |
| LegacyLawn.MonthLabel | app.py:120-124 | the nested label test sets the month label exactly on the grid's first cell and on a first of a month, and then records that month as the current one |
| LegacyLawn.AppendCell | app.py:126-134 | appending the next day's labelled cell keeps the current week correct |
| LegacyLawn.CloseWeek | app.py:136-142 | closing a full Monday-to-Sunday week keeps the finished weeks correct |
| LegacyLawn.VisitDay | app.py:120-142 | one loop step adds the next day's cell with its count, level and month label, and closes the week after a Sunday, keeping the grid built so far correct |
| LegacyLawn.FillLabelledGrid | app.py:113-144 | the loop yields the first week holding the grid's Sunday alone, then Monday-to-Sunday weeks, then the unfinished week, with one cell per consecutive day through today (the last cell is today); each cell's count is the day's completions in the window or 0, with its level, and its month label is set exactly on the first cell and on each first of a month; stepping past 9999-12-31 is an OverflowError exactly when today is that day |
| LegacyLawn.CloseGrid | app.py:146-147 | appending the unfinished week, when there is one, completes the grid through today |
| LegacyLawn.LegacyLawnGrid | app.py:91-149 | the window starts 365 days before today and the grid on the Sunday on or before that; it fails with an OverflowError exactly when those days or the day after today are outside the date range; otherwise it returns the grid of FillLabelledGrid |
| LegacyLawn.WeekPosition | app.py:136 | the cell at position j of a later week is on weekday j (Monday 0 to Sunday 6) |
| LegacyLawn.LabelIsMonth | app.py:120-124 | a month label names the month of that cell's day |
| LegacyLawn.CellIsAt | app.py:126-134 | every cell of the grid is the cell of its own valid date, a day from the grid start through today |
| LegacyLawn.MonthBeforeFirst | app.py:121-124 | walking day by day towards a first of a month without meeting another first stays in the month before it |
| LegacyLawn.LabelsChangeMonth | app.py:121-124 | of two labelled days with no labelled day between them, the later names a different month from the earlier |
| LegacyLawn.GridLabelsChangeMonth | app.py:121-124 | in the grid, a labelled cell's month differs from that of the previously labelled cell |
| LegacyLawn.LabelledGridCovers | app.py:117-144 | every day after the grid's first, through today, has a cell in a later week |

## Left out

- The web layer is not modelled: Flask routing, `request.is_json` and form parsing, `jsonify`, `flash`, redirects and templates. A handler that changes the table returns a `Response`: `Done`, or `Rejected` with the reason. In the JSON handlers (add, complete, delete, important) the reasons stand for the 400 responses, the 404 and the 403. In `edit_todo` an unknown id is still a 404 (`NotFound`). Another user's todo is a flash message and a redirect (`Forbidden`). A missing content, an unreadable date or a past date is a flash message and the form shown again (`MissingContent`, `InvalidDateFormat`, `PastDueDate`).
- Authentication is not modelled (login, signup, password hashing and sessions), because it relies on external security libraries. The logged-in user's id is a parameter.
- SQL and the database are not modelled: query building, `group_by`, indexes, commits and rollbacks, and concurrent requests. Only their meaning is modelled: rows by primary key, filtering by owner, counting per date and sorting by key.
- The clock is a parameter. `date.today()` and `datetime.utcnow()` are passed in as `today` or `now`. The difference between the local date (project/utils.py:7) and the UTC date (project/main.py:52) is not modelled.
- `strftime('%b')` is not modelled. Month labels are the month numbers 1..12, not locale month abbreviations.
- `strptime` is not modelled in full. The model's parser is strict: four digits, a dash, two digits, a dash and two digits, naming a real date. Python also accepts forms such as one-digit months.
- DateFormat.FormatDate: the year is padded to four digits. Real `%Y` output for years below 1000 is platform-dependent.
- Microseconds are not modelled, because no output shows them.
- The `String(200)` column limit is not modelled. Neither are JSON values of other types in the request body: `content` is text and `important` is a boolean. The caller of `Store.TodoStore.Add` passes `important` as false when the field is absent, as `data.get('important', False)` does.
- The GET path of `edit_todo` is not modelled; it only renders a page. Neither is the re-rendered form after a failed edit: the changes made before the failure are never committed, so the table is unchanged.
- The handlers of `app.py` (lines 195-301) are the same code as those in `project/main.py`. The same members model both.
- `index` also renders the heatmap (project/main.py:20-24). That is `Lawn.GetLawnData` with today's year. The `/lawn/` route of project/main.py (lines 26-32) is the same call.
- Store.OrderBy: rows with equal keys come out in no particular order. The database does not promise an order for them either.

