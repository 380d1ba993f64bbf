# Workify task board — a Dafny model of its core

Workify is a Kanban-style task manager built with Next.js. Signed-in users
own boards with ordered columns. Tasks carry a status (TODO, IN_PROGRESS,
REVIEW, DONE), a priority, an optional due date and subtasks. Tasks are
shown on boards, as draggable cards, and on a month calendar.

This project models the core of that application and proves properties of
the model:

- **The calendar page** (module `CalendarPage`):
  - the month grid of day cells;
  - the status, priority and search filters;
  - placing the filtered tasks on the days they are due;
  - the `YYYY-MM-DD` ids of the day cells and how a dropped card reads them back;
  - month navigation;
  - the handlers for drag start, drop, update, delete, date click, search and create.
- **The filter panel** (`TaskFilters`): toggling a value in the status and priority lists in place, clearing, the badge count.
- **The task card** (`DraggableTask`): the subtask progress and the card's menu, edit and delete flags.
- **The new-task form** (`TaskModal`): its form state, subtask and attachment editing, and submission.
- **The dashboard** (`Dashboard`): the progress of a board.
- **The dashboard layout** (`DashboardLayout`): the authentication gate, the active navigation entry and the collapsible sidebar.
- **The HTTP handlers** (`TasksRoute`, `BoardsRoute`, `ProfileRoute`):
  - `GET`/`POST /api/tasks`;
  - `GET`/`POST /api/boards`;
  - `PUT`/`GET /api/user/profile`.

  Each handler acts on an explicit in-memory database `Store.Db` and an explicit session.

Supporting modules:

- `Dates` models the arithmetic of JavaScript's `new Date(year, monthIndex, day)`. That covers the two-digit-year rule, normalisation of an overflowing month or day, and a proleptic Gregorian weekday.
- `Strings` models `toLowerCase`, `includes`, `trim`, `split` and decimal digits.
- `Percent` models `Math.round(part / total * 100)` as exact round-half-up.
- `Seqs` holds the array operations: filter, find, map, splice and a stable sort.

Each React component's state is modelled according to how the source updates it:

- State that the code mutates in place is a `class` whose methods carry `modifies` clauses: the filter arrays with `push`/`splice`, the card flags, the form, the sidebar flag.
- State that the calendar page replaces through `setState` with object spreads is a `Page` record with pure transition functions.

Two components exist twice in the repository: `components/` and `app/components/`. The two versions of `DraggableTask.tsx` and `TaskModal.tsx` behave the same in everything modelled here. The table cites the `components/` versions. The `app/components/` counterparts are `DraggableTask.tsx:28-32, 81-85, 87-98, 100-108, 110-113, 214-218` and `TaskModal.tsx:17-26, 30-46, 50-86, 88-95, 97-102, 104-112, 114-119, 239-241`.

## Model

| member | source | states |
|---|---|---|
| CalendarPage.GenerateCalendarDays | app/dashboard/calendar/page.tsx:25-41 | the grid is `firstDay.getDay()` blanks, then the `Date(year, month, i)` for `i` in `1..lastDay.getDate()`; for a month index 0..11 that is every day of the month once, in order, each at an index whose remainder modulo 7 is its weekday |
| CalendarPage.MonthGrid | app/dashboard/calendar/page.tsx:25-41 | the two loops' output, read through the `Date` constructor, is exactly the month with each day in its weekday column |
| CalendarPage.BlankCells | app/dashboard/calendar/page.tsx:31-33 | the first loop yields exactly `blanks` empty cells |
| CalendarPage.AppendDays | app/dashboard/calendar/page.tsx:36-38 | the second loop keeps the cells already there and appends `Date(year, month, i)` for `i` in `1..last`, in order |
| CalendarPage.FilterTasks | app/dashboard/calendar/page.tsx:86-110 | the staged status, priority and search narrowing equals one filter by all active tests; the result is an order-preserving subsequence holding exactly the matching tasks; with no active filter it is the whole list |
| CalendarPage.FilteredTasks | app/dashboard/calendar/page.tsx:86-110 | one filter by all active tests keeps an order-preserving subsequence holding exactly the matching tasks, and the whole list when no filter is active |
| CalendarPage.SearchHitIff | app/dashboard/calendar/page.tsx:101-106 | a task passes the search iff the lower-cased query occurs at some position of the lower-cased title, or of the description when that is non-empty |
| CalendarPage.MatchesIgnoresDueDate | app/dashboard/calendar/page.tsx:86-110 | moving a task to another day does not change whether it passes the filters |
| CalendarPage.TasksForDate | app/dashboard/calendar/page.tsx:186-198 | a blank cell gets no task; a day cell gets, in order and with multiplicity, exactly the filtered tasks due that year, month and day |
| CalendarPage.TaskInOneCell | app/dashboard/calendar/page.tsx:186-198 | a task is in a day's cell iff it is due that day; a task without a due date is in no cell |
| CalendarPage.CellIdRoundTrip | app/dashboard/calendar/page.tsx:214-216 | for years 100..9999, the `YYYY-MM-DD` id of a day cell (`FormatDateId`, the `toISOString().split('T')[0]` of lines 215 and 506), split on `-` and read back by `ParseDateId` as at lines 254-255, is that same day |
| CalendarPage.SplitThree | app/dashboard/calendar/page.tsx:254 | three digit runs joined by `-` split back into those three |
| CalendarPage.ParseOfParts | app/dashboard/calendar/page.tsx:254-255 | `ParseDateId`: an id whose three parts read as numbers is parsed into the `Date` those numbers give, month counted from one |
| CalendarPage.PaddedNumber | app/dashboard/calendar/page.tsx:254 | a zero-padded decimal numeral is all digits, and `NumberOf` (the `map(Number)` of that line) reads it back as the number |
| CalendarPage.DigitsHaveNoDash | app/dashboard/calendar/page.tsx:254 | a run of digits contains no `-`, so the split of a cell id has exactly three parts |
| CalendarPage.PreviousMonth | app/dashboard/calendar/page.tsx:200-202 | the previous-month button lands on a valid first of a month |
| CalendarPage.NextMonth | app/dashboard/calendar/page.tsx:204-206 | the next-month button lands on a valid first of a month |
| CalendarPage.MonthSteps | app/dashboard/calendar/page.tsx:200-206 | outside the two-digit years, the buttons step exactly one month, wrapping December to January of the next year and back |
| CalendarPage.MonthRoundTrip | app/dashboard/calendar/page.tsx:200-206 | previous then next, or next then previous, returns to the first of the current month |
| CalendarPage.DragStart | app/dashboard/calendar/page.tsx:219-230 | the active task becomes the first task with the dragged id; an unknown id leaves the page unchanged |
| CalendarPage.DragEnd | app/dashboard/calendar/page.tsx:233-281 | the active task is always cleared and nothing else changes except the list. With no drop target or an unknown task nothing is sent. An unreadable cell id re-fetches without touching the list. Otherwise every task with the id gets the parsed due date, the others stay, and the PATCH carries that date |
| CalendarPage.DropLandsOnCell | app/dashboard/calendar/page.tsx:233-262 | for a day cell in years 100..9999, a task dropped on it that passes the filters shows up in that cell |
| CalendarPage.SettleDrop | app/dashboard/calendar/page.tsx:273-279 | after a failed PATCH the list is the re-fetched one and nothing else changes; after success nothing changes |
| CalendarPage.MergeLaws | app/dashboard/calendar/page.tsx:304-306 | `Merge`, the object spread `{ ...task, ...updates }` of lines 305 and 311: it keeps the id (a modelled update has no id field), an empty update is the identity, and applying the same update twice equals applying it once |
| CalendarPage.MergeSingleField | app/dashboard/calendar/page.tsx:304-306 | the card's title edit changes only the title; a drop's update changes only the due date |
| CalendarPage.UpdateTask | app/dashboard/calendar/page.tsx:291-316 | on success each task with the id is merged with the update and the others stay; an open detail view of that task is merged too; on failure nothing changes |
| CalendarPage.DeleteTask | app/dashboard/calendar/page.tsx:318-337 | on success the list keeps, in order and with multiplicity, exactly the tasks with another id; the detail view closes iff it showed the deleted task; on failure nothing changes |
| CalendarPage.DeleteTwice | app/dashboard/calendar/page.tsx:327 | deleting the same id a second time changes nothing more |
| CalendarPage.TaskClicked | app/dashboard/calendar/page.tsx:283-289 | a click opens the detail view of the task unless a drag is in progress |
| CalendarPage.DateClicked | app/dashboard/calendar/page.tsx:339-342 | a click on a day remembers it and opens the new-task form, changing nothing else |
| CalendarPage.SearchChanged | app/dashboard/calendar/page.tsx:344-346 | the search text changes, and the status and priority lists and the rest of the page do not |
| CalendarPage.BoardsLoaded | app/dashboard/calendar/page.tsx:112-126 | the first board listed becomes the default board; an empty list changes nothing |
| CalendarPage.CreatePayload | app/dashboard/calendar/page.tsx:142-159 | the posted body takes the clicked day when the form has no due date and the default board when the form has none, and carries every form subtask in order |
| CalendarPage.FormSubmissionCreates | app/dashboard/calendar/page.tsx:142-177 | what the form submits (a title) with some board passes the API's 401 and 400 guards; when board and user exist the task is created as TODO on the posted day with one subtask per form subtask, the completed ones at 100 |
| CalendarPage.AfterCreate | app/dashboard/calendar/page.tsx:176-183 | `handleCreateTask`'s own effects once the POST settles: a success re-fetches, closes the form and forgets the clicked day; a failure changes nothing |
| CalendarPage.CloseNewTaskModal | app/dashboard/calendar/page.tsx:461-464 | the modal's `onClose` closes the form and forgets the clicked day, and changes nothing else |
| CalendarPage.SubmitClosesForm | components/TaskModal.tsx:81-82 | the modal calls `onSubmit` unawaited and then `onClose`: the posted body still takes the clicked day, and once the POST settles the form is closed and the day forgotten whatever the answer, with the list replaced only on success |
| TaskFilters.IndexOf | components/TaskFilters.tsx:31 | `indexOf`: -1 iff the value is absent, otherwise the first position holding it |
| TaskFilters.Toggle | components/TaskFilters.tsx:30-37 | an absent value is appended; a present one is removed at its first position |
| TaskFilters.PushOrSplice | components/TaskFilters.tsx:30-37 | finding the value's index and then pushing it (index -1) or splicing it out yields exactly the toggled list: the value appended when absent, its first occurrence removed when present |
| TaskFilters.ToggleLength | components/TaskFilters.tsx:30-37 | a toggle lengthens the list by one for an absent value and shortens it by one for a present value |
| TaskFilters.ToggleFlipsMembership | components/TaskFilters.tsx:30-37 | on a list without duplicates, a toggle flips the value's membership and leaves every other value's membership alone |
| TaskFilters.ToggleKeepsNoDuplicates | components/TaskFilters.tsx:30-37 | toggling keeps a list free of duplicates |
| TaskFilters.ToggleTwiceFromAbsent | components/TaskFilters.tsx:30-37 | toggling an absent value twice restores the list exactly |
| TaskFilters.ToggleTwiceFromPresent | components/TaskFilters.tsx:30-37 | toggling a present value twice moves it to the end: the same values, possibly reordered |
| TaskFilters.ToggleTwiceReorders | components/TaskFilters.tsx:30-37 | concretely, `["TODO","DONE"]` toggled twice on `TODO` becomes `["DONE","TODO"]` |
| TaskFilters.FilterPanel.ChangeFilter | components/TaskFilters.tsx:24-42 | a search change sets only the text; a status or priority change toggles that list in place and leaves the other fields; the reported filters are the new state; duplicate-freedom is preserved; the badge count grows by one for a value that was absent, drops by one for a value that was present, and stays for a search change |
| TaskFilters.FilterPanel.ClearFilters | components/TaskFilters.tsx:44-52 | all three filters are emptied and reported; the badge count is 0 and the clear button hides |
| TaskFilters.FilterPanel.ToggleExpanded | components/TaskFilters.tsx:76 | the panel flips between expanded and collapsed, filters untouched |
| TaskFilters.FilterPanel.ShowsClear | components/TaskFilters.tsx:87 | the clear button shows iff the badge count is positive |
| DraggableTask.CompletedSubtasks | components/DraggableTask.tsx:77-78 | the number of subtasks with status DONE, at most the number of subtasks |
| DraggableTask.SubtaskProgress | components/DraggableTask.tsx:79-83 | 0 without subtasks; otherwise the percentage of completed subtasks rounded half up, at most 100 |
| DraggableTask.RenderCard | components/DraggableTask.tsx:42-83 | no card iff the task has no id; otherwise the card carries the id, the completed and total counts, and as percentage exactly the rounded share `SubtaskProgress(completed, total)` of lines 80-83, at most 100, 0 without subtasks and 100 when all are done |
| DraggableTask.CardState.ToggleMenu | components/DraggableTask.tsx:108-111 | the menu flips; nothing else changes |
| DraggableTask.CardState.StartEdit | components/DraggableTask.tsx:226-231 | edit mode opens and the menu closes |
| DraggableTask.CardState.SetEditTitle | components/DraggableTask.tsx:122 | only the edited title changes |
| DraggableTask.CardState.CancelEdit | components/DraggableTask.tsx:128-131 | edit mode closes; the edited title stays |
| DraggableTask.CardState.SaveEdit | components/DraggableTask.tsx:98-106 | the update sent is the edited title for this card's id; edit mode stays open iff the awaited `onUpdate` rejected |
| DraggableTask.CardState.BeginDelete | components/DraggableTask.tsx:85-89 | the card's id is handed to the delete callback and the card shows as deleting |
| DraggableTask.CardState.FinishDelete | components/DraggableTask.tsx:92-95 | whatever the outcome, deleting ends and the menu closes |
| TaskModal.TaskForm.constructor | components/TaskModal.tsx:23-34 | a fresh form: empty title and description, MEDIUM, the initial date, no recurrence, subtasks or attachments, the given board, no error |
| TaskModal.TaskForm.OpenEffect | components/TaskModal.tsx:36-52 | opening resets every field to the fresh-form values; while closed nothing changes |
| TaskModal.TaskForm.Submit | components/TaskModal.tsx:56-88 | nothing is submitted iff the title is empty; a submission closes the form and hands over the form data, whose board falls back to the page's board when empty |
| TaskModal.TaskForm.SetNewSubtask | components/TaskModal.tsx:33 | only the pending subtask text changes |
| TaskModal.TaskForm.AddSubtask | components/TaskModal.tsx:106-117 | a pending text that is not blank after trimming is appended untrimmed as an open subtask and the text cleared; a blank one changes nothing |
| TaskModal.TaskForm.RemoveSubtask | components/TaskModal.tsx:119-124 | the subtask at the index is removed, others kept in order; an index out of range removes nothing |
| TaskModal.TaskForm.EditSubtaskTitle | components/TaskModal.tsx:259-262 | only that subtask's title changes |
| TaskModal.TaskForm.AddFiles | components/TaskModal.tsx:90-97 | the chosen files are appended and the upload error cleared |
| TaskModal.TaskForm.RemoveFile | components/TaskModal.tsx:99-104 | the attachment at the index is removed, others kept in order |
| Dashboard.CalculateProgress | app/dashboard/page.tsx:69-73 | 0 for a board without tasks; otherwise the share of DONE tasks as a percentage rounded half up, at most 100 |
| Dashboard.ProgressAllDone | app/dashboard/page.tsx:69-73 | a non-empty board whose tasks are all DONE shows 100 |
| Dashboard.ProgressNoneDone | app/dashboard/page.tsx:69-73 | a board without DONE tasks shows 0 |
| Dashboard.ProgressMonotone | app/dashboard/page.tsx:69-73 | with the same number of tasks, more DONE tasks never show less progress |
| DashboardLayout.AtMostOneActive | app/dashboard/layout.tsx:94-98 | `IsActive`, the highlight test of these lines, never holds for two of the three navigation entries on the same path |
| DashboardLayout.PrefixesExclusive | app/dashboard/layout.tsx:95-98 | two prefixes that differ at some position cannot both start a path |
| DashboardLayout.TooShortForPrefix | app/dashboard/layout.tsx:95-98 | a path shorter than a prefix does not start with it |
| DashboardLayout.Gate | app/dashboard/layout.tsx:46-67 | `Render` and `Redirect`: the dashboard renders iff authenticated, the spinner iff loading; a redirect to `/auth/login` happens iff nothing renders |
| DashboardLayout.Sidebar.constructor | app/dashboard/layout.tsx:43 | the sidebar starts expanded |
| DashboardLayout.Sidebar.Toggle | app/dashboard/layout.tsx:82 | the button flips the collapsed flag, switching the sidebar width (and the content margin, lines 139-142) between 64 and 20 units |
| Store.SignedInId | app/api/tasks/route.ts:40 | `session?.user?.id` is usable iff there is a session with a non-empty user id |
| TasksRoute.GetAsWritten | app/api/tasks/route.ts:6-34 | as written: 401 only without a session; otherwise some tasks of the database |
| TasksRoute.Get | app/api/tasks/route.ts:6-34 | 401 iff no signed-in id; otherwise exactly the caller's tasks (as a multiset), newest first |
| TasksRoute.GetListsOwnTasks | app/api/tasks/route.ts:14-24 | a task is listed iff it is in the database and owned by the caller |
| TasksRoute.AsWrittenAgreesWhenSignedIn | app/api/tasks/route.ts:10-17 | for a caller with a user id, the handler as written gives exactly the corrected answer, so Get's owner filter and newest-first order hold for it |
| TasksRoute.GetAsWrittenLeaksTasks | app/api/tasks/route.ts:10-17 | a session without a user id gets every task of the database, where the corrected handler answers 401 |
| TasksRoute.OrDefault | app/api/tasks/route.ts:70-71 | `x \|\| default`: the value when truthy, otherwise the default |
| TasksRoute.NewSubtasks | app/api/tasks/route.ts:81-91 | `NewSubtask` per item: no subtasks unless the field is an array; otherwise one per item with its title, an empty description, the task's priority, TODO, progress 100 iff completed, the caller as owner |
| TasksRoute.Post | app/api/tasks/route.ts:36-132 | 401 iff not signed in; 400 iff no body or no truthy title or board id; 500 iff the board or the caller does not exist; errors leave the database alone; success appends exactly the created task |
| TasksRoute.CreatedTaskDefaults | app/api/tasks/route.ts:67-92 | `NewTask`, the record `prisma.task.create` stores: a created task is TODO, owned by the caller, on the given board, with description `''` and priority MEDIUM by default |
| TasksRoute.CreatedTaskListedFirst | app/api/tasks/route.ts:21-23 | when the new task is the newest, the caller's next listing starts with it |
| BoardsRoute.Summaries | app/api/boards/route.ts:36-41 | the task summaries of a board: one per task on it, with its id and status |
| BoardsRoute.ListingShows | app/api/boards/route.ts:14-48 | a listing keeps the board's fields, orders its columns by `order` as a permutation, and carries its task summaries |
| BoardsRoute.Get | app/api/boards/route.ts:6-55 | 401 iff not signed in; otherwise one listing per visible board, in insertion order, each showing that board |
| BoardsRoute.VisibleExactly | app/api/boards/route.ts:16-19 | a board is visible iff the caller owns it or is one of its members |
| BoardsRoute.Post | app/api/boards/route.ts:57-114 | 401 iff not signed in; 500 iff no body or the caller does not exist; on 201 exactly the new board is appended, owned by the caller, with the caller as its only member and the four default columns |
| BoardsRoute.DefaultColumnsOrdered | app/api/boards/route.ts:69-74 | the default columns are To Do, In Progress, Review, Done with orders 0..3 |
| BoardsRoute.DefaultColumnsSorted | app/api/boards/route.ts:69-74 | the default columns are ascending in their `order` |
| BoardsRoute.DefaultColumnsListed | app/api/boards/route.ts:42-46 | ordering the default columns by `order`, as the listing does, leaves them as created |
| BoardsRoute.CreatedBoardListed | app/api/boards/route.ts:76-109 | after a create, the caller's listing holds the new board with its default columns; in the modelled insertion order it is the last entry |
| BoardsRoute.CreatedBoardStartsAtZero | app/api/boards/route.ts:76-109 | a new board has no tasks, so the dashboard shows 0 progress for it |
| ProfileRoute.PutAsWritten | app/api/user/profile/route.ts:6-65 | as written: 401, 400 for a blank name or email, 400 when the untrimmed email belongs to another user; an accepted update stores the trimmed name and email |
| ProfileRoute.Put | app/api/user/profile/route.ts:6-65 | corrected: as above, but the trimmed email is the one checked against other users; 500 iff the body does not parse or the caller does not exist; 200 echoes and stores the trimmed values |
| ProfileRoute.PutChangesOnlyCaller | app/api/user/profile/route.ts:40-48 | an accepted update changes the caller's record and no other |
| ProfileRoute.PutKeepsEmailsUnique | app/api/user/profile/route.ts:26-48 | the corrected handler keeps emails unique across users, provided user ids are unique and the session's email is the caller's stored one |
| ProfileRoute.FreeUnlessRefused | app/api/user/profile/route.ts:25-38 | when the corrected check does not refuse, no other user holds the trimmed email |
| ProfileRoute.UpdateKeepsEmailsUnique | app/api/user/profile/route.ts:40-48 | storing an email nobody else holds keeps emails unique |
| ProfileRoute.PaddedEmailAsWritten | app/api/user/profile/route.ts:26-48 | as written, `" b@x"` sent by user a while user b has `b@x` is accepted, and two users then share `b@x` |
| ProfileRoute.PaddedEmailCorrected | app/api/user/profile/route.ts:26-48 | the corrected handler answers 400 to the same request |
| ProfileRoute.ExampleWellFormed | app/api/user/profile/route.ts:26-38 | the example database has unique emails and ids, and the example session is current |
| ProfileRoute.ExampleTrims | app/api/user/profile/route.ts:45-46 | trimming the example values gives `b@x` and `Ann` |
| ProfileRoute.Get | app/api/user/profile/route.ts:67-96 | 401 iff not signed in, 404 iff the caller does not exist; otherwise the caller's record |
| Dates.MakeDate | app/dashboard/calendar/page.tsx:26-27 | `new Date(year, monthIndex, day)` always yields a valid calendar date |
| Dates.Normalize | app/dashboard/calendar/page.tsx:27 | the day carry of the constructor: the result is a valid date, and an in-range day is kept as given |
| Dates.DaysInMonth | app/dashboard/calendar/page.tsx:27 | the Gregorian month lengths that `lastDay.getDate()` reports: 28 to 31 days, February has 29 exactly in a leap year (`IsLeapYear`), every other month at least 30 |
| Dates.YearLength | app/dashboard/calendar/page.tsx:27 | the twelve month lengths add up to 366 days in a leap year and 365 otherwise |
| Dates.MakeDateOfValid | app/dashboard/calendar/page.tsx:255 | outside years 0..99 the constructor returns a valid date unchanged |
| Dates.MakeDateInMonth | app/dashboard/calendar/page.tsx:37 | an in-range day of a month index 0..11 is kept, with the two-digit-year rule applied |
| Dates.MakeDateDayZero | app/dashboard/calendar/page.tsx:27 | day 0 of the next month is the last day of this month |
| Dates.MakeDateMonthCarry | app/dashboard/calendar/page.tsx:201-205 | an overflowing month index carries into the year |
| Dates.Weekday | app/dashboard/calendar/page.tsx:31 | `getDay()` is in 0..6 |
| Dates.WeekdayEpoch | app/dashboard/calendar/page.tsx:31 | 1 January 1970 is a Thursday |
| Dates.WeekdayNextDay | app/dashboard/calendar/page.tsx:31-38 | the next day's weekday is one more, modulo 7 |
| Dates.FebruaryEndStep | app/dashboard/calendar/page.tsx:31-38 | from the last day of February to 1 March the weekday number grows by one modulo 7, leap year or not |
| Dates.MonthEndStep | app/dashboard/calendar/page.tsx:31-38 | from the last day of a month other than February and December to the first of the next, the weekday number grows by one modulo 7 |
| Dates.WeekdaysFollow | app/dashboard/calendar/page.tsx:31-38 | the k-th day after the first of a month falls k weekdays later |
| Strings.Lower | app/dashboard/calendar/page.tsx:102-105 | `toLowerCase` keeps the length and lowers each character |
| Strings.IncludesIff | app/dashboard/calendar/page.tsx:104-105 | `includes` holds iff the needle occurs at some position |
| Strings.TrimStart | app/api/user/profile/route.ts:17-23 | trimming the front removes exactly the leading whitespace |
| Strings.TrimEnd | app/api/user/profile/route.ts:17-23 | trimming the back removes exactly the trailing whitespace |
| Strings.TrimMiddle | app/api/user/profile/route.ts:45-46 | `trim()` (`Trim`) is what is left between some leading and some trailing whitespace of the string |
| Strings.TrimEnds | app/api/user/profile/route.ts:45-46 | a non-empty `trim()` neither starts nor ends with whitespace |
| Strings.TrimEmptyIff | app/api/user/profile/route.ts:17-23 | `trim()` is empty iff the string is all whitespace |
| Strings.TrimOfPadded | app/api/user/profile/route.ts:45-46 | whitespace around a non-blank core trims to the core |
| Strings.Split | app/dashboard/calendar/page.tsx:254 | `split` always yields at least one part |
| Strings.JoinSplit | app/dashboard/calendar/page.tsx:254 | joining the parts with the separator gives back the string |
| Strings.SplitAtSeparator | app/dashboard/calendar/page.tsx:254 | a separator-free head followed by a separator splits off as the first part |
| Strings.SplitNoSeparator | app/dashboard/calendar/page.tsx:254 | a string without the separator is its own single part |
| Strings.DigitsValueDecimal | app/dashboard/calendar/page.tsx:215 | the decimal spelling of a number reads back as that number |
| Strings.DigitsValuePadZeros | app/dashboard/calendar/page.tsx:215 | leading zeros do not change the value read |
| Percent.RoundedPercent | app/dashboard/page.tsx:72 | `Math.round(part / total * 100)` taken exactly: the nearest integer, halves rounded up |
| Percent.RoundedPercentMonotone | app/dashboard/page.tsx:72 | a larger part never rounds to a smaller percentage |
| Seqs.FilterMembers | app/dashboard/calendar/page.tsx:189 | a filtered array holds exactly the elements that pass |
| Seqs.FilterIsSubsequence | app/dashboard/calendar/page.tsx:189 | a filtered array keeps the order of the original |
| Seqs.FilterTwice | app/dashboard/calendar/page.tsx:91-106 | two filters in a row are one filter by both tests |
| Seqs.SortBySortsAndPermutes | app/api/boards/route.ts:42-46 | ordering by a key yields a sorted permutation |
| Seqs.SortBySorted | app/api/boards/route.ts:42-46 | ordering by a key yields a sequence ascending in that key |
| Seqs.SortByPermutes | app/api/boards/route.ts:42-46 | ordering by a key keeps the same elements with the same multiplicities |
| Seqs.SortByOfSorted | app/api/boards/route.ts:42-46 | ordering a sequence already ascending in the key changes nothing |
| Seqs.FindIndex | app/dashboard/calendar/page.tsx:222 | `find` locates the first element that passes, or reports that none does |
| Seqs.MapWhere | app/dashboard/calendar/page.tsx:260-262 | the conditional map keeps the length and changes exactly the matching elements |
| Seqs.RemoveIndex | components/TaskModal.tsx:122 | filtering out one index removes that element only |

## Left out

- Network, database and session I/O are explicit parameters. These are the `fetch` calls, the Prisma client and `getServerSession`. Each server answer reaches the page as an `Outcome` together with the server's list. The server side of the calendar's PATCH and DELETE requests is `app/api/tasks/[id]/route.ts`, and that file is not part of this model. That file exports `GET`, `PUT` and `DELETE` but no `PATCH`.
- Time zones and times of day are not modelled. Dates are calendar triples. The cell ids come from `toISOString` (UTC), while the grid uses local dates. Away from UTC the two can differ by one day, and the model treats them as equal.
- `Number` of a cell-id part is modelled for digit runs only. The model covers an optional sign, and the empty string as 0. Whitespace, decimals, exponents and hexadecimal are not modelled. Neither is the limited time-value range of JavaScript dates: a year beyond ±275760 gives an invalid date there, and an unbounded one here.
- CalendarPage.CellIdRoundTrip: it is stated for years 100..9999 only. `new Date` maps years 0..99 to 1900..1999, so their ids do not read back. Wider years use the six-digit ISO form.
- CalendarPage.DropLandsOnCell: it is stated for cells in years 100..9999, where the cell id reads back (CellIdRoundTrip). A drop on a cell of another year is not covered.
- CalendarPage.MonthRoundTrip: it excludes years -1..100, because there the two-digit-year rule moves the date by centuries.
- Floating point is left out. `Math.round(a / b * 100)` is taken as the exact rounding of the rational number. Float error on a value of exactly `.5` is not captured.
- `toLowerCase` covers ASCII letters only; other Unicode case mappings are not modelled. `trim` uses JavaScript's own set of whitespace and line-terminator code points.
- JSON bodies are typed records. A field that is missing or `null` is `None`, and a body that fails to parse is `None`: 400 for the tasks POST, 500 for the boards POST and the profile PUT. Fields of another JSON type are not modelled, so the `TypeError`s they raise are missing.
- Invalid enum strings for priority, status and recurring are not modelled. One such string can arise from the app itself. A user who picks a recurrence and then "No recurring" leaves `recurring: ""` in the form (components/TaskModal.tsx:229-238). The calendar forwards it (app/dashboard/calendar/page.tsx:155-159), and the tasks POST hands it to Prisma unchanged (app/api/tasks/route.ts:74). If the database column is the enum that app/types.ts:20 describes, Prisma rejects it and the answer is 500. The model has only "no recurrence" (`None`) or one of the four values.
- CalendarPage.FormSubmissionCreates: it is stated for forms whose recurrence is unset or one of the four values. The `recurring: ""` path above, which would answer 500, is not covered.
- DraggableTask.CardState.SaveEdit: its parameter says whether the awaited `onUpdate` resolved or rejected, not whether the request succeeded. The handlers the app passes catch every error and always resolve (app/dashboard/calendar/page.tsx:291-316 and app/dashboard/boards/[id]/board-client.tsx:239-255). So in the app the editor always closes, even when the PATCH fails and the list keeps the old title. The model does not connect the card to a particular handler.
- ProfileRoute.PutKeepsEmailsUnique: it assumes the session's email is the caller's stored email. A stale session, for example after an earlier email change, skips the taken-email check even in the corrected handler. That case can break uniqueness and is not covered.
- `TasksRoute.GetAsWritten`: the model expresses "session present, user id missing" as one case. If `session.user` itself is missing, the code throws and the answer is 500. That case is not told apart.
- BoardsRoute.Get: the boards `findMany` (app/api/boards/route.ts:14-48) has no `orderBy`, so the database promises no order. The model lists boards in insertion order. That the new board comes last in BoardsRoute.CreatedBoardListed and BoardsRoute.CreatedBoardStartsAtZero is a fact of this model, not of the program. Membership and the shown columns and progress do not depend on the order.
- ProfileRoute.PutAsWritten: the unique index on the user email is not modelled. A trimmed email that another user already holds is stored here with 200, where the program's database refuses the update and the handler answers 500.
- Prisma's schema constraints are not modelled: a unique user email, a required board name, a valid board for an update. Nor are the `include`/`select` projections of owner, members, assignees and `createdAt`. The board listing carries the board's own fields, its ordered columns and its task summaries.
- Aliasing is not modelled:
  - The filter panel's `{ ...filters }` copy shares its arrays with the old state and with the page.
  - A subtask title edit mutates the shared subtask object.
  - `handleCreateTask` writes `dueDate` and `boardId` back into the form's object.

  The model gives each component its own copy.
- Concurrency between the optimistic update after a drop and a later re-fetch is not modelled. Neither are `alert`, `confirm`, console logging and the `dragging` CSS class.
- File uploads (`app/api/upload/route.ts`), the settings and board pages, `TaskDetail`, `BoardModal`, `handleLogout`, `isToday`, the drag sensors and the other rendering-only code are outside the modelled core.
- TaskModal.TaskForm.Submit: a failure inside the form's `onSubmit` callback, which would set the upload error, is not modelled. The callback is fire-and-forget there.
- TaskModal.TaskForm.Submit: a title made only of spaces is accepted, as in the code. Only the empty title is refused.
- TaskFilters.ToggleTwiceFromPresent: it states the multiset and the exact resulting order. It does not claim the original order is restored, because the code does not restore it.

## Findings

| source | as written | input that shows it | evidently intended | confidence | as-written member | corrected member |
|---|---|---|---|---|---|---|
| app/api/user/profile/route.ts:26-48 | the email-taken check looks up the untrimmed `email`, but the update stores `email.trim()` | user a sends email `" b@x"` while user b has `b@x`; the lookup finds nobody, and the stored email is `b@x` | the trimmed email is the one checked, so the request is refused with 400 "Email is already taken" (with the database's unique index, the code as written answers 500 instead) | not executed | ProfileRoute.PaddedEmailAsWritten | ProfileRoute.PutKeepsEmailsUnique |
| app/api/tasks/route.ts:10-17 | the list handler checks only `!session`, then filters by `ownerId: session.user.id`; when the id is `undefined` Prisma drops that condition | a session whose user has no id; the answer is every task of every user | refuse it with 401 like the other handlers (`!session?.user?.id`) | not executed | TasksRoute.GetAsWrittenLeaksTasks | TasksRoute.Get |
