/**
 * The calendar page: a month grid of day cells, the tasks of the month
 * filtered by the filter panel and placed on the day they are due, and the
 * handlers that move a task to another day, update it, delete it and create
 * one from the new-task form.
 */
module CalendarPage {
  import opened Wrappers
  import opened Dates
  import opened Types
  import opened Seqs
  import opened Strings
  import opened TaskFilters
  import Store
  import TasksRoute

  // ---------------------------------------------------------------------
  // The month grid

  /**
   * `generateCalendarDays`: one blank cell per weekday before the first of
   * the month, then one cell per day of the month, in order. The first
   * ensures follow the code step by step through the `Date` constructor;
   * the last one says what that comes to for a month index 0..11: every
   * day of the month once, each in the column of its weekday.
   */
  method GenerateCalendarDays(year: int, month: int) returns (days: seq<Option<Date>>)
    ensures |days| == Weekday(MakeDate(year, month, 1)) + MakeDate(year, month + 1, 0).day
    ensures forall i :: 0 <= i < Weekday(MakeDate(year, month, 1)) ==> days[i] == None
    ensures forall i :: Weekday(MakeDate(year, month, 1)) <= i < |days| ==>
      days[i] == Some(MakeDate(year, month, i - Weekday(MakeDate(year, month, 1)) + 1))
    ensures 0 <= month < 12 ==> InMonthGrid(year, month, days)
  {
    var firstDay := MakeDate(year, month, 1);
    var lastDay := MakeDate(year, month + 1, 0);
    var blank := BlankCells(Weekday(firstDay));
    days := AppendDays(blank, year, month, lastDay.day);
    CellsLaidOut(year, month, blank, days);
  }

  /** The two loops together lay out the grid the contract of `GenerateCalendarDays` describes. */
  lemma CellsLaidOut(year: int, month: int, blank: seq<Option<Date>>, days: seq<Option<Date>>)
    requires |blank| == Weekday(MakeDate(year, month, 1))
    requires forall i :: 0 <= i < |blank| ==> blank[i] == None
    requires |days| == |blank| + MakeDate(year, month + 1, 0).day
    requires forall j :: 0 <= j < |blank| ==> days[j] == blank[j]
    requires forall j :: |blank| <= j < |days| ==> days[j] == Some(MakeDate(year, month, j - |blank| + 1))
    ensures |days| == Weekday(MakeDate(year, month, 1)) + MakeDate(year, month + 1, 0).day
    ensures forall i :: 0 <= i < Weekday(MakeDate(year, month, 1)) ==> days[i] == None
    ensures forall i :: Weekday(MakeDate(year, month, 1)) <= i < |days| ==>
      days[i] == Some(MakeDate(year, month, i - Weekday(MakeDate(year, month, 1)) + 1))
    ensures 0 <= month < 12 ==> InMonthGrid(year, month, days)
  {
    var blanks := Weekday(MakeDate(year, month, 1));
    assert forall i :: 0 <= i < blanks ==> days[i] == None;
    assert forall i :: blanks <= i < |days| ==> days[i] == Some(MakeDate(year, month, i - blanks + 1));
    if 0 <= month < 12 {
      MonthGrid(year, month, days);
    }
  }

  /** The first loop of `generateCalendarDays`: `blanks` empty cells. */
  method BlankCells(blanks: nat) returns (days: seq<Option<Date>>)
    ensures |days| == blanks
    ensures forall i :: 0 <= i < blanks ==> days[i] == None
  {
    days := [];
    var i := 0;
    while i < blanks
      invariant 0 <= i <= blanks
      invariant |days| == i
      invariant forall j :: 0 <= j < i ==> days[j] == None
    {
      days := days + [None];
      i := i + 1;
    }
  }

  /** The second loop of `generateCalendarDays`: the cells for days 1 to `last`, after the ones already there. */
  method AppendDays(cells: seq<Option<Date>>, year: int, month: int, last: nat) returns (days: seq<Option<Date>>)
    ensures |days| == |cells| + last
    ensures forall j :: 0 <= j < |cells| ==> days[j] == cells[j]
    ensures forall j :: |cells| <= j < |days| ==> days[j] == Some(MakeDate(year, month, j - |cells| + 1))
  {
    days := cells;
    var i := 1;
    while i <= last
      invariant 1 <= i <= last + 1
      invariant |days| == |cells| + i - 1
      invariant forall j :: 0 <= j < |cells| ==> days[j] == cells[j]
      invariant forall j :: |cells| <= j < |days| ==> days[j] == Some(MakeDate(year, month, j - |cells| + 1))
    {
      days := days + [Some(MakeDate(year, month, i))];
      i := i + 1;
    }
  }

  /**
   * For a month index 0..11 the grid holds every day of the month once, in
   * order, each in the column (index modulo 7) of its weekday.
   */
  ghost predicate InMonthGrid(year: int, month: int, days: seq<Option<Date>>)
    requires 0 <= month < 12
  {
    var y := ConstructorYear(year);
    var blanks := Weekday(Date(y, month, 1));
    |days| == blanks + DaysInMonth(y, month) &&
    (forall i :: 0 <= i < blanks ==> days[i] == None) &&
    forall i :: blanks <= i < |days| ==>
      days[i] == Some(Date(y, month, i - blanks + 1)) && Weekday(days[i].value) == i % 7
  }

  lemma MonthGrid(year: int, month: int, days: seq<Option<Date>>)
    requires 0 <= month < 12
    requires |days| == Weekday(MakeDate(year, month, 1)) + MakeDate(year, month + 1, 0).day
    requires forall i :: 0 <= i < Weekday(MakeDate(year, month, 1)) ==> days[i] == None
    requires forall i :: Weekday(MakeDate(year, month, 1)) <= i < |days| ==>
      days[i] == Some(MakeDate(year, month, i - Weekday(MakeDate(year, month, 1)) + 1))
    ensures InMonthGrid(year, month, days)
  {
    var y := ConstructorYear(year);
    MakeDateDayZero(year, month);
    MakeDateInMonth(year, month, 1);
    var blanks := Weekday(Date(y, month, 1));
    forall j | blanks <= j < |days|
      ensures days[j] == Some(Date(y, month, j - blanks + 1)) && Weekday(days[j].value) == j % 7
    {
      var k := j - blanks;
      MakeDateInMonth(year, month, k + 1);
      WeekdaysFollow(y, month, k);
    }
  }

  // ---------------------------------------------------------------------
  // The filter effect

  /**
   * The search test: the lower-cased query occurs in the lower-cased title,
   * or in the lower-cased description when there is one.
   */
  predicate SearchHit(query: string, t: Task)
  {
    var q := Lower(query);
    Includes(Lower(t.title), q) || (t.description != "" && Includes(Lower(t.description), q))
  }

  /** The search test in terms of positions: the query occurs at some index of the title or description. */
  lemma SearchHitIff(query: string, t: Task)
    ensures SearchHit(query, t) <==>
      (exists i :: OccursAt(Lower(t.title), Lower(query), i)) ||
      (t.description != "" && exists i :: OccursAt(Lower(t.description), Lower(query), i))
  {
    IncludesIff(Lower(t.title), Lower(query));
    IncludesIff(Lower(t.description), Lower(query));
    assert SearchHit(query, t) == (Includes(Lower(t.title), Lower(query)) ||
      (t.description != "" && Includes(Lower(t.description), Lower(query))));
  }

  /** Each filter, passing everything while it is inactive. */
  function StatusPasses(f: Filters): Task -> bool
  {
    (t: Task) => |f.status| == 0 || StatusName(t.status) in f.status
  }

  function PriorityPasses(f: Filters): Task -> bool
  {
    (t: Task) => |f.priority| == 0 || PriorityName(t.priority) in f.priority
  }

  function SearchPasses(f: Filters): Task -> bool
  {
    (t: Task) => f.search == "" || SearchHit(f.search, t)
  }

  function StatusAndPriority(f: Filters): Task -> bool
  {
    (t: Task) => StatusPasses(f)(t) && PriorityPasses(f)(t)
  }

  /** A task the page shows: it passes every active filter. */
  function Matches(f: Filters): Task -> bool
  {
    (t: Task) => StatusAndPriority(f)(t) && SearchPasses(f)(t)
  }

  /**
   * The effect on `[tasks, filters]`: start from the whole list and narrow
   * it by status, then priority, then search, each only when active. The
   * result is one filter by all active tests together: an order-preserving
   * subsequence holding exactly the matching tasks, and the whole list when
   * no filter is active.
   */
  method FilterTasks(tasks: seq<Task>, filters: Filters) returns (result: seq<Task>)
    ensures result == Filter(tasks, Matches(filters))
    ensures IsSubsequence(result, tasks)
    ensures forall t :: t in result <==> t in tasks && Matches(filters)(t)
    ensures filters.status == [] && filters.priority == [] && filters.search == "" ==> result == tasks
  {
    result := tasks;
    if |filters.status| > 0 {
      result := Filter(result, InStatus(filters));
    }
    StatusStage(tasks, filters);
    if |filters.priority| > 0 {
      result := Filter(result, InPriority(filters));
    }
    PriorityStage(tasks, filters);
    if filters.search != "" {
      result := Filter(result, Searched(filters));
    }
    SearchStage(tasks, filters);
    FilteredTasks(tasks, filters);
  }

  /** The tests of the three `filter` calls, each applied only while its filter is active. */
  function InStatus(f: Filters): Task -> bool
  {
    (t: Task) => StatusName(t.status) in f.status
  }

  function InPriority(f: Filters): Task -> bool
  {
    (t: Task) => PriorityName(t.priority) in f.priority
  }

  function Searched(f: Filters): Task -> bool
  {
    (t: Task) => SearchHit(f.search, t)
  }

  lemma StatusStage(tasks: seq<Task>, f: Filters)
    ensures Filter(tasks, StatusPasses(f)) == if |f.status| > 0 then Filter(tasks, InStatus(f)) else tasks
  {
    if |f.status| > 0 {
      FilterCongruent(tasks, InStatus(f), StatusPasses(f));
    } else {
      FilterAllPass(tasks, StatusPasses(f));
    }
  }

  lemma PriorityStage(tasks: seq<Task>, f: Filters)
    ensures Filter(tasks, StatusAndPriority(f)) ==
      if |f.priority| > 0 then Filter(Filter(tasks, StatusPasses(f)), InPriority(f)) else Filter(tasks, StatusPasses(f))
  {
    if |f.priority| > 0 {
      FilterTwice(tasks, StatusPasses(f), InPriority(f), StatusAndPriority(f));
    } else {
      FilterCongruent(tasks, StatusPasses(f), StatusAndPriority(f));
    }
  }

  lemma SearchStage(tasks: seq<Task>, f: Filters)
    ensures Filter(tasks, Matches(f)) ==
      if f.search != "" then Filter(Filter(tasks, StatusAndPriority(f)), Searched(f)) else Filter(tasks, StatusAndPriority(f))
  {
    if f.search != "" {
      FilterTwice(tasks, StatusAndPriority(f), Searched(f), Matches(f));
    } else {
      FilterCongruent(tasks, StatusAndPriority(f), Matches(f));
    }
  }

  /** The filtered list is an order-preserving subsequence with exactly the matching tasks; no active filter keeps all. */
  lemma FilteredTasks(tasks: seq<Task>, f: Filters)
    ensures IsSubsequence(Filter(tasks, Matches(f)), tasks)
    ensures forall t :: t in Filter(tasks, Matches(f)) <==> t in tasks && Matches(f)(t)
    ensures f.status == [] && f.priority == [] && f.search == "" ==> Filter(tasks, Matches(f)) == tasks
  {
    FilterIsSubsequence(tasks, Matches(f));
    forall t ensures t in Filter(tasks, Matches(f)) <==> t in tasks && Matches(f)(t) {
      FilterMembers(tasks, Matches(f), t);
    }
    if f.status == [] && f.priority == [] && f.search == "" {
      forall i | 0 <= i < |tasks| ensures Matches(f)(tasks[i]) {
        assert StatusPasses(f)(tasks[i]) && PriorityPasses(f)(tasks[i]);
        assert StatusAndPriority(f)(tasks[i]) && SearchPasses(f)(tasks[i]);
      }
      FilterAllPass(tasks, Matches(f));
    }
  }

  /** Whether a task passes the filters does not depend on its due date. */
  lemma MatchesIgnoresDueDate(f: Filters, t: Task, due: Option<Date>)
    ensures Matches(f)(t.(dueDate := due)) == Matches(f)(t)
  {
    var moved := t.(dueDate := due);
    assert StatusPasses(f)(moved) == StatusPasses(f)(t);
    assert PriorityPasses(f)(moved) == PriorityPasses(f)(t);
    assert StatusAndPriority(f)(moved) == StatusAndPriority(f)(t);
    assert SearchPasses(f)(moved) == SearchPasses(f)(t);
  }

  // ---------------------------------------------------------------------
  // Day cells

  function OnDay(d: Date): Task -> bool
  {
    (t: Task) => t.dueDate == Some(d)
  }

  /**
   * `getTasksForDate`: nothing for a blank cell; otherwise, in order, the
   * filtered tasks due on the same year, month and day, each as often as it
   * occurs.
   */
  function TasksForDate(filtered: seq<Task>, date: Option<Date>): (r: seq<Task>)
    ensures date.None? ==> r == []
    ensures date.Some? ==> IsSubsequence(r, filtered) && |r| == Count(filtered, OnDay(date.value))
    ensures forall t :: t in r <==> date.Some? && t in filtered && t.dueDate == Some(date.value)
  {
    match date
    case None => []
    case Some(d) =>
      FilterIsSubsequence(filtered, OnDay(d));
      FilterLength(filtered, OnDay(d));
      assert forall t :: t in Filter(filtered, OnDay(d)) <==> t in filtered && OnDay(d)(t) by {
        forall t { FilterMembers(filtered, OnDay(d), t); }
      }
      Filter(filtered, OnDay(d))
  }

  /** A task without a due date is in no cell; a task with one is in its own day's cell only. */
  lemma TaskInOneCell(filtered: seq<Task>, t: Task, d: Date)
    requires t in filtered
    ensures t in TasksForDate(filtered, Some(d)) <==> t.dueDate == Some(d)
    ensures t.dueDate.None? ==> t !in TasksForDate(filtered, Some(d))
  {
  }

  // ---------------------------------------------------------------------
  // Cell ids: `date.toISOString().split('T')[0]` and back

  /** The year of an ISO date: four digits for 0..9999, otherwise a sign and six digits. */
  function YearDigits(year: int): string
  {
    if 0 <= year <= 9999 then PadZeros(Decimal(year), 4)
    else if year > 9999 then "+" + PadZeros(Decimal(year), 6)
    else "-" + PadZeros(Decimal(-year), 6)
  }

  /** The droppable id of a day cell, `YYYY-MM-DD`. */
  function FormatDateId(d: Date): string
    requires IsValid(d)
  {
    YearDigits(d.year) + "-" + PadZeros(Decimal(d.month + 1), 2) + "-" + PadZeros(Decimal(d.day), 2)
  }

  /**
   * `Number(part)` for the parts of a cell id: a run of digits, possibly
   * empty (which is 0), with an optional sign; anything else is `NaN`.
   */
  function NumberOf(part: string): Option<int>
  {
    if IsDigits(part) then Some(DigitsValue(part))
    else if |part| >= 2 && part[0] == '+' && IsDigits(part[1..]) then Some(DigitsValue(part[1..]))
    else if |part| >= 2 && part[0] == '-' && IsDigits(part[1..]) then Some(0 - DigitsValue(part[1..]) as int)
    else None
  }

  /**
   * `dateId.split('-').map(Number)` into `new Date(year, month - 1, day)`.
   * A missing or non-numeric part gives an invalid date, `None` here.
   */
  function ParseDateId(id: string): Option<Date>
  {
    var parts := Split(id, '-');
    if |parts| < 3 then None
    else
      match (NumberOf(parts[0]), NumberOf(parts[1]), NumberOf(parts[2]))
      case (Some(y), Some(m), Some(d)) => Some(MakeDate(y, m - 1, d))
      case _ => None
  }

  lemma DigitsHaveNoDash(s: string)
    requires IsDigits(s)
    ensures '-' !in s
  {
    forall i | 0 <= i < |s| ensures s[i] != '-' {
      assert IsDigit(s[i]);
    }
  }

  /** A padded decimal numeral reads back as its number. */
  lemma {:induction false} PaddedNumber(n: nat, width: nat)
    ensures IsDigits(PadZeros(Decimal(n), width))
    ensures NumberOf(PadZeros(Decimal(n), width)) == Some(n)
  {
    DigitsValuePadZeros(Decimal(n), width);
    DigitsValueDecimal(n);
  }

  /** The id of a day cell parses back to that day, for four-digit years from 100 on. */
  lemma {:induction false} CellIdRoundTrip(d: Date)
    requires IsValid(d) && 100 <= d.year <= 9999
    ensures ParseDateId(FormatDateId(d)) == Some(d)
  {
    var y, m, dd := PadZeros(Decimal(d.year), 4), PadZeros(Decimal(d.month + 1), 2), PadZeros(Decimal(d.day), 2);
    PaddedNumber(d.year, 4);
    PaddedNumber(d.month + 1, 2);
    PaddedNumber(d.day, 2);
    assert YearDigits(d.year) == y;
    var id := FormatDateId(d);
    assert id == y + "-" + m + "-" + dd;
    SplitThree(y, m, dd);
    ParseOfParts(id, y, m, dd, d.year, d.month + 1, d.day);
    MakeDateOfValid(d);
  }

  /** An id that splits into three numerals is parsed into the date they give. */
  lemma ParseOfParts(id: string, a: string, b: string, c: string, year: int, month: int, day: int)
    requires Split(id, '-') == [a, b, c]
    requires NumberOf(a) == Some(year) && NumberOf(b) == Some(month) && NumberOf(c) == Some(day)
    ensures ParseDateId(id) == Some(MakeDate(year, month - 1, day))
  {
  }

  /** Three runs of digits joined by `-` split back into those three. */
  lemma SplitThree(a: string, b: string, c: string)
    requires IsDigits(a) && IsDigits(b) && IsDigits(c)
    ensures Split(a + "-" + b + "-" + c, '-') == [a, b, c]
  {
    DigitsHaveNoDash(a);
    DigitsHaveNoDash(b);
    DigitsHaveNoDash(c);
    assert a + "-" + b + "-" + c == a + ['-'] + (b + ['-'] + c);
    SplitAtSeparator(a, b + ['-'] + c, '-');
    SplitAtSeparator(b, c, '-');
    SplitNoSeparator(c, '-');
  }

  // ---------------------------------------------------------------------
  // Month navigation

  /** `goToPreviousMonth`: the first of the month before. */
  function PreviousMonth(current: Date): (r: Date)
    ensures IsValid(r) && r.day == 1
  {
    MakeDate(current.year, current.month - 1, 1)
  }

  /** `goToNextMonth`: the first of the month after. */
  function NextMonth(current: Date): (r: Date)
    ensures IsValid(r) && r.day == 1
  {
    MakeDate(current.year, current.month + 1, 1)
  }

  /** Away from the two-digit years, the navigation steps one month, across year ends too. */
  lemma MonthSteps(current: Date)
    requires 0 <= current.month < 12 && !(0 <= current.year <= 99)
    ensures PreviousMonth(current) ==
      if current.month == 0 then Date(current.year - 1, 11, 1) else Date(current.year, current.month - 1, 1)
    ensures NextMonth(current) ==
      if current.month == 11 then Date(current.year + 1, 0, 1) else Date(current.year, current.month + 1, 1)
  {
    var y, m := current.year, current.month;
    if m == 0 {
      assert (y * 12 - 1) / 12 == y - 1 && (y * 12 - 1) % 12 == 11;
    } else {
      assert (y * 12 + m - 1) / 12 == y && (y * 12 + m - 1) % 12 == m - 1;
    }
    if m == 11 {
      assert (y * 12 + 12) / 12 == y + 1 && (y * 12 + 12) % 12 == 0;
    } else {
      assert (y * 12 + m + 1) / 12 == y && (y * 12 + m + 1) % 12 == m + 1;
    }
  }

  /** Back then forward, or forward then back, returns to the first of the month. */
  lemma {:induction false} MonthRoundTrip(current: Date)
    requires 0 <= current.month < 12 && !(-1 <= current.year <= 100)
    ensures NextMonth(PreviousMonth(current)) == Date(current.year, current.month, 1)
    ensures PreviousMonth(NextMonth(current)) == Date(current.year, current.month, 1)
  {
    MonthSteps(current);
    MonthSteps(PreviousMonth(current));
    MonthSteps(NextMonth(current));
  }

  // ---------------------------------------------------------------------
  // The page's state and its handlers

  datatype Page = Page(
    tasks: seq<Task>,
    activeTask: Option<Task>,
    selectedTask: Option<Task>,
    showTaskDetail: bool,
    selectedDate: Option<Date>,
    showNewTaskModal: bool,
    defaultBoardId: string,
    filters: Filters)

  function HasId(id: string): Task -> bool
  {
    (t: Task) => t.id == id
  }

  predicate Listed(tasks: seq<Task>, id: string)
  {
    exists i :: 0 <= i < |tasks| && tasks[i].id == id
  }

  /** `handleDragStart`: the first task with the dragged id becomes the active one; an unknown id changes nothing. */
  function DragStart(page: Page, activeId: string): (p: Page)
    ensures !Listed(page.tasks, activeId) ==> p == page
    ensures Listed(page.tasks, activeId) ==>
      var i := FindIndex(page.tasks, HasId(activeId));
      0 <= i && page.tasks[i].id == activeId && p == page.(activeTask := Some(page.tasks[i]))
  {
    var i := FindIndex(page.tasks, HasId(activeId));
    if i < 0 then page else page.(activeTask := Some(page.tasks[i]))
  }

  /** What `handleDragEnd` sends: nothing, the PATCH of the new due date, or (after a failure) a re-fetch. */
  datatype DropEffect = NoRequest | Patch(taskId: string, update: TaskUpdate) | Refetch

  datatype Drop = Drop(page: Page, effect: DropEffect)

  function Moved(d: Date): Task -> Task
  {
    (t: Task) => t.(dueDate := Some(d))
  }

  /**
   * `handleDragEnd`. The active task is cleared first, whatever happens.
   * With no drop target, or a dragged id not in the list, that is all. A
   * cell id that does not parse makes the date conversion throw before the
   * list is touched, and the page re-fetches. Otherwise every task with the
   * dragged id gets the parsed date as its due date, the rest of the list is
   * kept as it was, and the new date is sent.
   */
  function DragEnd(page: Page, activeId: string, overId: Option<string>): (r: Drop)
    ensures r.page.activeTask == None
    ensures r.page.(activeTask := page.activeTask, tasks := page.tasks) == page
    ensures overId.None? || !Listed(page.tasks, activeId) ==>
      r.page.tasks == page.tasks && r.effect == NoRequest
    ensures overId.Some? && Listed(page.tasks, activeId) && ParseDateId(overId.value).None? ==>
      r.page.tasks == page.tasks && r.effect == Refetch
    ensures overId.Some? && Listed(page.tasks, activeId) && ParseDateId(overId.value).Some? ==>
      var d := ParseDateId(overId.value).value;
      r.effect == Patch(activeId, DueDateUpdate(d)) &&
      |r.page.tasks| == |page.tasks| &&
      forall i :: 0 <= i < |page.tasks| ==>
        r.page.tasks[i] == if page.tasks[i].id == activeId then page.tasks[i].(dueDate := Some(d)) else page.tasks[i]
  {
    var cleared := page.(activeTask := None);
    if overId.None? then Drop(cleared, NoRequest)
    else if FindIndex(page.tasks, HasId(activeId)) < 0 then Drop(cleared, NoRequest)
    else
      match ParseDateId(overId.value)
      case None => Drop(cleared, Refetch)
      case Some(d) =>
        Drop(cleared.(tasks := MapWhere(page.tasks, HasId(activeId), Moved(d))), Patch(activeId, DueDateUpdate(d)))
  }

  /** A task dropped on a day cell lands in that cell, if it passes the filters. */
  lemma {:induction false} DropLandsOnCell(page: Page, activeId: string, cell: Date, i: nat)
    requires IsValid(cell) && 100 <= cell.year <= 9999
    requires i < |page.tasks| && page.tasks[i].id == activeId && Matches(page.filters)(page.tasks[i])
    ensures var after := DragEnd(page, activeId, Some(FormatDateId(cell))).page;
      page.tasks[i].(dueDate := Some(cell)) in TasksForDate(Filter(after.tasks, Matches(after.filters)), Some(cell))
  {
    CellIdRoundTrip(cell);
    var after := DragEnd(page, activeId, Some(FormatDateId(cell))).page;
    var moved := page.tasks[i].(dueDate := Some(cell));
    assert after.tasks[i] == moved;
    MatchesIgnoresDueDate(page.filters, page.tasks[i], Some(cell));
    FilterMembers(after.tasks, Matches(after.filters), moved);
  }

  /** The outcome of the PATCH: on failure the list is replaced by what the server returns. */
  function SettleDrop(page: Page, outcome: Outcome, serverTasks: seq<Task>): (p: Page)
    ensures outcome == Succeeded ==> p == page
    ensures outcome == Failed ==> p.tasks == serverTasks && p.(tasks := page.tasks) == page
  {
    if outcome == Failed then page.(tasks := serverTasks) else page
  }

  /** `{ ...task, ...updates }`: each field the update carries replaces the task's own. */
  function Merge(t: Task, u: TaskUpdate): Task
  {
    Task(t.id, u.title.GetOr(t.title), u.description.GetOr(t.description), u.priority.GetOr(t.priority),
      u.dueDate.GetOr(t.dueDate), u.recurring.GetOr(t.recurring), u.status.GetOr(t.status),
      u.progress.GetOr(t.progress), u.subtasks.GetOr(t.subtasks), u.attachments.GetOr(t.attachments))
  }

  const NoChanges := TaskUpdate(None, None, None, None, None, None, None, None, None)

  /**
   * Merging keeps the id, changes nothing for an empty update, and a second
   * merge of the same update changes nothing more. The id is kept because a
   * `TaskUpdate` has no id field: an update that carries an `id` is not
   * modelled.
   */
  lemma MergeLaws(t: Task, u: TaskUpdate)
    ensures Merge(t, u).id == t.id
    ensures Merge(t, NoChanges) == t
    ensures Merge(Merge(t, u), u) == Merge(t, u)
  {
  }

  /** The card's inline edit changes only the title; a drop's update changes only the due date. */
  lemma MergeSingleField(t: Task, title: string, d: Date)
    ensures Merge(t, TitleUpdate(title)) == t.(title := title)
    ensures Merge(t, DueDateUpdate(d)) == t.(dueDate := Some(d))
  {
  }

  /**
   * `handleTaskUpdate`: when the server accepts, every task with that id
   * receives the merged fields and the others stay; the open detail view is
   * merged too if it shows that task. A failure changes nothing.
   */
  function UpdateTask(page: Page, taskId: string, updates: TaskUpdate, outcome: Outcome): (p: Page)
    ensures outcome == Failed ==> p == page
    ensures outcome == Succeeded ==>
      |p.tasks| == |page.tasks| &&
      forall i :: 0 <= i < |page.tasks| ==>
        p.tasks[i] == if page.tasks[i].id == taskId then Merge(page.tasks[i], updates) else page.tasks[i]
    ensures outcome == Succeeded ==>
      p.selectedTask == if page.selectedTask.Some? && page.selectedTask.value.id == taskId
                        then Some(Merge(page.selectedTask.value, updates)) else page.selectedTask
    ensures p.(tasks := page.tasks, selectedTask := page.selectedTask) == page
  {
    if outcome == Failed then page
    else
      var merged := (t: Task) => Merge(t, updates);
      var selected := if page.selectedTask.Some? && page.selectedTask.value.id == taskId
                      then Some(Merge(page.selectedTask.value, updates)) else page.selectedTask;
      page.(tasks := MapWhere(page.tasks, HasId(taskId), merged), selectedTask := selected)
  }

  function NotId(id: string): Task -> bool
  {
    (t: Task) => t.id != id
  }

  /**
   * `handleTaskDelete`: when the server accepts, the tasks with that id go
   * and the rest stay in order; an open detail view of that task closes. A
   * failure changes nothing.
   */
  function DeleteTask(page: Page, taskId: string, outcome: Outcome): (p: Page)
    ensures outcome == Failed ==> p == page
    ensures outcome == Succeeded ==>
      IsSubsequence(p.tasks, page.tasks) && |p.tasks| == Count(page.tasks, NotId(taskId)) &&
      forall t :: t in p.tasks <==> t in page.tasks && t.id != taskId
    ensures outcome == Succeeded && page.selectedTask.Some? && page.selectedTask.value.id == taskId ==>
      p.selectedTask == None && !p.showTaskDetail
    ensures !(outcome == Succeeded && page.selectedTask.Some? && page.selectedTask.value.id == taskId) ==>
      p.selectedTask == page.selectedTask && p.showTaskDetail == page.showTaskDetail
    ensures p.(tasks := page.tasks, selectedTask := page.selectedTask, showTaskDetail := page.showTaskDetail) == page
  {
    match outcome
    case Failed => page
    case Succeeded =>
      var kept := Filter(page.tasks, NotId(taskId));
      FilterIsSubsequence(page.tasks, NotId(taskId));
      FilterLength(page.tasks, NotId(taskId));
      assert forall t :: t in kept <==> t in page.tasks && t.id != taskId by {
        forall t { FilterMembers(page.tasks, NotId(taskId), t); }
      }
      if page.selectedTask.Some? && page.selectedTask.value.id == taskId
      then page.(tasks := kept, selectedTask := None, showTaskDetail := false)
      else page.(tasks := kept)
  }

  /** Deleting again by the same id, after a delete went through, changes nothing more. */
  lemma {:induction false} DeleteTwice(page: Page, taskId: string)
    ensures DeleteTask(DeleteTask(page, taskId, Succeeded), taskId, Succeeded) == DeleteTask(page, taskId, Succeeded)
  {
    var once := DeleteTask(page, taskId, Succeeded);
    FilterTwice(page.tasks, NotId(taskId), NotId(taskId), NotId(taskId));
  }

  /** A click on a task opens its detail view, unless a drag is in progress. */
  function TaskClicked(page: Page, t: Task): (p: Page)
    ensures page.activeTask.None? ==> p == page.(selectedTask := Some(t), showTaskDetail := true)
    ensures page.activeTask.Some? ==> p == page
  {
    if page.activeTask.None? then page.(selectedTask := Some(t), showTaskDetail := true) else page
  }

  /** `handleDateClick`: the clicked day is remembered and the new-task form opens. */
  function DateClicked(page: Page, day: Date): (p: Page)
    ensures p == page.(selectedDate := Some(day), showNewTaskModal := true)
  {
    page.(selectedDate := Some(day), showNewTaskModal := true)
  }

  /** `handleSearch`: only the search text of the filters changes. */
  function SearchChanged(page: Page, query: string): (p: Page)
    ensures p.filters.search == query
    ensures p.filters.status == page.filters.status && p.filters.priority == page.filters.priority
    ensures p.(filters := page.filters) == page
  {
    page.(filters := page.filters.(search := query))
  }

  /** `fetchBoards`: the first listed board becomes the default board, if there is one. */
  function BoardsLoaded(page: Page, boardIds: seq<string>): (p: Page)
    ensures |boardIds| > 0 ==> p == page.(defaultBoardId := boardIds[0])
    ensures |boardIds| == 0 ==> p == page
  {
    if |boardIds| > 0 then page.(defaultBoardId := boardIds[0]) else page
  }

  // ---------------------------------------------------------------------
  // Creating a task from the form

  /**
   * `handleCreateTask`: the body it posts. A form without a due date takes
   * the clicked day; a form without a board takes the default board.
   */
  function CreatePayload(page: Page, data: TaskData): (body: TasksRoute.TaskBody)
    ensures body.title == Some(data.title) && body.description == Some(data.description)
    ensures body.priority == Some(data.priority) && body.recurring == data.recurring
    ensures body.dueDate == if data.dueDate.None? then page.selectedDate else data.dueDate
    ensures body.boardId == Some(if data.boardId == "" then page.defaultBoardId else data.boardId)
    ensures body.subtasks.ArrayOf? && |body.subtasks.items| == |data.subtasks|
    ensures forall i :: 0 <= i < |data.subtasks| ==>
      body.subtasks.items[i] == TasksRoute.SubtaskInput(data.subtasks[i].title, data.subtasks[i].completed)
  {
    var due := if page.selectedDate.Some? && data.dueDate.None? then page.selectedDate else data.dueDate;
    var board := if data.boardId == "" && page.defaultBoardId != "" then page.defaultBoardId else data.boardId;
    var items := seq(|data.subtasks|, i requires 0 <= i < |data.subtasks| =>
      TasksRoute.SubtaskInput(data.subtasks[i].title, data.subtasks[i].completed));
    TasksRoute.TaskBody(Some(data.title), Some(data.description), Some(data.priority), due, data.recurring,
      TasksRoute.ArrayOf(items), Some(board))
  }

  /**
   * What the form submits (a non-empty title) with a board to fall back on
   * passes the API's validation, and once the board and the caller exist it
   * is created on the clicked day, as TODO, with one subtask per form
   * subtask, completed ones at 100.
   */
  lemma {:induction false} FormSubmissionCreates(page: Page, data: TaskData, db: Store.Db, session: Option<Store.Session>, newId: string, now: int)
    requires data.title != "" && (data.boardId != "" || page.defaultBoardId != "")
    requires Store.SignedInId(session).Some?
    ensures var h := TasksRoute.Post(db, session, Some(CreatePayload(page, data)), newId, now);
      h.response.status != 401 && h.response.status != 400
    ensures var body := CreatePayload(page, data);
      var h := TasksRoute.Post(db, session, Some(body), newId, now);
      Store.HasBoard(db, body.boardId.value) && Store.HasUser(db, Store.SignedInId(session).value) ==>
        h.response.Ok? && h.response.value.status == Todo && h.response.value.dueDate == body.dueDate &&
        |h.response.value.subtasks| == |data.subtasks| &&
        forall i :: 0 <= i < |data.subtasks| ==>
          h.response.value.subtasks[i].title == data.subtasks[i].title &&
          h.response.value.subtasks[i].progress == (if data.subtasks[i].completed then 100 else 0)
  {
    var body := CreatePayload(page, data);
    var h := TasksRoute.Post(db, session, Some(body), newId, now);
    if h.response.Ok? {
      TasksRoute.CreatedTaskDefaults(db, session, Some(body), newId, now);
    }
  }

  /**
   * What `handleCreateTask` does once the POST settles: after a success the
   * list is re-fetched, the form closes and the clicked day is forgotten;
   * after a failure it only alerts.
   */
  function AfterCreate(page: Page, outcome: Outcome, serverTasks: seq<Task>): (p: Page)
    ensures outcome == Failed ==> p == page
    ensures outcome == Succeeded ==>
      p == page.(tasks := serverTasks, showNewTaskModal := false, selectedDate := None)
  {
    if outcome == Failed then page
    else page.(tasks := serverTasks, showNewTaskModal := false, selectedDate := None)
  }

  /** The new-task modal's `onClose`: the form closes and the clicked day is forgotten, nothing else changes. */
  function CloseNewTaskModal(page: Page): (p: Page)
    ensures !p.showNewTaskModal && p.selectedDate.None?
    ensures p.(showNewTaskModal := page.showNewTaskModal, selectedDate := page.selectedDate) == page
  {
    page.(showNewTaskModal := false, selectedDate := None)
  }

  /** A submit from the new-task modal: the body that is posted and the page once the POST has settled. */
  datatype Submission = Submission(body: TasksRoute.TaskBody, page: Page)

  /**
   * The modal calls `onSubmit` without awaiting it and then its `onClose`.
   * `handleCreateTask` builds its body from the page before its first
   * `await`, so the clicked day still counts; the close comes next, and the
   * POST settles on the closed page.
   */
  function SubmitNewTask(page: Page, data: TaskData, outcome: Outcome, serverTasks: seq<Task>): Submission
  {
    Submission(CreatePayload(page, data), AfterCreate(CloseNewTaskModal(page), outcome, serverTasks))
  }

  /**
   * The posted body still takes the clicked day, and whatever the POST
   * answers, the form is closed and the day forgotten once it settles; only
   * a success replaces the list.
   */
  lemma SubmitClosesForm(page: Page, data: TaskData, outcome: Outcome, serverTasks: seq<Task>)
    ensures SubmitNewTask(page, data, outcome, serverTasks).body == CreatePayload(page, data)
    ensures var s := SubmitNewTask(page, data, outcome, serverTasks);
      !s.page.showNewTaskModal && s.page.selectedDate.None? &&
      s.page.tasks == (if outcome == Succeeded then serverTasks else page.tasks) &&
      s.page.(tasks := page.tasks, showNewTaskModal := page.showNewTaskModal, selectedDate := page.selectedDate) == page
  {
    var closed := CloseNewTaskModal(page);
    assert AfterCreate(closed, outcome, serverTasks).selectedDate.None?;
  }
}
