/**
 * The entities the client works with, after `app/types.ts`: a task with its
 * subtasks and attachments, the partial update the client sends, and the
 * outcome of a network call.
 */
module Types {
  import opened Wrappers
  import opened Dates

  datatype Priority = Low | Medium | High

  datatype Status = Todo | InProgress | Review | Done

  datatype Recurrence = Daily | Weekly | Monthly | Yearly

  /** The wire spelling of a priority, as the filter chips and the API use it. */
  function PriorityName(p: Priority): string
  {
    match p
    case Low => "LOW"
    case Medium => "MEDIUM"
    case High => "HIGH"
  }

  /** The wire spelling of a status. */
  function StatusName(s: Status): string
  {
    match s
    case Todo => "TODO"
    case InProgress => "IN_PROGRESS"
    case Review => "REVIEW"
    case Done => "DONE"
  }

  datatype Attachment = Attachment(id: string, name: string, url: string, kind: string, taskId: string, createdAt: string)

  /**
   * A task as the client holds it. A missing `id` is represented by the empty
   * string and a missing `subtasks` list by the empty list: the client treats
   * each pair alike. The due date keeps only its calendar day.
   */
  datatype Task = Task(
    id: string,
    title: string,
    description: string,
    priority: Priority,
    dueDate: Option<Date>,
    recurring: Option<Recurrence>,
    status: Status,
    progress: int,
    subtasks: seq<Task>,
    attachments: seq<Attachment>)

  /** `Partial<Task>`: each present field replaces the task's own. */
  datatype TaskUpdate = TaskUpdate(
    title: Option<string>,
    description: Option<string>,
    priority: Option<Priority>,
    dueDate: Option<Option<Date>>,
    recurring: Option<Option<Recurrence>>,
    status: Option<Status>,
    progress: Option<int>,
    subtasks: Option<seq<Task>>,
    attachments: Option<seq<Attachment>>)

  /** The update `{ title }`. */
  function TitleUpdate(title: string): TaskUpdate
  {
    TaskUpdate(Some(title), None, None, None, None, None, None, None, None)
  }

  /** The update `{ dueDate }`. */
  function DueDateUpdate(date: Date): TaskUpdate
  {
    TaskUpdate(None, None, None, Some(Some(date)), None, None, None, None, None)
  }

  /** A subtask typed into the new-task form. */
  datatype SubtaskDraft = SubtaskDraft(title: string, completed: bool)

  /** A file picked in the browser; its contents play no part here. */
  datatype FileRef = FileRef(name: string)

  /** `TaskData`: what the new-task form collects and hands to its `onSubmit`. */
  datatype TaskData = TaskData(
    title: string,
    description: string,
    priority: Priority,
    dueDate: Option<Date>,
    recurring: Option<Recurrence>,
    subtasks: seq<SubtaskDraft>,
    attachments: seq<FileRef>,
    boardId: string)

  /** A board's task as the board list carries it: only `id` and `status`. */
  datatype TaskSummary = TaskSummary(id: string, status: Status)

  /** Whether a `fetch` ended with an ok response or not (a non-ok status and a thrown error alike). */
  datatype Outcome = Succeeded | Failed

  /**
   * How an awaited callback's promise ended: it resolved, or it rejected
   * (threw). A callback that catches its own errors always resolves,
   * whatever its `fetch` answered.
   */
  datatype Settled = Resolved | Rejected
}
