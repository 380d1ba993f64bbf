/**
 * The task card of the calendar and the boards: a draggable card with a
 * subtask progress bar and a small menu (edit title, delete).
 */
module DraggableTask {
  import opened Types
  import opened Seqs
  import opened Percent

  predicate IsDoneSubtask(t: Task)
  {
    t.status == Done
  }

  /** `completedSubtasks`: the subtasks whose status is DONE. */
  function CompletedSubtasks(task: Task): (n: nat)
    ensures n <= |task.subtasks|
    ensures n == |Filter(task.subtasks, IsDoneSubtask)|
  {
    CountBounds(task.subtasks, IsDoneSubtask);
    FilterLength(task.subtasks, IsDoneSubtask);
    Count(task.subtasks, IsDoneSubtask)
  }

  /** `subtaskProgress`: 0 without subtasks, otherwise the rounded completed percentage. */
  function SubtaskProgress(completed: nat, total: nat): (r: nat)
    requires completed <= total
    ensures r <= 100
    ensures total == 0 ==> r == 0
    ensures total > 0 ==> 2 * total * r <= 200 * completed + total < 2 * total * (r + 1)
  {
    if total > 0 then
      RoundedPercentBounds(completed, total);
      RoundedPercent(completed, total)
    else 0
  }

  /** What the card renders: nothing, or a draggable registered under the task's id. */
  datatype Card = NoCard | Card(draggableId: string, completed: nat, total: nat, percent: nat)

  function RenderCard(task: Task): (c: Card)
    ensures c.NoCard? <==> task.id == ""
    ensures c.Card? ==> c.draggableId == task.id && c.total == |task.subtasks|
    ensures c.Card? ==> c.completed == CompletedSubtasks(task) && c.completed <= c.total
    ensures c.Card? ==> c.percent == SubtaskProgress(c.completed, c.total)
    ensures c.Card? ==> c.percent <= 100 && (c.total == 0 ==> c.percent == 0)
    ensures c.Card? && c.total > 0 && c.completed == c.total ==> c.percent == 100
  {
    if task.id == "" then NoCard
    else
      var done, total := CompletedSubtasks(task), |task.subtasks|;
      if total > 0 && done == total then
        RoundedPercentAll(total);
        Card(task.id, done, total, SubtaskProgress(done, total))
      else Card(task.id, done, total, SubtaskProgress(done, total))
  }

  /** The card's own state: the menu, the delete in progress and the inline title editor. */
  class CardState {
    const taskId: string
    var showMenu: bool
    var isDeleting: bool
    var isEditing: bool
    var editTitle: string

    constructor (task: Task)
      ensures taskId == task.id && editTitle == task.title
      ensures !showMenu && !isDeleting && !isEditing
    {
      taskId := task.id;
      editTitle := task.title;
      showMenu, isDeleting, isEditing := false, false, false;
    }

    /** `toggleMenu`. */
    method ToggleMenu()
      modifies this
      ensures showMenu == !old(showMenu)
      ensures isDeleting == old(isDeleting) && isEditing == old(isEditing) && editTitle == old(editTitle)
    {
      showMenu := !showMenu;
    }

    /** The menu's Edit button: open the editor and close the menu. */
    method StartEdit()
      modifies this
      ensures isEditing && !showMenu
      ensures isDeleting == old(isDeleting) && editTitle == old(editTitle)
    {
      isEditing := true;
      showMenu := false;
    }

    /** Typing in the editor. */
    method SetEditTitle(title: string)
      modifies this
      ensures editTitle == title
      ensures showMenu == old(showMenu) && isDeleting == old(isDeleting) && isEditing == old(isEditing)
    {
      editTitle := title;
    }

    /** The editor's cancel button. */
    method CancelEdit()
      modifies this
      ensures !isEditing
      ensures showMenu == old(showMenu) && isDeleting == old(isDeleting) && editTitle == old(editTitle)
    {
      isEditing := false;
    }

    /**
     * `handleUpdate`: sends `{ title: editTitle }` for this card's task and
     * closes the editor only when the awaited `onUpdate` resolves; when it
     * rejects, the editor stays open with the edited title.
     */
    method SaveEdit(settled: Settled) returns (id: string, update: TaskUpdate)
      modifies this
      ensures id == taskId && update == TitleUpdate(old(editTitle))
      ensures isEditing == (old(isEditing) && settled == Rejected)
      ensures showMenu == old(showMenu) && isDeleting == old(isDeleting) && editTitle == old(editTitle)
    {
      id, update := taskId, TitleUpdate(editTitle);
      if settled == Resolved {
        isEditing := false;
      }
    }

    /** `handleDelete` up to the awaited call: marks the delete as running and names the task. */
    method BeginDelete() returns (id: string)
      modifies this
      ensures id == taskId && isDeleting
      ensures showMenu == old(showMenu) && isEditing == old(isEditing) && editTitle == old(editTitle)
    {
      isDeleting := true;
      id := taskId;
    }

    /** The `finally` of `handleDelete`: whatever the call did, the delete ends and the menu closes. */
    method FinishDelete()
      modifies this
      ensures !isDeleting && !showMenu
      ensures isEditing == old(isEditing) && editTitle == old(editTitle)
    {
      isDeleting := false;
      showMenu := false;
    }
  }
}
