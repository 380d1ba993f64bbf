/**
 * The new-task form (both `TaskModal` variants share this logic): it resets
 * whenever it opens, validates the title on submit, falls back to the board
 * it was opened for, and edits its subtask and attachment lists.
 */
module TaskModal {
  import opened Wrappers
  import opened Dates
  import opened Types
  import opened Seqs
  import opened Strings

  /** The form's data when it opens for `boardId`, dated `initialDate` if one is given. */
  function BlankData(boardId: string, initialDate: Option<Date>): TaskData
  {
    TaskData("", "", Medium, initialDate, None, [], [], boardId)
  }

  /** The form's state: the task being typed, the pending subtask text and the upload error. */
  class TaskForm {
    var data: TaskData
    var newSubtask: string
    var uploadError: Option<string>

    constructor (boardId: string, initialDate: Option<Date>)
      ensures data.title == "" && data.description == "" && data.priority == Medium
      ensures data.dueDate == initialDate && data.recurring == None
      ensures data.subtasks == [] && data.attachments == [] && data.boardId == boardId
      ensures newSubtask == "" && uploadError == None
    {
      data := BlankData(boardId, initialDate);
      newSubtask := "";
      uploadError := None;
    }

    /** The effect on `[isOpen, initialDate, boardId]`: opening resets every field. */
    method OpenEffect(isOpen: bool, boardId: string, initialDate: Option<Date>)
      modifies this
      ensures isOpen ==> data.title == "" && data.description == "" && data.priority == Medium
      ensures isOpen ==> data.dueDate == initialDate && data.recurring == None
      ensures isOpen ==> data.subtasks == [] && data.attachments == [] && data.boardId == boardId
      ensures isOpen ==> newSubtask == "" && uploadError == None
      ensures !isOpen ==> data == old(data) && newSubtask == old(newSubtask) && uploadError == old(uploadError)
    {
      if isOpen {
        data := BlankData(boardId, initialDate);
        newSubtask := "";
        uploadError := None;
      }
    }

    /**
     * `handleSubmit`. An empty title stops here: nothing is submitted and the
     * form stays open. Otherwise an empty `boardId` is filled in place from
     * the `boardId` prop, the data is handed to `onSubmit` and the form closes.
     */
    method Submit(boardIdProp: string) returns (submitted: Option<TaskData>, closes: bool)
      modifies this
      ensures submitted.None? <==> old(data).title == ""
      ensures closes <==> submitted.Some?
      ensures submitted.Some? ==> submitted.value == data
      ensures old(data).title == "" ==> data == old(data)
      ensures old(data).title != "" ==>
        data == old(data).(boardId := if old(data).boardId == "" then boardIdProp else old(data).boardId)
      ensures newSubtask == old(newSubtask) && uploadError == old(uploadError)
    {
      if data.title == "" {
        return None, false;
      }
      if data.boardId == "" && boardIdProp != "" {
        data := data.(boardId := boardIdProp);
      }
      submitted, closes := Some(data), true;
    }

    /** Typing in the new-subtask box. */
    method SetNewSubtask(text: string)
      modifies this
      ensures newSubtask == text && data == old(data) && uploadError == old(uploadError)
    {
      newSubtask := text;
    }

    /**
     * `addSubtask`: a pending text that is not blank after trimming is
     * appended, untouched and not completed, and the box is cleared; a blank
     * one changes nothing.
     */
    method AddSubtask()
      modifies this
      ensures Trim(old(newSubtask)) != "" ==>
        data == old(data).(subtasks := old(data).subtasks + [SubtaskDraft(old(newSubtask), false)])
        && newSubtask == ""
      ensures Trim(old(newSubtask)) == "" ==> data == old(data) && newSubtask == old(newSubtask)
      ensures uploadError == old(uploadError)
    {
      if Trim(newSubtask) != "" {
        data := data.(subtasks := data.subtasks + [SubtaskDraft(newSubtask, false)]);
        newSubtask := "";
      }
    }

    /** `removeSubtask(index)`: only the subtask at `index` goes, the rest keep their order. */
    method RemoveSubtask(index: int)
      modifies this
      ensures data == old(data).(subtasks := RemoveIndex(old(data).subtasks, index))
      ensures 0 <= index < |old(data).subtasks| ==> |data.subtasks| == |old(data).subtasks| - 1
      ensures newSubtask == old(newSubtask) && uploadError == old(uploadError)
    {
      data := data.(subtasks := RemoveIndex(data.subtasks, index));
    }

    /** The title box of the subtask at `index`, which writes into that subtask in place. */
    method EditSubtaskTitle(index: nat, title: string)
      requires index < |data.subtasks|
      modifies this
      ensures data == old(data).(subtasks := old(data).subtasks[index := old(data).subtasks[index].(title := title)])
      ensures newSubtask == old(newSubtask) && uploadError == old(uploadError)
    {
      data := data.(subtasks := data.subtasks[index := data.subtasks[index].(title := title)]);
    }

    /** `handleFileChange`: the picked files go after the existing ones and the error clears. */
    method AddFiles(files: seq<FileRef>)
      modifies this
      ensures data == old(data).(attachments := old(data).attachments + files)
      ensures uploadError == None && newSubtask == old(newSubtask)
    {
      data := data.(attachments := data.attachments + files);
      uploadError := None;
    }

    /** `removeFile(index)`: only the file at `index` goes, the rest keep their order. */
    method RemoveFile(index: int)
      modifies this
      ensures data == old(data).(attachments := RemoveIndex(old(data).attachments, index))
      ensures 0 <= index < |old(data).attachments| ==> |data.attachments| == |old(data).attachments| - 1
      ensures newSubtask == old(newSubtask) && uploadError == old(uploadError)
    {
      data := data.(attachments := RemoveIndex(data.attachments, index));
    }
  }
}
