/** The edit state of one task row, `src/components/TaskItem.tsx`. */
module TaskItemView {
  import opened Week
  import opened Text

  class TaskItem {
    /** The `task` prop. */
    var task: Task
    var isEditing: bool
    var editText: string
    /** The texts passed to `onUpdate`, in order. */
    var updates: seq<string>

    constructor(task: Task)
      ensures this.task == task && !isEditing && editText == task.text && updates == []
    {
      this.task := task;
      isEditing := false;
      editText := task.text;
      updates := [];
    }

    /** The edit button. */
    method StartEditing()
      modifies this`isEditing
      ensures isEditing
    {
      isEditing := true;
    }

    /** The edit field's `onChange`. */
    method EditChange(value: string)
      modifies this`editText
      ensures editText == value
    {
      editText := value;
    }

    /** A new `task` prop: the edit text is state seeded once and keeps its value. */
    method TaskPropChanged(t: Task)
      modifies this`task
      ensures task == t
    {
      task := t;
    }

    /** `handleUpdate`: a text that is not blank is passed on trimmed and editing
        ends; a blank one changes nothing. The edit text itself stays untrimmed. */
    method HandleUpdate()
      modifies this`updates, this`isEditing
      ensures Trim(editText) != "" ==> updates == old(updates) + [Trim(editText)] && !isEditing
      ensures Trim(editText) == "" ==> updates == old(updates) && isEditing == old(isEditing)
      ensures |updates| > |old(updates)| ==>
                var s := updates[|updates| - 1];
                s != [] && !IsJsWhitespace(s[0]) && !IsJsWhitespace(s[|s| - 1])
    {
      var trimmed := Trim(editText);
      if trimmed != "" {
        updates := updates + [trimmed];
        isEditing := false;
      }
    }

    /** `handleCancel`: the edit text goes back to the task's text and editing ends. */
    method HandleCancel()
      modifies this`editText, this`isEditing
      ensures editText == task.text && !isEditing
    {
      editText := task.text;
      isEditing := false;
    }

    /** `handleKeyDown`: Enter saves, Escape cancels, every other key does nothing. */
    method HandleKeyDown(key: string)
      modifies this`updates, this`isEditing, this`editText
      ensures key == "Enter" ==>
                editText == old(editText) &&
                (Trim(old(editText)) != "" ==> updates == old(updates) + [Trim(old(editText))] && !isEditing) &&
                (Trim(old(editText)) == "" ==> updates == old(updates) && isEditing == old(isEditing))
      ensures key == "Escape" ==> editText == task.text && !isEditing && updates == old(updates)
      ensures key != "Enter" && key != "Escape" ==>
                editText == old(editText) && isEditing == old(isEditing) && updates == old(updates)
    {
      if key == "Enter" {
        HandleUpdate();
      } else if key == "Escape" {
        HandleCancel();
      }
    }
  }
}
