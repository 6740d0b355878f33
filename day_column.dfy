/** The local state of one day column, `src/components/DayColumn.tsx`. */
module DayColumnView {
  import opened Wrappers
  import opened Week
  import opened Text

  /** `note?.content || ''`. */
  function ContentOrEmpty(note: Option<Note>): (r: string)
    ensures note.None? ==> r == ""
    ensures note.Some? ==> r == note.value.content
  {
    match note
    case None => ""
    case Some(n) => if n.content == "" then "" else n.content
  }

  class DayColumn {
    const day: Day
    /** The `note` prop. */
    var note: Option<Note>
    var newTaskText: string
    var noteContent: string
    /** The texts passed to `onAddTask`, in order. */
    var added: seq<string>
    /** The contents passed to `onUpdateNote`, in order. */
    var noteUpdates: seq<string>

    constructor(day: Day, note: Option<Note>)
      ensures this.day == day && this.note == note
      ensures newTaskText == "" && noteContent == ContentOrEmpty(note)
      ensures added == [] && noteUpdates == []
    {
      this.day := day;
      this.note := note;
      newTaskText := "";
      noteContent := ContentOrEmpty(note);
      added := [];
      noteUpdates := [];
    }

    /** The effect on `[note]`: the local content follows a new note prop. */
    method NotePropChanged(n: Option<Note>)
      modifies this`note, this`noteContent
      ensures note == n && noteContent == ContentOrEmpty(n)
    {
      note := n;
      noteContent := ContentOrEmpty(n);
    }

    /** `handleNoteChange`: the local content is the new value, and exactly that
        value is forwarded. */
    method HandleNoteChange(value: string)
      modifies this`noteContent, this`noteUpdates
      ensures noteContent == value && noteUpdates == old(noteUpdates) + [value]
    {
      noteContent := value;
      noteUpdates := noteUpdates + [value];
    }

    /** The new-task field's `onChange`. */
    method NewTaskChange(value: string)
      modifies this`newTaskText
      ensures newTaskText == value
    {
      newTaskText := value;
    }

    /** `handleAddTask`: a text that is not blank is passed on trimmed and the
        field is cleared; a blank one is left in the field and nothing is added. */
    method HandleAddTask()
      modifies this`added, this`newTaskText
      ensures Trim(old(newTaskText)) != "" ==> added == old(added) + [Trim(old(newTaskText))] && newTaskText == ""
      ensures Trim(old(newTaskText)) == "" ==> added == old(added) && newTaskText == old(newTaskText)
      ensures |added| > |old(added)| ==>
                var s := added[|added| - 1];
                s != [] && !IsJsWhitespace(s[0]) && !IsJsWhitespace(s[|s| - 1])
    {
      var trimmed := Trim(newTaskText);
      if trimmed != "" {
        added := added + [trimmed];
        newTaskText := "";
      }
    }
  }
}
