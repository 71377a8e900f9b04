/** The note-creation form of the note-taking workshop. */
module CreateNoteForm {
  import opened Notes

  /** The object handed to `saveNote`: the form state at submit time. */
  datatype NoteDraft = NoteDraft(title: string, content: string)

  class CreateNote {
    var title: string
    var content: string

    /** The form state as one value. */
    function Draft(): NoteDraft
      reads this
    {
      NoteDraft(title, content)
    }

    /** The form starts empty. */
    constructor ()
      ensures Draft() == NoteDraft("", "")
    {
      title, content := "", "";
    }

    /** `saveToState`: stores the typed value under the input's name and
        changes no other field, so the last edit of a field wins. */
    method SaveToState(name: InputName, value: string)
      modifies this
      ensures name == Title ==> Draft() == old(Draft()).(title := value)
      ensures name == Content ==> Draft() == old(Draft()).(content := value)
    {
      match name
      case Title => title := value;
      case Content => content := value;
    }

    /** `handleSubmit`: returns what it hands `saveNote` (the current title
        and content) and clears both fields. */
    method HandleSubmit() returns (saved: NoteDraft)
      modifies this
      ensures saved == old(Draft())
      ensures Draft() == NoteDraft("", "")
    {
      saved := Draft();
      title, content := "", "";
    }
  }
}
