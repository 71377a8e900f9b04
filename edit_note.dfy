/** The note-editing form of the note-taking workshop. */
module EditNoteForm {
  import opened Notes

  class EditNote {
    var title: string
    var content: string
    /** The `_id` state field; no handler writes it. */
    const id: string

    /** The form state as a note. */
    function Current(): Note
      reads this
    {
      Note(id, title, content)
    }

    /** The state starts as a copy of the `note` prop. */
    constructor (note: Note)
      ensures Current() == note
    {
      title, content, id := note.title, note.content, note.id;
    }

    /** `saveToState`: stores the typed value under the input's name; only
        title and content can be named, so `_id` never changes. */
    method SaveToState(name: InputName, value: string)
      modifies this
      ensures name == Title ==> Current() == old(Current()).(title := value)
      ensures name == Content ==> Current() == old(Current()).(content := value)
    {
      match name
      case Title => title := value;
      case Content => content := value;
    }

    /** `handleSubmit`: what it hands `updateNote` — the current fields with
        the original `_id`. */
    method HandleSubmit() returns (updated: Note)
      ensures updated == Current()
    {
      updated := Current();
    }
  }
}
