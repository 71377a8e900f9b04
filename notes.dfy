/** The note record shared by the note-taking workshop's components. */
module Notes {

  /** A stored note; `id` is its `_id`. */
  datatype Note = Note(id: string, title: string, content: string)

  /** The `name` attributes of the two form inputs that call `saveToState`. */
  datatype InputName = Title | Content
}
