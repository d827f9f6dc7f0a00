/** The note record of src/types.ts. */
module Types {
  import opened Wrappers

  /** A point in time as the store keeps it: ISO-8601 text from `toISOString`, otherwise opaque. */
  type Timestamp = string

  /**
   * An active note. `pinned` and `updatedAt` are declared by the interface but
   * the store's `addNote` does not set them, so a key that is absent from the
   * record is `None` here.
   */
  datatype Note = Note(
    id: int,
    content: string,
    completed: bool,
    priority: bool,
    pinned: Option<bool>,
    createdAt: Timestamp,
    updatedAt: Option<Timestamp>
  )
}
