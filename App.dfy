/**
 * The earlier revision of the store, kept in the component state of
 * src/App.tsx: its own smaller note record, an input box, and save, delete
 * and toggle-completion handlers.
 */
module App {
  import opened Wrappers
  import opened Lists
  import opened Text

  /** The record of this revision (src/App.tsx:5-10); `createdAt` is ISO-8601 text. */
  datatype Note = Note(id: int, content: string, createdAt: string, completed: bool)

  predicate Incomplete(n: Note) {
    !n.completed
  }

  /** `notes.filter((note) => !note.completed).length`. */
  function CountIncomplete(notes: seq<Note>): nat {
    |Filter(notes, Incomplete)|
  }

  /** The `!noteInput.trim()` guard of `saveNote`. */
  predicate IsBlank(input: string) {
    Trim(input) == []
  }

  /** The filter test of `deleteNote`. */
  function HasOtherId(id: int): Note -> bool {
    (n: Note) => n.id != id
  }

  function WithoutId(notes: seq<Note>, id: int): (r: seq<Note>)
    ensures forall n :: n in r <==> n in notes && n.id != id
  {
    Filter(notes, HasOtherId(id))
  }

  /** The map step of `toggleNoteCompletion`. */
  function CompletionFlip(id: int): Note -> Note {
    (n: Note) => if n.id == id then n.(completed := !n.completed) else n
  }

  function ToggleCompletion(notes: seq<Note>, id: int): seq<Note> {
    Map(notes, CompletionFlip(id))
  }

  // ---------------------------------------------------------------------------
  // Properties of the list transforms

  /** Appending a new incomplete note raises the incomplete count by exactly one. */
  lemma SaveNoteCount(notes: seq<Note>, n: Note)
    requires !n.completed
    ensures CountIncomplete(notes + [n]) == CountIncomplete(notes) + 1
  {
    FilterConcat(notes, [n], Incomplete);
  }

  /** Deletion keeps every note with another id exactly as often as before and drops every note with `id`. */
  lemma DeleteNoteKeepsOthers(notes: seq<Note>, id: int, n: Note)
    ensures multiset(WithoutId(notes, id))[n] == if n.id == id then 0 else multiset(notes)[n]
    ensures WithoutId(notes, id) == notes <==> forall i :: 0 <= i < |notes| ==> notes[i].id != id
  {
    FilterMultiplicity(notes, HasOtherId(id), n);
    FilterIdentity(notes, HasOtherId(id));
  }

  /** Deletion keeps the relative order of the notes it keeps. */
  lemma DeleteNoteOrder(a: seq<Note>, b: seq<Note>, id: int)
    ensures WithoutId(a + b, id) == WithoutId(a, id) + WithoutId(b, id)
  {
    FilterConcat(a, b, HasOtherId(id));
  }

  /** Toggling completion keeps length and order and flips `completed` on the notes with `id` only. */
  lemma ToggleCompletionFields(notes: seq<Note>, id: int)
    ensures |ToggleCompletion(notes, id)| == |notes|
    ensures forall i :: 0 <= i < |notes| ==>
      var m := ToggleCompletion(notes, id)[i];
      && m.completed == (notes[i].completed != (notes[i].id == id))
      && m.(completed := notes[i].completed) == notes[i]
  {
  }

  /** With no note carrying `id`, toggling changes nothing. */
  lemma {:induction false} ToggleUnknownId(notes: seq<Note>, id: int)
    requires forall i :: 0 <= i < |notes| ==> notes[i].id != id
    ensures ToggleCompletion(notes, id) == notes
  {
    var t := ToggleCompletion(notes, id);
    assert forall i :: 0 <= i < |notes| ==> t[i] == notes[i];
  }

  // ---------------------------------------------------------------------------
  // The component state

  /** The state slots of the `App` component that the note handlers touch. */
  class AppState {
    var notes: seq<Note>
    var noteInput: string
    var incompleteNotes: nat
    var isAddingNote: bool
    /** The list most recently handed to `saveNotes`, if any. */
    var lastSaved: Option<seq<Note>>

    /** The cached count agrees with the list. */
    ghost predicate Valid()
      reads this
    {
      incompleteNotes == CountIncomplete(notes)
    }

    /** The initial `useState` values. */
    constructor ()
      ensures Valid()
      ensures notes == [] && noteInput == [] && incompleteNotes == 0 && !isAddingNote && lastSaved == None
    {
      notes := [];
      noteInput := [];
      incompleteNotes := 0;
      isAddingNote := false;
      lastSaved := None;
    }

    /** `saveNotes`: the storage write, recorded as the list written. */
    method SaveNotes(updated: seq<Note>)
      modifies this
      ensures lastSaved == Some(updated)
      ensures notes == old(notes) && noteInput == old(noteInput)
      ensures incompleteNotes == old(incompleteNotes) && isAddingNote == old(isAddingNote)
    {
      lastSaved := Some(updated);
    }

    /** `getNotes` once storage has answered: `result.notes || []`, then the count. */
    method Load(saved: Option<seq<Note>>)
      modifies this
      ensures Valid()
      ensures notes == saved.GetOr([])
      ensures noteInput == old(noteInput) && isAddingNote == old(isAddingNote) && lastSaved == old(lastSaved)
    {
      var savedNotes := saved.GetOr([]);
      notes := savedNotes;
      incompleteNotes := CountIncomplete(savedNotes);
    }

    /** The "Add Note" / "Cancel" button. */
    method ToggleAddingNote()
      modifies this
      ensures isAddingNote == !old(isAddingNote)
      ensures notes == old(notes) && noteInput == old(noteInput)
      ensures incompleteNotes == old(incompleteNotes) && lastSaved == old(lastSaved)
    {
      isAddingNote := !isAddingNote;
    }

    /** The text area's `onChange`. */
    method SetNoteInput(text: string)
      modifies this
      ensures noteInput == text
      ensures notes == old(notes) && isAddingNote == old(isAddingNote)
      ensures incompleteNotes == old(incompleteNotes) && lastSaved == old(lastSaved)
    {
      noteInput := text;
    }

    /**
     * `saveNote`: a blank input changes nothing; otherwise the trimmed input is
     * appended as a new incomplete note, the input is cleared and the editor closed.
     */
    method SaveNote(id: int, now: string)
      modifies this
      ensures old(IsBlank(noteInput)) ==>
        && notes == old(notes) && incompleteNotes == old(incompleteNotes)
        && noteInput == old(noteInput) && isAddingNote == old(isAddingNote) && lastSaved == old(lastSaved)
      ensures !old(IsBlank(noteInput)) ==>
        && Valid()
        && notes == old(notes) + [Note(id, Trim(old(noteInput)), now, false)]
        && (old(Valid()) ==> incompleteNotes == old(incompleteNotes) + 1)
        && noteInput == [] && !isAddingNote && lastSaved == Some(notes)
      ensures old(Valid()) ==> Valid()
    {
      if IsBlank(noteInput) {
        return;
      }
      var newNote := Note(id, Trim(noteInput), now, false);
      var updatedNotes := notes + [newNote];
      SaveNoteCount(notes, newNote);
      notes := updatedNotes;
      incompleteNotes := CountIncomplete(updatedNotes);
      SaveNotes(updatedNotes);
      noteInput := [];
      isAddingNote := false;
    }

    /** `deleteNote`: every note with `id` is dropped, the rest keep their order. */
    method DeleteNote(id: int)
      modifies this
      ensures Valid()
      ensures notes == WithoutId(old(notes), id)
      ensures forall n :: n in notes <==> n in old(notes) && n.id != id
      ensures noteInput == old(noteInput) && isAddingNote == old(isAddingNote) && lastSaved == Some(notes)
    {
      var updatedNotes := WithoutId(notes, id);
      notes := updatedNotes;
      incompleteNotes := CountIncomplete(updatedNotes);
      SaveNotes(updatedNotes);
    }

    /** `toggleNoteCompletion`: flip `completed` on every note with `id`. */
    method ToggleNoteCompletion(id: int)
      modifies this
      ensures Valid()
      ensures notes == ToggleCompletion(old(notes), id)
      ensures |notes| == |old(notes)|
      ensures forall i :: 0 <= i < |notes| ==>
        && notes[i].completed == (old(notes)[i].completed != (old(notes)[i].id == id))
        && notes[i].(completed := old(notes)[i].completed) == old(notes)[i]
      ensures noteInput == old(noteInput) && isAddingNote == old(isAddingNote) && lastSaved == Some(notes)
    {
      ToggleCompletionFields(notes, id);
      var updatedNotes := ToggleCompletion(notes, id);
      notes := updatedNotes;
      incompleteNotes := CountIncomplete(updatedNotes);
      SaveNotes(updatedNotes);
    }
  }
}
