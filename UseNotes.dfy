/**
 * The note-list store of src/hooks/useNotes.ts: the active notes, the cached
 * number of incomplete notes, and the operations that replace the list.
 */
module UseNotes {
  import opened Wrappers
  import opened Lists
  import opened Text
  import opened Types

  predicate Incomplete(n: Note) {
    !n.completed
  }

  /** `notes.filter((note) => !note.completed).length`. */
  function CountIncomplete(notes: seq<Note>): nat {
    |Filter(notes, Incomplete)|
  }

  /** The record `addNote` builds (the id and the time are what `Date.now()` and `new Date()` return). */
  function NewNote(id: int, content: string, now: Timestamp): Note {
    Note(id, Trim(content), false, false, None, now, None)
  }

  /** The filter test of `deleteNote`: keep a note unless it carries `id`. */
  function HasOtherId(id: int): Note -> bool {
    (n: Note) => n.id != id
  }

  /** `notes.filter((note) => note.id !== id)`. */
  function WithoutId(notes: seq<Note>, id: int): (r: seq<Note>)
    ensures forall n :: n in r <==> n in notes && n.id != id
  {
    Filter(notes, HasOtherId(id))
  }

  /** The map step of `toggleNoteCompletion`. */
  function CompletionFlip(id: int): Note -> Note {
    (n: Note) => if n.id == id then n.(completed := !n.completed) else n
  }

  function ToggleCompletion(notes: seq<Note>, id: int): seq<Note> {
    Map(notes, CompletionFlip(id))
  }

  /** The map step of `toggleNotePriority`. */
  function PriorityFlip(id: int): Note -> Note {
    (n: Note) => if n.id == id then n.(priority := !n.priority) else n
  }

  function TogglePriority(notes: seq<Note>, id: int): seq<Note> {
    Map(notes, PriorityFlip(id))
  }

  /**
   * `reorderNotes`: take the note at `startIndex` out with `splice(startIndex, 1)`
   * and put it back with `splice(endIndex, 0, removed)`, both indices resolved
   * the way `splice` resolves them.
   */
  function Reorder(notes: seq<Note>, startIndex: int, endIndex: int): seq<Note>
    requires notes != [] && startIndex < |notes|
  {
    var i := RelativeIndex(startIndex, |notes|);
    var rest := RemoveAt(notes, i);
    InsertAt(rest, RelativeIndex(endIndex, |rest|), notes[i])
  }

  // ---------------------------------------------------------------------------
  // Properties of the list transforms

  /** A new note is blank exactly when its input was, is trimmed, and starts incomplete and unprioritised. */
  lemma NewNoteFields(id: int, content: string, now: Timestamp)
    ensures var n := NewNote(id, content, now);
      && n.id == id && n.createdAt == now && !n.completed && !n.priority
      && (n.content == [] <==> AllWhiteSpace(content))
      && (n.content != [] ==> !IsWhiteSpace(n.content[0]) && !IsWhiteSpace(n.content[|n.content| - 1]))
  {
    TrimEmptyIffBlank(content);
    TrimIsSlice(content);
  }

  /** Prepending a new note raises the incomplete count by exactly one. */
  lemma AddNoteCount(notes: seq<Note>, n: Note)
    requires !n.completed
    ensures CountIncomplete([n] + notes) == CountIncomplete(notes) + 1
  {
    FilterConcat([n], notes, Incomplete);
  }

  /** Deletion keeps every note with another id exactly as often as before and drops every note with `id`. */
  lemma DeleteNoteMultiplicity(notes: seq<Note>, id: int, n: Note)
    ensures multiset(WithoutId(notes, id))[n] == if n.id == id then 0 else multiset(notes)[n]
  {
    FilterMultiplicity(notes, HasOtherId(id), n);
  }

  /** Deletion keeps the relative order of the notes it keeps. */
  lemma DeleteNoteOrder(a: seq<Note>, b: seq<Note>, id: int)
    ensures WithoutId(a + b, id) == WithoutId(a, id) + WithoutId(b, id)
  {
    FilterConcat(a, b, HasOtherId(id));
  }

  /** Deletion changes the list exactly when some note carries `id`. */
  lemma DeleteNoteUnknownId(notes: seq<Note>, id: int)
    ensures WithoutId(notes, id) == notes <==> forall i :: 0 <= i < |notes| ==> notes[i].id != id
  {
    FilterIdentity(notes, HasOtherId(id));
  }

  /** Toggling completion keeps length and order, flips `completed` on the notes with `id`, and nothing else. */
  lemma ToggleCompletionFields(notes: seq<Note>, id: int)
    ensures |ToggleCompletion(notes, id)| == |notes|
    ensures forall i :: 0 <= i < |notes| ==>
      var m := ToggleCompletion(notes, id)[i];
      && m.completed == (notes[i].completed != (notes[i].id == id))
      && m.(completed := notes[i].completed) == notes[i]
  {
  }

  /** Toggling completion twice with the same id restores the list. */
  lemma ToggleCompletionInvolution(notes: seq<Note>, id: int)
    ensures ToggleCompletion(ToggleCompletion(notes, id), id) == notes
  {
    var r := ToggleCompletion(ToggleCompletion(notes, id), id);
    assert forall i :: 0 <= i < |notes| ==> r[i] == notes[i];
  }

  /** The number of notes with `id` whose `completed` flag is `done`. */
  function CountWithId(notes: seq<Note>, id: int, done: bool): nat {
    |Filter(notes, (n: Note) => n.id == id && n.completed == done)|
  }

  /**
   * Toggling completion turns the incomplete notes with `id` into complete
   * ones and back: the new count is the old one, less the incomplete notes
   * with `id`, plus the complete ones.
   */
  lemma {:induction false} ToggleCompletionCount(notes: seq<Note>, id: int)
    ensures CountIncomplete(ToggleCompletion(notes, id)) + CountWithId(notes, id, false)
         == CountIncomplete(notes) + CountWithId(notes, id, true)
  {
    if notes != [] {
      var t := ToggleCompletion(notes, id);
      assert t[1..] == ToggleCompletion(notes[1..], id);
      ToggleCompletionCount(notes[1..], id);
    }
  }

  /** Toggling priority keeps length and order, flips `priority` on the notes with `id`, and nothing else. */
  lemma TogglePriorityFields(notes: seq<Note>, id: int)
    ensures |TogglePriority(notes, id)| == |notes|
    ensures forall i :: 0 <= i < |notes| ==>
      var m := TogglePriority(notes, id)[i];
      && m.priority == (notes[i].priority != (notes[i].id == id))
      && m.(priority := notes[i].priority) == notes[i]
  {
  }

  /** Toggling priority changes no `completed` flag, so the incomplete count stays right without recomputing it. */
  lemma TogglePriorityKeepsCount(notes: seq<Note>, id: int)
    ensures CountIncomplete(TogglePriority(notes, id)) == CountIncomplete(notes)
  {
    FilterMapCount(notes, PriorityFlip(id), Incomplete);
  }

  /** Reordering is a permutation that moves the note at `startIndex` to `endIndex` and keeps the others in order. */
  lemma ReorderMoves(notes: seq<Note>, startIndex: int, endIndex: int)
    requires notes != [] && startIndex < |notes|
    ensures var r := Reorder(notes, startIndex, endIndex);
      var i, j := RelativeIndex(startIndex, |notes|), RelativeIndex(endIndex, |notes| - 1);
      && |r| == |notes| && multiset(r) == multiset(notes)
      && r[j] == notes[i]
      && RemoveAt(r, j) == RemoveAt(notes, i)
  {
    var i := RelativeIndex(startIndex, |notes|);
    var rest := RemoveAt(notes, i);
    RemoveInsert(rest, RelativeIndex(endIndex, |rest|), notes[i]);
  }

  /** A start index before the front resolves to 0, so such a drag moves the first note. */
  lemma BelowRangeMovesFirst(notes: seq<Note>, startIndex: int, endIndex: int)
    requires notes != [] && startIndex < -|notes|
    ensures Reorder(notes, startIndex, endIndex) == Reorder(notes, 0, endIndex)
  {
  }

  /** Moving a note back to where it came from undoes a reorder. */
  lemma ReorderInverse(notes: seq<Note>, i: nat, j: nat)
    requires i < |notes| && j < |notes|
    ensures Reorder(Reorder(notes, i, j), j, i) == notes
  {
    var rest := RemoveAt(notes, i);
    var moved := InsertAt(rest, j, notes[i]);
    assert Reorder(notes, i, j) == moved;
    RemoveInsert(rest, j, notes[i]);
    InsertRemove(notes, i);
  }

  /** Reordering keeps the incomplete count, so the store need not recompute it. */
  lemma ReorderKeepsCount(notes: seq<Note>, startIndex: int, endIndex: int)
    requires notes != [] && startIndex < |notes|
    ensures CountIncomplete(Reorder(notes, startIndex, endIndex)) == CountIncomplete(notes)
  {
    FilterPermutation(Reorder(notes, startIndex, endIndex), notes, Incomplete);
  }

  // ---------------------------------------------------------------------------
  // The store

  /** The state of the `useNotes` hook: the `notes` and `incompleteNotes` slots. */
  class NoteStore {
    var notes: seq<Note>
    var incompleteNotes: nat
    /** The list most recently handed to `saveNotes`, if any. */
    var lastSaved: Option<seq<Note>>

    /** The cached count agrees with the list. */
    ghost predicate Valid()
      reads this
    {
      incompleteNotes == CountIncomplete(notes)
    }

    /** `useState<Note[]>([])` and `useState<number>(0)`. */
    constructor ()
      ensures Valid()
      ensures notes == [] && incompleteNotes == 0 && lastSaved == None
    {
      notes := [];
      incompleteNotes := 0;
      lastSaved := None;
    }

    /** `saveNotes`: the storage write, recorded as the list written. */
    method SaveNotes(updated: seq<Note>)
      modifies this
      ensures lastSaved == Some(updated)
      ensures notes == old(notes) && incompleteNotes == old(incompleteNotes)
    {
      lastSaved := Some(updated);
    }

    /** `getNotes` once storage has answered: `result.notes || []`, then the count. */
    method Load(saved: Option<seq<Note>>)
      modifies this
      ensures Valid()
      ensures notes == saved.GetOr([])
      ensures lastSaved == old(lastSaved)
    {
      var savedNotes := saved.GetOr([]);
      notes := savedNotes;
      incompleteNotes := CountIncomplete(savedNotes);
    }

    /** `addNote`: the new note goes first, the old list follows unchanged. */
    method AddNote(content: string, id: int, now: Timestamp)
      modifies this
      ensures Valid()
      ensures notes == [NewNote(id, content, now)] + old(notes)
      ensures |notes| == |old(notes)| + 1 && notes[1..] == old(notes)
      ensures notes[0].content == Trim(content) && !notes[0].completed && !notes[0].priority
      ensures old(Valid()) ==> incompleteNotes == old(incompleteNotes) + 1
      ensures lastSaved == Some(notes)
    {
      var newNote := NewNote(id, content, now);
      var updatedNotes := [newNote] + notes;
      assert updatedNotes[1..] == notes;
      AddNoteCount(notes, newNote);
      notes := updatedNotes;
      incompleteNotes := CountIncomplete(updatedNotes);
      SaveNotes(updatedNotes);
    }

    /** `deleteNote`: every note with `id` is dropped, the rest keep their order. */
    method DeleteNote(id: int)
      modifies this
      ensures Valid()
      ensures notes == WithoutId(old(notes), id)
      ensures forall n :: n in notes <==> n in old(notes) && n.id != id
      ensures (forall i :: 0 <= i < |old(notes)| ==> old(notes)[i].id != id) ==> notes == old(notes)
      ensures lastSaved == Some(notes)
    {
      DeleteNoteUnknownId(notes, id);
      var updatedNotes := WithoutId(notes, id);
      notes := updatedNotes;
      incompleteNotes := CountIncomplete(updatedNotes);
      SaveNotes(updatedNotes);
    }

    /** `toggleNoteCompletion`: flip `completed` on every note with `id`. */
    method ToggleNoteCompletion(id: int)
      modifies this
      ensures Valid()
      ensures notes == ToggleCompletion(old(notes), id)
      ensures |notes| == |old(notes)|
      ensures forall i :: 0 <= i < |notes| ==>
        && notes[i].completed == (old(notes)[i].completed != (old(notes)[i].id == id))
        && notes[i].(completed := old(notes)[i].completed) == old(notes)[i]
      ensures lastSaved == Some(notes)
    {
      ToggleCompletionFields(notes, id);
      var updatedNotes := ToggleCompletion(notes, id);
      notes := updatedNotes;
      incompleteNotes := CountIncomplete(updatedNotes);
      SaveNotes(updatedNotes);
    }

    /** `toggleNotePriority`: flip `priority` on every note with `id`; the count is not recomputed. */
    method ToggleNotePriority(id: int)
      requires Valid()
      modifies this
      ensures Valid()
      ensures notes == TogglePriority(old(notes), id)
      ensures incompleteNotes == old(incompleteNotes)
      ensures |notes| == |old(notes)|
      ensures forall i :: 0 <= i < |notes| ==>
        && notes[i].priority == (old(notes)[i].priority != (old(notes)[i].id == id))
        && notes[i].(priority := old(notes)[i].priority) == old(notes)[i]
      ensures lastSaved == Some(notes)
    {
      TogglePriorityFields(notes, id);
      TogglePriorityKeepsCount(notes, id);
      var updatedNotes := TogglePriority(notes, id);
      notes := updatedNotes;
      SaveNotes(updatedNotes);
    }

    /** `clearAllNotes`. */
    method ClearAllNotes()
      modifies this
      ensures Valid()
      ensures notes == [] && incompleteNotes == 0
      ensures lastSaved == Some([])
    {
      notes := [];
      incompleteNotes := 0;
      SaveNotes([]);
    }

    /** `reorderNotes`: the two `splice` calls on a copy of the list; the count is not recomputed. */
    method ReorderNotes(startIndex: int, endIndex: int)
      requires Valid()
      requires notes != [] && startIndex < |notes|
      modifies this
      ensures Valid()
      ensures notes == Reorder(old(notes), startIndex, endIndex)
      ensures |notes| == |old(notes)| && multiset(notes) == multiset(old(notes))
      ensures notes[RelativeIndex(endIndex, |notes| - 1)] == old(notes)[RelativeIndex(startIndex, |notes|)]
      ensures incompleteNotes == old(incompleteNotes)
      ensures lastSaved == Some(notes)
    {
      ReorderMoves(notes, startIndex, endIndex);
      ReorderKeepsCount(notes, startIndex, endIndex);
      var i := RelativeIndex(startIndex, |notes|);
      var result := notes;
      var removed := result[i];
      result := RemoveAt(result, i);
      result := InsertAt(result, RelativeIndex(endIndex, |result|), removed);
      notes := result;
      SaveNotes(result);
    }
  }
}
