# Flash Notes: the note-list store

Flash Notes is a browser-extension popup for short notes. Its core is the
note-list store: an in-memory list of notes and a cached count of the notes
that are not yet completed, with operations that add a note, delete the notes
with an id, toggle completion or priority on the notes with an id, clear the
list and move one note to another position. Each operation builds a new list
with `filter`, `map`, spread or `splice`, stores it, and recomputes the count
(or, for priority and reorder, leaves it as it was).

Two revisions of the store are modelled:

- `UseNotes` (src/hooks/useNotes.ts), the later `useNotes` hook. Its note
  record is `Types.Note` (src/types.ts). `addNote` puts the new note first.
  The hook also toggles priority, clears the list and reorders notes.
- `App` (src/App.tsx), the earlier component. It has its own smaller note
  record. `saveNote` ignores blank input and puts the new note last. It also
  deletes notes and toggles completion.

Each revision is a class whose fields are the component's state slots. Its
methods replace those fields the way the setters do. `Valid()` says that the
cached `incompleteNotes` equals the number of notes with `completed == false`.
Every method that recomputes the count establishes `Valid()`. The priority
toggle and reorder do not recompute it; they preserve `Valid()`, and lemmas
prove that their list transforms leave the count unchanged. The list
transforms are functions, built from shared helpers:

- `Lists`: the array operations `filter`, `map` and one-element `splice`.
- `Text`: ECMAScript `trim`.

The records are datatypes. `Types.Note` (src/types.ts:1-9) has `id`, `content`, `completed`, `priority`, `pinned`, `createdAt` and `updatedAt`. `addNote` never sets `pinned` or `updatedAt`, so those two are optional. `App.Note` (src/App.tsx:5-10) has `id`, `content`, `createdAt` and `completed`.

Ids are not assumed unique. Deletion drops every note with the id, and a
toggle flips every note with the id.

The clock and the storage are outside the model:

- The id (from `Date.now()`) and the creation time (from `new Date()`) are
  method parameters.
- The storage write is recorded as the last list handed to `saveNotes`.
- What a storage read returned is the parameter of `Load`.

The hook's `addNote` does not guard against blank input: it trims the text
and adds the note even when nothing is left. `UseNotes.NoteStore.AddNote`
does the same, and `UseNotes.NewNoteFields` states when the content comes out
empty. Only the earlier `App.AppState.SaveNote` ignores blank input.

## Model

| member | source | states |
|---|---|---|
| `Lists.Filter` | src/hooks/useNotes.ts:64 | the result is no longer than the input; an element is in it exactly when it is in the input and passes the test |
| `Lists.Map` | src/hooks/useNotes.ts:71-73 | the result has the same length, and each position holds the function applied to the element at that position |
| `Lists.FilterConcat` | src/hooks/useNotes.ts:57-59 | filtering distributes over concatenation, so relative order is kept |
| `Lists.FilterMultiplicity` | src/hooks/useNotes.ts:64 | a kept value occurs in the result as often as in the input, a rejected value never occurs |
| `Lists.FilterIdentity` | src/hooks/useNotes.ts:64 | filtering returns the input unchanged exactly when every element passes |
| `Lists.FilterIdempotent` | src/hooks/useNotes.ts:64 | filtering twice with the same test gives the same list as filtering once |
| `Lists.FilterPermutation` | src/hooks/useNotes.ts:98 | permuted inputs give permuted results of equal length |
| `Lists.FilterMapCount` | src/hooks/useNotes.ts:80-83 | a map that never changes the test's verdict keeps the number of elements that pass |
| `Lists.RelativeIndex` | src/hooks/useNotes.ts:95-96 | how `splice` resolves an index: the result never exceeds the length; an index from −length up to length − 1 resolves to a valid position congruent to it modulo the length, so a negative one counts from the end; larger indices clamp to the length, smaller ones to 0 |
| `Lists.RemoveAt` | src/hooks/useNotes.ts:95 | one shorter; elements before the index stay, later ones move down one; the multiset loses exactly the removed element |
| `Lists.InsertAt` | src/hooks/useNotes.ts:96 | one longer, with the value at the index; earlier elements stay, later ones move up one; the multiset gains exactly that value |
| `Lists.RemoveInsert` | src/hooks/useNotes.ts:95-96 | removing the element just inserted restores the list |
| `Lists.InsertRemove` | src/hooks/useNotes.ts:95-96 | putting the removed element back where it was restores the list |
| `Text.IsWhiteSpace` | src/App.tsx:63 | definition: the code points ECMAScript's `trim` removes (WhiteSpace and LineTerminator) |
| `Text.TrimStart` | src/hooks/useNotes.ts:52 | definition by recursion; `Text.TrimStartSpec` states what it returns |
| `Text.TrimEnd` | src/hooks/useNotes.ts:52 | definition by recursion; `Text.TrimEndSpec` states what it returns |
| `Text.Trim` | src/hooks/useNotes.ts:52 | definition as both trims in turn; `Text.TrimIsSlice`, `Text.TrimEmptyIffBlank` and `Text.TrimIdempotent` state its properties |
| `Text.TrimStartSpec` | src/hooks/useNotes.ts:52 | what the leading trim drops is white space; what it keeps is a suffix of the input that does not start with white space |
| `Text.TrimEndSpec` | src/hooks/useNotes.ts:52 | what the trailing trim drops is white space; what it keeps is a prefix of its input that does not end with white space |
| `Text.TrimEmptyIffBlank` | src/App.tsx:63 | `trim` gives the empty string exactly when every character is ECMAScript white space or a line terminator |
| `Text.TrimIsSlice` | src/hooks/useNotes.ts:52 | the trimmed text is a slice of the input with only white space on either side, and it neither starts nor ends with white space |
| `Text.TrimIdempotent` | src/hooks/useNotes.ts:52 | trimming trimmed text changes nothing |
| `UseNotes.CountIncomplete` | src/hooks/useNotes.ts:59 | definition: the number of notes with `completed == false`; the count lemmas below and `NoteStore.Valid` use it |
| `UseNotes.NewNote` | src/hooks/useNotes.ts:50-56 | definition of the record `addNote` builds; `UseNotes.NewNoteFields` states its fields |
| `UseNotes.ToggleCompletion` | src/hooks/useNotes.ts:71-73 | definition as a map with `UseNotes.CompletionFlip`; `UseNotes.ToggleCompletionFields` states the result |
| `UseNotes.CompletionFlip` | src/hooks/useNotes.ts:72 | definition of the map callback: flip `completed` when the id matches |
| `UseNotes.TogglePriority` | src/hooks/useNotes.ts:80-82 | definition as a map with `UseNotes.PriorityFlip`; `UseNotes.TogglePriorityFields` states the result |
| `UseNotes.PriorityFlip` | src/hooks/useNotes.ts:81 | definition of the map callback: flip `priority` when the id matches |
| `UseNotes.Reorder` | src/hooks/useNotes.ts:94-96 | definition as the two `splice` steps, for a non-empty list and a start index below its length; `UseNotes.ReorderMoves` states the result |
| `UseNotes.NewNoteFields` | src/hooks/useNotes.ts:50-56 | the new note has the given id and time; `completed` and `priority` are false; its content is empty exactly when the input is blank, and otherwise neither starts nor ends with white space |
| `UseNotes.AddNoteCount` | src/hooks/useNotes.ts:57-59 | putting an incomplete note in front raises the incomplete count by one |
| `UseNotes.WithoutId` | src/hooks/useNotes.ts:64 | a note is in the result exactly when it was in the list and has a different id |
| `UseNotes.DeleteNoteMultiplicity` | src/hooks/useNotes.ts:64 | every note with a different id is kept as often as it occurred; no note with the id remains |
| `UseNotes.DeleteNoteOrder` | src/hooks/useNotes.ts:64 | deletion distributes over concatenation, so kept notes keep their relative order |
| `UseNotes.DeleteNoteUnknownId` | src/hooks/useNotes.ts:63-68 | deletion leaves the list unchanged exactly when no note has the id |
| `UseNotes.ToggleCompletionFields` | src/hooks/useNotes.ts:71-73 | same length and order; `completed` flips exactly on the notes with the id; every other field of every note is unchanged |
| `UseNotes.ToggleCompletionInvolution` | src/hooks/useNotes.ts:71-73 | toggling completion twice with the same id restores the list |
| `UseNotes.ToggleCompletionCount` | src/hooks/useNotes.ts:71-75 | new incomplete count = old count − incomplete notes with the id + completed notes with the id |
| `UseNotes.TogglePriorityFields` | src/hooks/useNotes.ts:80-82 | same length and order; `priority` flips exactly on the notes with the id; every other field of every note is unchanged |
| `UseNotes.TogglePriorityKeepsCount` | src/hooks/useNotes.ts:79-85 | toggling priority leaves the incomplete count as it was, so not recomputing it is correct |
| `UseNotes.ReorderMoves` | src/hooks/useNotes.ts:94-96 | same length and multiset; the note from the start index lands at the end index; removing it from both lists leaves the same list, so the other notes keep their order |
| `UseNotes.BelowRangeMovesFirst` | src/hooks/useNotes.ts:95 | a start index before the front resolves to 0, so the first note is moved |
| `UseNotes.ReorderInverse` | src/hooks/useNotes.ts:93-100 | moving the note back from the end index to the start index restores the list |
| `UseNotes.ReorderKeepsCount` | src/hooks/useNotes.ts:93-100 | reordering leaves the incomplete count as it was, so not recomputing it is correct |
| `UseNotes.NoteStore.constructor` | src/hooks/useNotes.ts:5-6 | empty list, count 0, the invariant holds |
| `UseNotes.NoteStore.SaveNotes` | src/hooks/useNotes.ts:37-47 | records the list written; the list and count are untouched |
| `UseNotes.NoteStore.Load` | src/hooks/useNotes.ts:17-35 | the list becomes the stored list, or empty when nothing is stored; the count is recomputed |
| `UseNotes.NoteStore.AddNote` | src/hooks/useNotes.ts:49-61 | the new note first, then the old list unchanged; trimmed content, not completed, no priority; the count rises by one; the new list is saved |
| `UseNotes.NoteStore.DeleteNote` | src/hooks/useNotes.ts:63-68 | the list becomes the notes with other ids; an unknown id changes nothing; the count is recomputed; the list is saved |
| `UseNotes.NoteStore.ToggleNoteCompletion` | src/hooks/useNotes.ts:70-77 | `completed` flips on the notes with the id and nothing else changes; the count is recomputed; the list is saved |
| `UseNotes.NoteStore.ToggleNotePriority` | src/hooks/useNotes.ts:79-85 | `priority` flips on the notes with the id and nothing else changes; the count stays the same and stays valid; the list is saved |
| `UseNotes.NoteStore.ClearAllNotes` | src/hooks/useNotes.ts:87-91 | empty list, count 0, the empty list is saved |
| `UseNotes.NoteStore.ReorderNotes` | src/hooks/useNotes.ts:93-100 | the two `splice` steps; the result is a permutation with the moved note at the end index; the count stays the same and stays valid; the list is saved |
| `App.CountIncomplete` | src/App.tsx:74 | definition: the number of notes with `completed == false`; `AppState.Valid` uses it |
| `App.IsBlank` | src/App.tsx:63 | definition of the `!noteInput.trim()` guard; `Text.TrimEmptyIffBlank` states that it holds exactly for input made only of white space, the empty input included |
| `App.ToggleCompletion` | src/App.tsx:91-93 | definition as a map with `App.CompletionFlip`; `App.ToggleCompletionFields` states the result |
| `App.SaveNoteCount` | src/App.tsx:72-74 | appending an incomplete note raises the incomplete count by one |
| `App.WithoutId` | src/App.tsx:83 | a note is in the result exactly when it was in the list and has a different id |
| `App.DeleteNoteKeepsOthers` | src/App.tsx:82-87 | every note with a different id is kept as often as it occurred, and no note with the id remains; the list is unchanged exactly when no note has the id |
| `App.DeleteNoteOrder` | src/App.tsx:83 | deletion distributes over concatenation, so kept notes keep their relative order |
| `App.ToggleCompletionFields` | src/App.tsx:91-93 | same length and order; `completed` flips exactly on the notes with the id; every other field is unchanged |
| `App.ToggleUnknownId` | src/App.tsx:90-97 | with no note carrying the id, toggling leaves the list unchanged |
| `App.AppState.constructor` | src/App.tsx:13-17 | empty list and input, count 0, editor closed, the invariant holds |
| `App.AppState.SaveNotes` | src/App.tsx:44-54 | records the list written; nothing else changes |
| `App.AppState.Load` | src/App.tsx:25-41 | the list becomes the stored list, or empty when nothing is stored; the count is recomputed |
| `App.AppState.ToggleAddingNote` | src/App.tsx:106 | opens or closes the editor; nothing else changes |
| `App.AppState.SetNoteInput` | src/App.tsx:116 | the input becomes the typed text; nothing else changes |
| `App.AppState.SaveNote` | src/App.tsx:62-79 | blank input: nothing changes; otherwise the trimmed input goes last as an incomplete note, earlier notes are unchanged, the count rises by one, the list is saved, the input is cleared and the editor closed |
| `App.AppState.DeleteNote` | src/App.tsx:82-87 | the list becomes the notes with other ids; the count is recomputed; the list is saved |
| `App.AppState.ToggleNoteCompletion` | src/App.tsx:90-97 | `completed` flips on the notes with the id and nothing else changes; the count is recomputed; the list is saved |

## Left out

- Storage (`chrome.storage.local` and `localStorage`), its JSON encoding, and `isChromeApiAvailable`. These are foreign calls. A write is recorded as `lastSaved`, and what a read returned is the parameter of `Load`.
- The `error` slot and its "Error loading notes" / "Error saving notes" messages. These come from the storage callbacks (`runtime.lastError`).
- Load: when the extension storage reports an error, `getNotes` leaves the list unchanged. No `Load` call models that path; leaving the list unchanged is the same as not calling `Load`.
- `Date.now()` and `new Date().toISOString()`. These are clock reads, so the id and the time are parameters, and timestamps are opaque text.
- `reorderNotes` on an empty list, or with a start index of `|notes|` or more. There `splice` removes nothing and inserts `undefined`, which a list of notes cannot hold. `ReorderNotes` requires a non-empty list and a start index below its length. Every smaller start index is modelled, negative ones included; one before the front moves the first note. The end index is modelled for every integer.
- `Types.Note.priority` is a plain boolean. Records saved by the App.tsx revision under the same storage key have no `priority` key. The model reads such a record as `priority == false`. This agrees with the source: `!undefined` is `true`, so the first toggle sets the flag, and the count never reads it.
- Fractional indices (a JavaScript number that is not an integer) and ids beyond integers. Drag-and-drop indices and `Date.now()` are integers.
- Restore, permanent delete, edit, pin and the one-hour expiry sweep of deleted notes. No modelled source file implements them. `DeletedNote` in src/types.ts is therefore not modelled.
- Date formatting (src/utils/dateUtils.ts), the badge update (public/background.js), and the UI components. These are presentation code with no store logic.
