# Sticky notes: client-side state, modelled in Dafny

This project models the client-side state logic of a browser sticky-notes app
whose notes live in a realtime document store. Three parts of `src/App.js` are
covered:

- **Snapshot reconciliation.** An unordered snapshot of note documents becomes
  the display list. The notes are sorted by `createdAt` (a missing timestamp
  counts as 0). Each note gets the dense rank `originalZIndex = position + 1`.
  Missing `x`/`y` are filled from a 10-column grid. The focused note is raised
  to `count + 100`. When nothing is focused, the newest note gets the focus.
- **Focus and z-order bookkeeping.** `handleFocusNote` raises one note and puts
  every other note back to its `originalZIndex`. Deleting the focused note
  re-picks the focus. New notes are placed on their own grid.
- **The undo ledger.** `addHistory` keeps at most 10 entries, newest first.
  `handleUndo` pops the head, commits its reversal as one batch, and puts the
  entry back when the batch fails. `handleDragStop` moves a note optimistically
  and rolls the move back when the write fails.

Layout, one module per concern:

- `palette.dfy` (`Palette`): the three appearance palettes as enumerations.
- `notes.dfy` (`Notes`): the note record and the list operations the handlers
  use (`find`, `filter`, replace-by-id, the optimistic move).
- `seqs.dfy` (`Seqs`): mapping over sequences and distinctness, moved across
  permutations. These are proof helpers.
- `sorting.dfy` (`Sorting`): the stable `Array.prototype.sort` as an insertion
  sort by an integer key. It is proved to be a permutation, sorted, and stable.
- `reconcile.dfy` (`Reconcile`): the snapshot view as a pure function, with
  lemmas about order, ranks, coordinates and focus.
- `store.dfy` (`Store`): the document store as a map from identifier to note,
  and the writes the handlers issue.
- `history.dfy` (`History`): ledger entries, `addHistory`, and what undo
  writes and focuses. It also proves that undo round-trips the store.
- `app.dfy` (`App`): the `AppState` class. Its fields are the state slots
  `notes`, `history`, `focused` and `firebaseError`, plus `authReady`. Each
  handler is a method.

Remote calls are reduced to their outcome. A handler takes `success: bool`,
which says whether the awaited store call or the undo batch committed. It
returns the writes the store applied, or `[]` when none were applied. A
snapshot delivery is the method `OnSnapshot(docs)`, whose input is the documents
in delivery order. "Now" is an integer parameter, in milliseconds. The
identifier the store assigns to a new note is also a parameter.

## Model

| member | source | states |
|---|---|---|
| `Notes.Find` | src/App.js:328 | `notes.find`: the result is present exactly when some note has the id, and it is the first note with that id |
| `Notes.Without` | src/App.js:334 | `notes.filter(n => n.id !== id)`: holds exactly the notes with another id and is no longer than the input |
| `Notes.WithoutCounts` | src/App.js:334 | every occurrence of a note with another id is kept, and no occurrence of a note with the id |
| `Notes.WithoutConcat` | src/App.js:334 | the filter keeps the order: it distributes over concatenation, and it drops a single note exactly when the note has the id, which fixes the result for every list |
| `Notes.Move` | src/App.js:373-374 | the optimistic drag update: ids and length are preserved, notes with other ids are unchanged, and the moved note differs only in `x`, `y` and `updatedAt`, which take the new values |
| `Notes.MoveRollback` | src/App.js:382 | when ids are unique, putting the pre-drag record back over the moved note gives back exactly the list before the drag |
| `Sorting.SortByPermutation` | src/App.js:153 | the sort returns a permutation of its input (same multiset, same length) |
| `Sorting.SortBySorted` | src/App.js:153 | the sort returns its input in non-decreasing key order |
| `Sorting.SortByStable` | src/App.js:153 | stability: for every key, the elements with that key appear in the same order as in the input |
| `Sorting.SortByLast` | src/App.js:337-338 | the last element of the sorted sequence comes from the input and has the largest key |
| `Reconcile.SnapshotAt` | src/App.js:155-166 | the i-th display note is the i-th sorted record, with only `x`/`y` defaulted where absent and `originalZIndex = i + 1` |
| `Reconcile.SnapshotPermutation` | src/App.js:148-168 | the display list has the snapshot's length and, with the derived fields cleared, is a permutation of the snapshot |
| `Reconcile.SnapshotSorted` | src/App.js:153 | the display list is in ascending `createdAt` order, with a missing timestamp as 0 |
| `Reconcile.SnapshotStable` | src/App.js:153 | notes with equal `createdAt` keep the order in which the snapshot delivered them |
| `Reconcile.SnapshotRanks` | src/App.js:160-166 | `originalZIndex` equals position + 1, so the set of ranks is exactly 1..N |
| `Reconcile.SnapshotKeepsCoordinates` | src/App.js:163-164 | every display note has numeric `x` and `y`; every record appears in the list, and a coordinate it stores is never overwritten |
| `Reconcile.SnapshotDefaultGrid` | src/App.js:156-157 | when no record stores coordinates, the i-th note in `createdAt` order gets `x = (i % 10) * 20 + 10` and `y = (i / 10) * 20 + 10` |
| `Reconcile.RaiseOnTop` | src/App.js:303-309 | raising changes only `zIndex`: the raised note gets `length + 100`, the others their `originalZIndex`; with ranks at most the length, the raised note is strictly above every other |
| `Reconcile.SnapshotFocusOnTop` | src/App.js:165 | with a focus, the focus is kept, the focused note gets `N + 100`, every other note has `zIndex = originalZIndex`, and the focused note is strictly above every other |
| `Reconcile.RefreshIsNoOp` | src/App.js:175-180 | the refresh pass for an existing focus recomputes exactly what placement already assigned, so it changes nothing |
| `Reconcile.SnapshotDefaultFocus` | src/App.js:173-174 | with no focus, an empty snapshot leaves everything empty; a non-empty one focuses the last note, which has the largest `createdAt`, and raises no note in that delivery |
| `Reconcile.SnapshotSettles` | src/App.js:173-187 | the delivery after a focus change keeps the chosen focus and is a fixed point; it differs from the first delivery only in `zIndex` |
| `Reconcile.SnapshotUniqueIds` | src/App.js:148-151 | reconciliation keeps identifiers unique |
| `Store.ApplyWrite` | src/App.js:419 | a write keeps every document's `id` equal to its key and changes no document except the one it targets |
| `History.AddHistory` | src/App.js:256 | the new entry is at the head, the length is `min(old + 1, 10)`, and the remaining entries are a prefix of the old ledger in their old order |
| `History.AddHistoryKeeps` | src/App.js:256 | below the bound nothing is lost: the result is the entry followed by the whole old ledger |
| `History.AddHistoryEvictsOldest` | src/App.js:256 | pushing onto a full ledger drops exactly the oldest entry: the kept entries followed by the evicted one are the old ledger |
| `History.Reversal` | src/App.js:395-421 | every undo commits a batch of exactly one write; what that write does to the store is stated by the three `Undo*RoundTrip` rows below |
| `History.NotesAfterUndo` | src/App.js:425-429 | after a committed UPDATE undo, only notes with the recorded id are replaced by the old record, which keeps that id; other kinds leave the list alone |
| `History.UndoAddRoundTrip` | src/App.js:395-397 | undoing an addition deletes the added document, which gives back the store as it was before the addition |
| `History.UndoDeleteRoundTrip` | src/App.js:399-411 | undoing a deletion re-creates the note under its original id with exactly the captured fields; a deleted document comes back unchanged |
| `History.UndoUpdateRoundTrip` | src/App.js:413-419 | undoing a drag, strike-through or colour change writes back exactly the captured old fields with a fresh `updatedAt`, and no other document changes |
| `App.NewNotePlacement` | src/App.js:280-281 | a new note lands in a ten-column band (`20 <= x <= 245`), and distinct note counts give distinct positions |
| `App.NextFocusNoneIffNoneRemain` | src/App.js:334-338 | there is no re-picked focus exactly when no note with another id remains |
| `App.NextFocusIsTopRemaining` | src/App.js:333-338 | a re-picked focus is a remaining note with the largest `originalZIndex` |
| `App.AddTwoThenUndoScenario` | src/App.js:395-398 | create A and then B: B is focused, A has rank 1, B has rank 2 and z-index 102; undo deletes B and focuses A, which the next snapshot puts on top |
| `App.SnapshotOfOne` | src/App.js:155-180 | a delivery of one placed, focused note gives exactly that note with rank 1 and z-index 101 |
| `App.SnapshotOfTwo` | src/App.js:153-180 | a delivery of two placed notes with the newer one focused, in either order, gives exactly the older at rank 1 and z-index 1, then the newer at rank 2 and z-index 102 |
| `App.SessionAddA` | src/App.js:258-293 | signing in, creating A and delivering the store's contents leaves the store holding A, the ledger holding A's creation, and A focused alone at z-index 101 |
| `App.SessionAddB` | src/App.js:258-293 | then creating B and delivering A and B adds B to the store and to the head of the ledger, focuses B, and stacks A at 1 and B at 102 |
| `App.SessionUndo` | src/App.js:387-439 | then undoing deletes B, pops its entry and focuses A, and the next delivery gives back the state after creating A |
| `App.AddTwoThenUndoSession` | src/App.js:387-439 | the three steps above through the handlers themselves: create A, create B, undo, each followed by a delivery, end in the state reached after creating A |
| `App.AppState.constructor` | src/App.js:98-117 | the slots start empty: no notes, no history, no focus, no error |
| `App.AppState.OnSnapshot` | src/App.js:147-181 | the new `notes` and `focused` are the snapshot view of the delivered documents under the old focus; the ledger is untouched and ids stay unique |
| `App.AppState.OnSnapshotError` | src/App.js:182-185 | the storage error slot holds the load-failure message |
| `App.AppState.FocusNote` | src/App.js:300-311 | the focus becomes the id and the notes are raised for it; nothing else changes |
| `App.AppState.AddNote` | src/App.js:258-293 | a blank text or missing sign-in does nothing; on success, the new document (placed by count, rank `count + 1`, z-index `count + 100`) is written, recorded at the head of the ledger and focused; on failure only the error is set; `notes` never changes |
| `App.AppState.DeleteNote` | src/App.js:326-341 | missing sign-in or an unknown id does nothing; on success, the delete is written and recorded, and the focus moves by `NextFocus` only if the deleted note was focused; on failure only the error is set |
| `App.AppState.ToggleStrikeThrough` | src/App.js:342-354 | on success, the flipped flag is merged with the new time and the UPDATE entry records the old and the new record; on failure only the error is set; the local list is unchanged |
| `App.AppState.ChangeNoteColor` | src/App.js:355-367 | the same as strike-through, for the background colour |
| `App.AppState.DragStop` | src/App.js:369-385 | an unknown note or unchanged coordinates do nothing; otherwise only `x`, `y` and `updatedAt` of that note change and an UPDATE entry is recorded; on failure the list is exactly as before the drag and the error is set |
| `App.AppState.Undo` | src/App.js:387-439 | an empty ledger is a no-op; a committed undo removes exactly the head, applies its reversal, reflects an UPDATE locally and refocuses; a failed undo leaves the ledger, notes and focus exactly as before and sets the error |

## Left out

- Sign-in (src/App.js:124-141) is network I/O. Its outcome is the `authReady` field, which the constructor sets.
- The Firestore client, the `onSnapshot` subscription and its re-subscription when the focus changes are network I/O. Each delivery is a call to `OnSnapshot`. Each awaited write or batch is a `success` input plus the returned list of applied writes.
- Firestore `Timestamp` objects, `toDate()`, `Timestamp.now()`, and the timestamp reconstruction when a deleted note is restored (src/App.js:404-409) belong to a foreign library. Timestamps are optional integers in milliseconds, and the restore writes the captured values as they are.
- The Gemini client and the AI handlers (src/App.js:190-254) are an HTTP client over an external API.
- The edit branch of `handleAddOrUpdateNote` (src/App.js:270-278), `handleEditNote`, `handleCancelEdit` and the form fields are form state of the editing UI. Only the add branch is modelled.
- React batching and races between stale closures are not modelled. The model is sequential: every handler runs to completion before the next event.
- The JSX rendering, `src/NoteItem.js` (including its render-time z-index of 1000), `src/ErrorBoundary.js` and `tailwind.config.js` are presentation and build configuration.
- The palette entries' CSS class strings are presentation. An entry is modelled by its name.
- Coordinates are integers. `typeof x === 'number'` also accepts fractions and `NaN`; the model represents a coordinate only as present (an integer) or absent.
- `originalZIndex` is always present in the model, because every note in the `notes` slot comes from reconciliation, which sets it. So the fallback `indexOf(n) + 1` in `handleFocusNote` (src/App.js:308) is not modelled.
- Identifiers are non-empty strings, so "no focus" is `None`. The model does not treat an empty-string id as falsy.
- A partial merge (position, flag or colour) into a document that no longer exists is a no-op in the model. Firestore would create a document holding only the merged fields.
- The `userId` field of a document and a stored `id` field overriding the document key are not modelled. The writes that store an `id` always store the key itself.
- `App.AppState.OnSnapshot` requires the delivered documents to have distinct identifiers. A snapshot always has this property, because identifiers are document keys.
- The note that is focused is not always on top, and `AppState.Valid` does not claim it. The source behaves the same way. `AddNote` focuses an identifier the list does not hold yet. A delivery that picks the default focus raises no note until the next delivery. The focused note is proved to be strictly on top for the raising pass (`Reconcile.RaiseOnTop`) and for a delivery with a focus (`Reconcile.SnapshotFocusOnTop`).
- The focus chosen when undoing an addition is the second-to-last local note (src/App.js:398). The model reproduces this as written. It is the newest other note only when the added note is the newest in the list, which holds unless other clients add notes.
