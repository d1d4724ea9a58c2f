/** The application shell's state slots and the event handlers that update
    them (src/App.js:97-439). Remote calls are reduced to their outcome: each
    handler takes `success` (did the awaited store call, or the undo batch,
    commit?) and returns the writes the store applied, `[]` when none. */
module App {
  import opened Palette
  import opened Notes
  import opened Sorting
  import opened Reconcile
  import opened Store
  import opened History

  const LoadError := "Could not load notes. Please check your connection."
  const AddError := "Failed to add note."
  const DeleteError := "Failed to delete note."
  const StatusError := "Failed to update note status."
  const ColorError := "Failed to update note color."
  const PositionError := "Failed to save note position."
  const UndoError := "Failed to undo action."

  /** Placement of a new note (src/App.js:280-281): ten columns 25 pixels
      apart, rows 25 pixels apart, offset 20, indexed by the current count. */
  function NewNoteX(count: nat): int { 20 + (count % 10) * 25 }
  function NewNoteY(count: nat): int { 20 + (count / 10) * 25 }

  /** Distinct counts give distinct placements, all inside the ten-column
      band. */
  lemma NewNotePlacement(a: nat, b: nat)
    ensures 20 <= NewNoteX(a) <= 245 && NewNoteY(a) >= 20
    ensures NewNoteX(a) == NewNoteX(b) && NewNoteY(a) == NewNoteY(b) ==> a == b
  {
  }

  /** The document the add branch of `handleAddOrUpdateNote` creates
      (src/App.js:262-287). */
  function NewNoteData(id: Id, count: nat, text: string, noteColor: NoteColor, fontColor: FontColor,
                       fontSize: FontSize, now: int): Note {
    Note(id, text, noteColor, fontColor, fontSize, false,
         Some(NewNoteX(count)), Some(NewNoteY(count)), Some(now), Some(now),
         count + 100, count + 1)
  }

  /** `(a.originalZIndex || 0)`, the sort key of the focus re-pick. */
  function RankKey(n: Note): int { n.originalZIndex }

  /** The focus after deleting the focused note (src/App.js:333-338): the last
      of the remaining notes sorted by `originalZIndex`, or none. */
  function NextFocus(notes: seq<Note>, deleted: Id): Option<Id> {
    var remaining := SortBy(Without(notes, deleted), RankKey);
    if |remaining| > 0 then Some(remaining[|remaining| - 1].id) else None
  }

  /** There is no re-picked focus exactly when no other note remains. */
  lemma NextFocusNoneIffNoneRemain(notes: seq<Note>, deleted: Id)
    ensures NextFocus(notes, deleted).None? <==> forall n :: n in notes ==> n.id == deleted
  {
    var rest := Without(notes, deleted);
    SortByPermutation(rest, RankKey);
    if rest == [] {
      forall n | n in notes ensures n.id == deleted {
        assert n !in rest;
      }
    } else {
      assert rest[0] in rest;
    }
  }

  /** The re-picked focus is a remaining note with the largest
      `originalZIndex`. */
  lemma NextFocusIsTopRemaining(notes: seq<Note>, deleted: Id)
    ensures NextFocus(notes, deleted).Some? ==>
              exists n :: n in notes && n.id == NextFocus(notes, deleted).value && n.id != deleted &&
                          forall m :: m in notes && m.id != deleted ==> m.originalZIndex <= n.originalZIndex
  {
    var rest := Without(notes, deleted);
    var sorted := SortBy(rest, RankKey);
    if rest != [] {
      SortByLast(rest, RankKey);
      var top := sorted[|sorted| - 1];
      assert top in rest;
      forall m | m in rest ensures m.originalZIndex <= top.originalZIndex {
        var j :| 0 <= j < |rest| && rest[j] == m;
        assert RankKey(rest[j]) <= RankKey(top);
      }
      assert NextFocus(notes, deleted) == Some(top.id);
    }
  }

  /** The delivery of one placed note, focused: it is raised to 101. */
  lemma SnapshotOfOne(a: Note)
    requires a.x.Some? && a.y.Some?
    ensures SnapshotView([a], Some(a.id)) == View([a.(zIndex := 101, originalZIndex := 1)], Some(a.id))
  {
    assert SortBy([a], CreatedKey) == [a];
  }

  /** The delivery of two placed notes, the newer one focused, in either
      order: the older has rank 1 at z-index 1, the newer rank 2 at 102. */
  lemma SnapshotOfTwo(a: Note, b: Note, records: seq<Note>)
    requires a.id != b.id && CreatedKey(a) < CreatedKey(b)
    requires a.x.Some? && a.y.Some? && b.x.Some? && b.y.Some?
    requires records == [a, b] || records == [b, a]
    ensures SnapshotView(records, Some(b.id)) ==
            View([a.(zIndex := 1, originalZIndex := 1), b.(zIndex := 102, originalZIndex := 2)], Some(b.id))
  {
    if records == [b, a] {
      assert SortBy([a], CreatedKey) == [a];
      assert SortBy(records, CreatedKey) == Insert(b, [a], CreatedKey) == [a, b];
    } else {
      assert SortBy([b], CreatedKey) == [b];
      assert SortBy(records, CreatedKey) == Insert(a, [b], CreatedKey) == [a, b];
    }
  }

  /** Create note A, then note B, then undo: B is focused and on top with
      ranks A = 1, B = 2 in whatever order the snapshot delivers them; the undo
      deletes B and focuses A, which the next snapshot puts on top. */
  lemma AddTwoThenUndoScenario(a: Note, b: Note, records: seq<Note>, now: int)
    requires a.id != b.id && CreatedKey(a) < CreatedKey(b)
    requires records == [a, b] || records == [b, a]
    ensures var v := SnapshotView(records, Some(b.id));
            |v.notes| == 2 && v.focused == Some(b.id) &&
            v.notes[0].id == a.id && v.notes[0].originalZIndex == 1 && v.notes[0].zIndex == 1 &&
            v.notes[1].id == b.id && v.notes[1].originalZIndex == 2 && v.notes[1].zIndex == 102 &&
            Reversal(Entry.AddNote(b.id, b), now) == [Delete(b.id)] &&
            FocusAfterUndo(Entry.AddNote(b.id, b), v.notes) == Some(a.id)
    ensures var w := SnapshotView([a], Some(a.id));
            |w.notes| == 1 && w.notes[0].id == a.id && w.notes[0].zIndex == 101
  {
    var v := SnapshotView(records, Some(b.id));
    var sorted := SortBy(records, CreatedKey);
    if records == [b, a] {
      assert SortBy([a], CreatedKey) == [a];
      assert sorted == Insert(b, [a], CreatedKey) == [a, b];
    } else {
      assert SortBy([b], CreatedKey) == [b];
      assert sorted == Insert(a, [b], CreatedKey) == [a, b];
    }
  }

  class AppState {
    var notes: seq<Note>
    var history: seq<Entry>
    var focused: Option<Id>
    var firebaseError: string
    /** `isAuthReady && userId`: sign-in has completed. */
    var authReady: bool

    ghost predicate Valid()
      reads this
    {
      |history| <= MaxHistory && UniqueIds(notes)
    }

    constructor (authReady: bool)
      ensures Valid()
      ensures notes == [] && history == [] && focused == None && firebaseError == ""
      ensures this.authReady == authReady
    {
      notes, history, focused, firebaseError := [], [], None, "";
      this.authReady := authReady;
    }

    /** The snapshot listener (src/App.js:147-181): copy the delivered
        documents, sort, place, and settle the focus. */
    method OnSnapshot(docs: seq<Note>)
      requires Valid() && UniqueIds(docs)
      modifies this
      ensures Valid()
      ensures notes == SnapshotView(docs, old(focused)).notes
      ensures focused == SnapshotView(docs, old(focused)).focused
      ensures history == old(history) && firebaseError == old(firebaseError) && authReady == old(authReady)
    {
      var notesData: seq<Note> := [];
      var i := 0;
      while i < |docs|
        invariant 0 <= i <= |docs|
        invariant notesData == docs[..i]
      {
        notesData := notesData + [docs[i]];
        i := i + 1;
      }
      assert notesData == docs;
      var withPositions := Place(SortBy(notesData, CreatedKey), focused);
      notes := withPositions;
      if |withPositions| > 0 && focused.None? {
        focused := Some(withPositions[|withPositions| - 1].id);
      } else if focused.Some? {
        notes := Raise(notes, focused.value);
      }
      SnapshotUniqueIds(docs, old(focused));
    }

    /** The listener's error callback (src/App.js:182-185). */
    method OnSnapshotError()
      modifies this`firebaseError
      ensures firebaseError == LoadError
    {
      firebaseError := LoadError;
    }

    /** `handleFocusNote` (src/App.js:300-311). */
    method FocusNote(id: Id)
      requires Valid()
      modifies this`focused, this`notes
      ensures Valid()
      ensures focused == Some(id) && notes == Raise(old(notes), id)
    {
      RaiseOnTop(notes, id);
      focused := Some(id);
      notes := Raise(notes, id);
    }

    /** The add branch of `handleAddOrUpdateNote` (src/App.js:258-293):
        `newId` is the identifier the store assigns. */
    method AddNote(text: string, noteColor: NoteColor, fontColor: FontColor, fontSize: FontSize,
                   now: int, newId: Id, success: bool) returns (applied: seq<Write>)
      requires Valid()
      modifies this
      ensures Valid() && notes == old(notes) && authReady == old(authReady)
      ensures IsBlank(text) || !authReady ==>
                applied == [] && history == old(history) && focused == old(focused) &&
                firebaseError == old(firebaseError)
      ensures !IsBlank(text) && authReady && success ==>
                var n := NewNoteData(newId, |old(notes)|, text, noteColor, fontColor, fontSize, now);
                applied == [Set(newId, n)] && history == AddHistory(old(history), Entry.AddNote(newId, n)) &&
                focused == Some(newId) && firebaseError == old(firebaseError)
      ensures !IsBlank(text) && authReady && !success ==>
                applied == [] && history == old(history) && focused == old(focused) &&
                firebaseError == AddError
    {
      applied := [];
      if IsBlank(text) || !authReady {
        return;
      }
      var newNoteData := NewNoteData(newId, |notes|, text, noteColor, fontColor, fontSize, now);
      if success {
        applied := [Set(newId, newNoteData)];
        history := AddHistory(history, Entry.AddNote(newId, newNoteData));
        focused := Some(newId);
      } else {
        firebaseError := AddError;
      }
    }

    /** `handleDeleteNote` (src/App.js:326-341). */
    method DeleteNote(noteId: Id, success: bool) returns (applied: seq<Write>)
      requires Valid()
      modifies this
      ensures Valid() && notes == old(notes) && authReady == old(authReady)
      ensures !authReady || Find(notes, noteId).None? ==>
                applied == [] && history == old(history) && focused == old(focused) &&
                firebaseError == old(firebaseError)
      ensures authReady && Find(notes, noteId).Some? && success ==>
                applied == [Delete(noteId)] &&
                history == AddHistory(old(history), Entry.DeleteNote(Find(notes, noteId).value)) &&
                focused == (if old(focused) == Some(noteId) then NextFocus(notes, noteId) else old(focused)) &&
                firebaseError == old(firebaseError)
      ensures authReady && Find(notes, noteId).Some? && !success ==>
                applied == [] && history == old(history) && focused == old(focused) &&
                firebaseError == DeleteError
    {
      applied := [];
      if !authReady {
        return;
      }
      var noteToDelete := Find(notes, noteId);
      if noteToDelete.None? {
        return;
      }
      if success {
        applied := [Delete(noteId)];
        history := AddHistory(history, Entry.DeleteNote(noteToDelete.value));
        if focused == Some(noteId) {
          var remainingNotes := Without(notes, noteId);
          remainingNotes := SortBy(remainingNotes, RankKey);
          focused := if |remainingNotes| > 0 then Some(remainingNotes[|remainingNotes| - 1].id) else None;
          assert focused == NextFocus(notes, noteId);
        }
      } else {
        firebaseError := DeleteError;
      }
    }

    /** `handleToggleStrikeThrough` (src/App.js:342-354). */
    method ToggleStrikeThrough(noteId: Id, now: int, success: bool) returns (applied: seq<Write>)
      requires Valid()
      modifies this
      ensures Valid() && notes == old(notes) && focused == old(focused) && authReady == old(authReady)
      ensures !authReady || Find(notes, noteId).None? ==>
                applied == [] && history == old(history) && firebaseError == old(firebaseError)
      ensures authReady && Find(notes, noteId).Some? && success ==>
                var n := Find(notes, noteId).value;
                var flipped := n.(isStruckThrough := !n.isStruckThrough, updatedAt := Some(now));
                applied == [MergeStruck(noteId, !n.isStruckThrough, now)] &&
                history == AddHistory(old(history), UpdateNote(noteId, n, flipped)) &&
                firebaseError == old(firebaseError)
      ensures authReady && Find(notes, noteId).Some? && !success ==>
                applied == [] && history == old(history) && firebaseError == StatusError
    {
      applied := [];
      if !authReady {
        return;
      }
      var noteToUpdate := Find(notes, noteId);
      if noteToUpdate.None? {
        return;
      }
      var oldData := noteToUpdate.value;
      var newData := oldData.(isStruckThrough := !oldData.isStruckThrough, updatedAt := Some(now));
      if success {
        applied := [MergeStruck(noteId, !oldData.isStruckThrough, now)];
        history := AddHistory(history, UpdateNote(noteId, oldData, newData));
      } else {
        firebaseError := StatusError;
      }
    }

    /** `handleChangeNoteBgColorOnItem` (src/App.js:355-367). */
    method ChangeNoteColor(noteId: Id, color: NoteColor, now: int, success: bool) returns (applied: seq<Write>)
      requires Valid()
      modifies this
      ensures Valid() && notes == old(notes) && focused == old(focused) && authReady == old(authReady)
      ensures !authReady || Find(notes, noteId).None? ==>
                applied == [] && history == old(history) && firebaseError == old(firebaseError)
      ensures authReady && Find(notes, noteId).Some? && success ==>
                var n := Find(notes, noteId).value;
                applied == [MergeColor(noteId, color, now)] &&
                history == AddHistory(old(history), UpdateNote(noteId, n, n.(noteColor := color, updatedAt := Some(now)))) &&
                firebaseError == old(firebaseError)
      ensures authReady && Find(notes, noteId).Some? && !success ==>
                applied == [] && history == old(history) && firebaseError == ColorError
    {
      applied := [];
      if !authReady {
        return;
      }
      var noteToUpdate := Find(notes, noteId);
      if noteToUpdate.None? {
        return;
      }
      var oldData := noteToUpdate.value;
      var newData := oldData.(noteColor := color, updatedAt := Some(now));
      if success {
        applied := [MergeColor(noteId, color, now)];
        history := AddHistory(history, UpdateNote(noteId, oldData, newData));
      } else {
        firebaseError := ColorError;
      }
    }

    /** `handleDragStop` (src/App.js:369-385): optimistic move, rolled back
        when the write fails. */
    method DragStop(noteId: Id, newX: int, newY: int, now: int, success: bool) returns (applied: seq<Write>)
      requires Valid()
      modifies this
      ensures Valid() && focused == old(focused) && authReady == old(authReady)
      ensures Find(old(notes), noteId).None? ||
              (Find(old(notes), noteId).value.x == Some(newX) && Find(old(notes), noteId).value.y == Some(newY)) ==>
                applied == [] && notes == old(notes) && history == old(history) &&
                firebaseError == old(firebaseError)
      ensures Find(old(notes), noteId).Some? &&
              (Find(old(notes), noteId).value.x != Some(newX) || Find(old(notes), noteId).value.y != Some(newY)) ==>
                var n := Find(old(notes), noteId).value;
                if success then
                  applied == [MergePosition(noteId, newX, newY, now)] &&
                  notes == Move(old(notes), noteId, newX, newY, now) &&
                  history == AddHistory(old(history),
                               UpdateNote(noteId, n, n.(x := Some(newX), y := Some(newY), updatedAt := Some(now)))) &&
                  firebaseError == old(firebaseError)
                else
                  applied == [] && notes == old(notes) && history == old(history) &&
                  firebaseError == PositionError
    {
      applied := [];
      var noteToUpdate := Find(notes, noteId);
      if noteToUpdate.None? || (noteToUpdate.value.x == Some(newX) && noteToUpdate.value.y == Some(newY)) {
        return;
      }
      var oldNoteData := noteToUpdate.value;
      notes := Move(notes, noteId, newX, newY, now);
      assert UniqueIds(notes) by { assert Ids(notes) == Ids(old(notes)); }
      if success {
        applied := [MergePosition(noteId, newX, newY, now)];
        var newData := oldNoteData.(x := Some(newX), y := Some(newY), updatedAt := Some(now));
        history := AddHistory(history, UpdateNote(noteId, oldNoteData, newData));
      } else {
        ghost var k :| 0 <= k < |old(notes)| && old(notes)[k] == oldNoteData && oldNoteData.id == noteId;
        MoveRollback(old(notes), k, newX, newY, now);
        notes := Replace(notes, noteId, oldNoteData);
        assert notes == old(notes);
        firebaseError := PositionError;
      }
    }

    /** `handleUndo` (src/App.js:387-439): pop the newest entry, commit its
        reversal as one batch, and put the entry back if the batch fails. */
    method Undo(now: int, success: bool) returns (applied: seq<Write>)
      requires Valid()
      modifies this
      ensures Valid() && authReady == old(authReady)
      ensures old(history) == [] || !authReady ==>
                applied == [] && notes == old(notes) && history == old(history) &&
                focused == old(focused) && firebaseError == old(firebaseError)
      ensures old(history) != [] && authReady && success ==>
                var e := old(history)[0];
                var after := NotesAfterUndo(e, old(notes));
                var f := FocusAfterUndo(e, old(notes));
                applied == Reversal(e, now) && history == old(history)[1..] &&
                notes == (if f.Some? then Raise(after, f.value) else after) &&
                focused == (if f.Some? then f else old(focused)) &&
                firebaseError == old(firebaseError)
      ensures old(history) != [] && authReady && !success ==>
                applied == [] && notes == old(notes) && history == old(history) &&
                focused == old(focused) && firebaseError == UndoError
    {
      applied := [];
      if |history| == 0 || !authReady {
        return;
      }
      var lastAction := history[0];
      history := history[1..];
      var batch: seq<Write>;
      var noteIdToFocusAfterUndo := focused;
      match lastAction {
        case AddNote(id, _) =>
          batch := [Delete(id)];
          noteIdToFocusAfterUndo := if |notes| > 1 then Some(notes[|notes| - 2].id) else None;
        case DeleteNote(noteData) =>
          batch := [Set(noteData.id, noteData)];
          noteIdToFocusAfterUndo := Some(noteData.id);
        case UpdateNote(id, oldData, _) =>
          batch := [MergeNote(id, oldData.(updatedAt := Some(now)))];
          noteIdToFocusAfterUndo := Some(id);
      }
      if success {
        applied := batch;
        if lastAction.UpdateNote? {
          notes := Replace(notes, lastAction.noteId, lastAction.oldData.(id := lastAction.noteId));
          assert notes == NotesAfterUndo(lastAction, old(notes));
        }
        if noteIdToFocusAfterUndo.Some? {
          FocusNote(noteIdToFocusAfterUndo.value);
        }
      } else {
        history := [lastAction] + history;
        firebaseError := UndoError;
      }
    }
  }

  /** The note A of the session below, and the state its steps leave. */
  function SessionA(textA: string, idA: Id, t1: int): Note {
    NewNoteData(idA, 0, textA, Yellow, Black, Medium, t1)
  }

  function SessionB(textB: string, idB: Id, t2: int): Note {
    NewNoteData(idB, 1, textB, Yellow, Black, Medium, t2)
  }

  /** Sign in and create note A; the store then delivers A. A is focused and
      alone on top. */
  method SessionAddA(textA: string, idA: Id, t1: int) returns (s: AppState, docs: Docs)
    requires !IsBlank(textA)
    ensures fresh(s) && s.Valid() && s.authReady
    ensures var a := SessionA(textA, idA, t1);
            docs == map[idA := a] && s.history == [Entry.AddNote(idA, a)] && s.focused == Some(idA) &&
            s.notes == [a.(zIndex := 101, originalZIndex := 1)]
  {
    var a := SessionA(textA, idA, t1);
    SnapshotOfOne(a);
    AddHistoryKeeps([], Entry.AddNote(idA, a));
    s := new AppState(true);
    docs := map[];
    var written := s.AddNote(textA, Yellow, Black, Medium, t1, idA, true);
    ApplyOne(docs, Set(idA, a));
    docs := Apply(docs, written);
    s.OnSnapshot([a]);
  }

  /** Then create note B; the store delivers A and B. B is focused on top. */
  method SessionAddB(s: AppState, docs: Docs, textA: string, textB: string, idA: Id, idB: Id, t1: int, t2: int)
    returns (docs': Docs)
    requires !IsBlank(textB) && idA != idB && t1 < t2
    requires var a := SessionA(textA, idA, t1);
             s.Valid() && s.authReady &&
             docs == map[idA := a] && s.history == [Entry.AddNote(idA, a)] && s.focused == Some(idA) &&
             s.notes == [a.(zIndex := 101, originalZIndex := 1)]
    modifies s
    ensures s.Valid() && s.authReady
    ensures var a, b := SessionA(textA, idA, t1), SessionB(textB, idB, t2);
            docs' == map[idA := a, idB := b] &&
            s.history == [Entry.AddNote(idB, b), Entry.AddNote(idA, a)] && s.focused == Some(idB) &&
            s.notes == [a.(zIndex := 1, originalZIndex := 1), b.(zIndex := 102, originalZIndex := 2)]
  {
    var a, b := SessionA(textA, idA, t1), SessionB(textB, idB, t2);
    SnapshotOfTwo(a, b, [a, b]);
    AddHistoryKeeps([Entry.AddNote(idA, a)], Entry.AddNote(idB, b));
    var written := s.AddNote(textB, Yellow, Black, Medium, t2, idB, true);
    ApplyOne(docs, Set(idB, b));
    docs' := Apply(docs, written);
    s.OnSnapshot([a, b]);
  }

  /** Then undo: B is deleted and A focused; the store delivers A alone, on
      top, and the ledger holds only A's creation. */
  method SessionUndo(s: AppState, docs: Docs, textA: string, textB: string, idA: Id, idB: Id,
                     t1: int, t2: int, t3: int)
    returns (docs': Docs)
    requires idA != idB
    requires var a, b := SessionA(textA, idA, t1), SessionB(textB, idB, t2);
             s.Valid() && s.authReady &&
             docs == map[idA := a, idB := b] &&
             s.history == [Entry.AddNote(idB, b), Entry.AddNote(idA, a)] && s.focused == Some(idB) &&
             s.notes == [a.(zIndex := 1, originalZIndex := 1), b.(zIndex := 102, originalZIndex := 2)]
    modifies s
    ensures s.Valid()
    ensures var a := SessionA(textA, idA, t1);
            docs' == map[idA := a] && s.history == [Entry.AddNote(idA, a)] && s.focused == Some(idA) &&
            s.notes == [a.(zIndex := 101, originalZIndex := 1)]
  {
    var a := SessionA(textA, idA, t1);
    SnapshotOfOne(a);
    var written := s.Undo(t3, true);
    assert written == [Delete(idB)] && s.focused == Some(idA);
    ApplyOne(docs, Delete(idB));
    docs' := Apply(docs, written);
    assert docs' == map[idA := a];
    s.OnSnapshot([a]);
  }

  /** Create note A, then note B, then undo, driven through the handlers:
      each store delivery is the store's contents after the writes the
      handlers return. The session ends where it was after creating A. */
  method AddTwoThenUndoSession(textA: string, textB: string, idA: Id, idB: Id, t1: int, t2: int, t3: int)
    returns (s: AppState, docs: Docs)
    requires !IsBlank(textA) && !IsBlank(textB) && idA != idB && t1 < t2
    ensures s.Valid()
    ensures var a := SessionA(textA, idA, t1);
            docs == map[idA := a] && s.history == [Entry.AddNote(idA, a)] &&
            s.focused == Some(idA) && s.notes == [a.(zIndex := 101, originalZIndex := 1)]
  {
    s, docs := SessionAddA(textA, idA, t1);
    docs := SessionAddB(s, docs, textA, textB, idA, idB, t1, t2);
    docs := SessionUndo(s, docs, textA, textB, idA, idB, t1, t2, t3);
  }
}
