/** The undo ledger: a bounded stack of reversible action records, newest
    first (src/App.js:256, 387-439). */
module History {
  import opened Notes
  import opened Store

  /** At most this many entries are kept. */
  const MaxHistory: nat := 10

  /** One reversible action: the payloads of ADD_NOTE, DELETE_NOTE and
      UPDATE_NOTE. `noteData` of an addition carries the new identifier in its
      `id` field. */
  datatype Entry =
    | AddNote(noteId: Id, noteData: Note)
    | DeleteNote(noteData: Note)
    | UpdateNote(noteId: Id, oldData: Note, newData: Note)

  /** `[action, ...prevHistory].slice(0, 10)`. */
  function AddHistory(h: seq<Entry>, e: Entry): (r: seq<Entry>)
    ensures |r| <= MaxHistory
    ensures |r| == if |h| < MaxHistory then |h| + 1 else MaxHistory
    ensures r[0] == e
    ensures r[1..] <= h
  {
    var all := [e] + h;
    assert all[1..] == h;
    all[..if |h| < MaxHistory then |h| + 1 else MaxHistory]
  }

  /** Below the bound nothing is lost: popping the new head gives the ledger
      back. */
  lemma AddHistoryKeeps(h: seq<Entry>, e: Entry)
    requires |h| < MaxHistory
    ensures AddHistory(h, e) == [e] + h
  {
  }

  /** On a full ledger the push evicts exactly the oldest entry: the kept
      entries followed by the evicted one are the old ledger. */
  lemma AddHistoryEvictsOldest(h: seq<Entry>, e: Entry)
    requires |h| == MaxHistory
    ensures AddHistory(h, e) == [e] + h[..MaxHistory - 1]
    ensures AddHistory(h, e)[1..] + [h[MaxHistory - 1]] == h
  {
  }

  /** The batch that reverses an entry (src/App.js:395-421): delete an added
      note; re-create a deleted note under its original identifier with its
      captured fields; merge the captured old fields back into an updated note
      with a fresh modification time. What each write does to the store is
      stated by `UndoAddRoundTrip`, `UndoDeleteRoundTrip` and
      `UndoUpdateRoundTrip` below. */
  function Reversal(e: Entry, now: int): (ws: seq<Write>)
    ensures |ws| == 1
  {
    match e
    case AddNote(id, _) => [Delete(id)]
    case DeleteNote(n) => [Set(n.id, n)]
    case UpdateNote(id, oldData, _) => [MergeNote(id, oldData.(updatedAt := Some(now)))]
  }

  /** `noteIdToFocusAfterUndo`: for an addition, the second-to-last note of
      the current list; otherwise the note the entry is about. */
  function FocusAfterUndo(e: Entry, notes: seq<Note>): Option<Id> {
    match e
    case AddNote(_, _) => if |notes| > 1 then Some(notes[|notes| - 2].id) else None
    case DeleteNote(n) => Some(n.id)
    case UpdateNote(id, _, _) => Some(id)
  }

  /** The local list right after a committed undo: only an update is
      reflected before the next snapshot, by putting the old record back under
      its identifier (src/App.js:425-429). */
  function NotesAfterUndo(e: Entry, notes: seq<Note>): (r: seq<Note>)
    ensures |r| == |notes| && Ids(r) == Ids(notes)
    ensures e.UpdateNote? ==>
              forall i :: 0 <= i < |notes| ==>
                r[i] == if notes[i].id == e.noteId then e.oldData.(id := e.noteId) else notes[i]
    ensures !e.UpdateNote? ==> r == notes
  {
    if e.UpdateNote? then Replace(notes, e.noteId, e.oldData.(id := e.noteId)) else notes
  }

  /** Undoing an addition removes the added document and leaves the store as
      it was before the addition. */
  lemma UndoAddRoundTrip(d: Docs, id: Id, n: Note, now: int)
    requires id !in d
    ensures Apply(Apply(d, [Set(id, n)]), Reversal(AddNote(id, n), now)) == d
  {
  }

  /** Undoing a deletion re-creates the document under its original
      identifier with exactly the captured fields, so a deleted document comes
      back unchanged. */
  lemma UndoDeleteRoundTrip(d: Docs, n: Note, now: int)
    requires WellFormed(d) && n.id in d
    ensures var r := Apply(Apply(d, [Delete(n.id)]), Reversal(DeleteNote(n), now));
            r == d[n.id := n] && (d[n.id] == n ==> r == d)
  {
  }

  /** Undoing a single-field update writes the captured old record back: the
      document gets exactly its old fields and a fresh `updatedAt`, and no
      other document changes. */
  lemma UndoUpdateRoundTrip(d: Docs, w: Write, oldData: Note, newData: Note, now: int)
    requires oldData.id in d && SingleFieldUpdate(w, oldData.id)
    requires oldData.x.Some? && oldData.y.Some? && oldData.createdAt == d[oldData.id].createdAt
    ensures var id := oldData.id;
            var r := Apply(Apply(d, [w]), Reversal(UpdateNote(id, oldData, newData), now));
            r == d[id := oldData.(updatedAt := Some(now))] &&
            (d[id] == oldData ==> r == d[id := d[id].(updatedAt := Some(now))])
  {
    var id := oldData.id;
    var restored := oldData.(updatedAt := Some(now));
    var updated := ApplyWrite(d, w);
    ApplyOne(d, w);
    ApplyOne(updated, MergeNote(id, restored));
    assert id in updated && updated[id].createdAt == d[id].createdAt;
    assert MergeFields(updated[id], restored).(id := id) == restored;
    assert updated[id := restored] == d[id := restored];
  }
}
