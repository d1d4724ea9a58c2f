/** The remote document store, reduced to what the handlers write into it:
    one collection of note documents keyed by identifier. The app never reads
    it directly (snapshots are inputs), so this module only gives the writes a
    meaning, for the round-trip properties of undo. */
module Store {
  import opened Palette
  import opened Notes

  type Docs = map<Id, Note>

  /** The writes issued by the handlers of src/App.js. */
  datatype Write =
    | Set(id: Id, note: Note)                           // addDoc, batch.set without merge
    | Delete(id: Id)                                    // deleteDoc, batch.delete
    | MergeNote(id: Id, note: Note)                     // batch.set(ref, fields, { merge: true })
    | MergePosition(id: Id, x: int, y: int, at: int)    // setDoc(ref, { x, y, updatedAt }, { merge: true })
    | MergeStruck(id: Id, struck: bool, at: int)        // setDoc(ref, { isStruckThrough, updatedAt }, { merge: true })
    | MergeColor(id: Id, color: NoteColor, at: int)     // setDoc(ref, { noteColor, updatedAt }, { merge: true })

  /** Each document's `id` field is its key. */
  predicate WellFormed(d: Docs) {
    forall k :: k in d ==> d[k].id == k
  }

  /** A merge writes every field the note carries; an absent optional field
      leaves the stored value alone. */
  function MergeFields(stored: Note, n: Note): Note {
    n.(x := if n.x.Some? then n.x else stored.x,
       y := if n.y.Some? then n.y else stored.y,
       createdAt := if n.createdAt.Some? then n.createdAt else stored.createdAt,
       updatedAt := if n.updatedAt.Some? then n.updatedAt else stored.updatedAt)
  }

  function ApplyWrite(d: Docs, w: Write): (r: Docs)
    ensures WellFormed(d) ==> WellFormed(r)
    ensures forall k :: k != w.id ==> (k in r <==> k in d) && (k in d ==> r[k] == d[k])
  {
    match w
    case Set(id, n) => d[id := n.(id := id)]
    case Delete(id) => d - {id}
    case MergeNote(id, n) => d[id := (if id in d then MergeFields(d[id], n) else n).(id := id)]
    case MergePosition(id, nx, ny, at) =>
      if id in d then d[id := d[id].(x := Some(nx), y := Some(ny), updatedAt := Some(at))] else d
    case MergeStruck(id, b, at) =>
      if id in d then d[id := d[id].(isStruckThrough := b, updatedAt := Some(at))] else d
    case MergeColor(id, c, at) =>
      if id in d then d[id := d[id].(noteColor := c, updatedAt := Some(at))] else d
  }

  /** A batch, applied in order. */
  function Apply(d: Docs, ws: seq<Write>): Docs
    decreases |ws|
  {
    if ws == [] then d else Apply(ApplyWrite(d, ws[0]), ws[1..])
  }

  /** A batch of one write is that write. */
  lemma ApplyOne(d: Docs, w: Write)
    ensures Apply(d, [w]) == ApplyWrite(d, w)
  {
  }

  /** The merges the in-place actions issue: one field of one note plus its
      modification time (drag, strike-through, background colour). */
  predicate SingleFieldUpdate(w: Write, id: Id) {
    (w.MergePosition? || w.MergeStruck? || w.MergeColor?) && w.id == id
  }
}
