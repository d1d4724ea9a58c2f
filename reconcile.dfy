/** Reconciliation of a realtime snapshot into the display list, and the
    z-order bookkeeping of the focused note (src/App.js:147-181, 300-311). */
module Reconcile {
  import opened Notes
  import opened Seqs
  import opened Sorting

  /** `a.createdAt?.toDate() || 0`: a missing timestamp sorts as 0. */
  function CreatedKey(n: Note): int {
    if n.createdAt.Some? then n.createdAt.value else 0
  }

  /** The default grid position of the note at sorted position i: ten columns
      20 pixels apart, rows 20 pixels apart, offset 10. */
  function DefaultX(i: nat): int { (i % 10) * 20 + 10 }
  function DefaultY(i: nat): int { (i / 10) * 20 + 10 }

  /** The note at sorted position i of a snapshot of `count` notes, with its
      coordinates defaulted and its stacking order assigned. */
  function Placed(n: Note, i: nat, count: nat, focused: Option<Id>): Note {
    n.(x := if n.x.Some? then n.x else Some(DefaultX(i)),
       y := if n.y.Some? then n.y else Some(DefaultY(i)),
       zIndex := if focused == Some(n.id) then count + 100 else i + 1,
       originalZIndex := i + 1)
  }

  function Place(sorted: seq<Note>, focused: Option<Id>): seq<Note> {
    seq(|sorted|, i requires 0 <= i < |sorted| => Placed(sorted[i], i, |sorted|, focused))
  }

  /** The z-index pass of `handleFocusNote` and of the snapshot refresh: the
      note `id` goes to `length + 100`, every other note back to its
      `originalZIndex`. */
  function Raise(notes: seq<Note>, id: Id): seq<Note> {
    seq(|notes|, i requires 0 <= i < |notes| =>
      notes[i].(zIndex := if notes[i].id == id then |notes| + 100 else notes[i].originalZIndex))
  }

  /** What one snapshot delivery leaves in the `notes` and `focusedNoteId`
      slots. */
  datatype View = View(notes: seq<Note>, focused: Option<Id>)

  function SnapshotView(records: seq<Note>, focused: Option<Id>): View {
    var placed := Place(SortBy(records, CreatedKey), focused);
    if |placed| > 0 && focused.None? then View(placed, Some(placed[|placed| - 1].id))
    else if focused.Some? then View(Raise(placed, focused.value), focused)
    else View(placed, focused)
  }

  /** A note with the fields reconciliation derives cleared: what a display
      note has in common with the stored record it came from. */
  function Unplaced(n: Note): Note {
    n.(x := None, y := None, zIndex := 0, originalZIndex := 0)
  }

  /** The snapshot view at position i is the sorted record at position i with
      only x, y, zIndex and originalZIndex derived. */
  lemma SnapshotAt(records: seq<Note>, focused: Option<Id>, i: nat)
    requires i < |records|
    ensures var v := SnapshotView(records, focused);
            var sorted := SortBy(records, CreatedKey);
            |v.notes| == |sorted| == |records| &&
            Unplaced(v.notes[i]) == Unplaced(sorted[i]) &&
            v.notes[i].x == (if sorted[i].x.Some? then sorted[i].x else Some(DefaultX(i))) &&
            v.notes[i].y == (if sorted[i].y.Some? then sorted[i].y else Some(DefaultY(i))) &&
            v.notes[i].originalZIndex == i + 1
  {
    SortByLength(records, CreatedKey);
  }

  lemma UnplacedAgree(records: seq<Note>, focused: Option<Id>)
    ensures var v := SnapshotView(records, focused);
            Map(Unplaced, v.notes) == Map(Unplaced, SortBy(records, CreatedKey))
  {
    var v := SnapshotView(records, focused);
    var sorted := SortBy(records, CreatedKey);
    SortByLength(records, CreatedKey);
    forall i | 0 <= i < |sorted| ensures Map(Unplaced, v.notes)[i] == Map(Unplaced, sorted)[i] {
      SnapshotAt(records, focused, i);
    }
  }

  /** Reconciliation returns the incoming records, reordered, with nothing but
      the derived fields changed. */
  lemma SnapshotPermutation(records: seq<Note>, focused: Option<Id>)
    ensures var v := SnapshotView(records, focused);
            |v.notes| == |records| &&
            multiset(Map(Unplaced, v.notes)) == multiset(Map(Unplaced, records))
  {
    SortByPermutation(records, CreatedKey);
    UnplacedAgree(records, focused);
    MapPreservesMultiset(Unplaced, SortBy(records, CreatedKey), records);
  }

  /** Clearing the derived fields keeps `createdAt`, so it commutes with
      selecting the notes of one timestamp. */
  lemma {:induction false} UnplacedWithKey(s: seq<Note>, k: int)
    ensures WithKey(Map(Unplaced, s), CreatedKey, k) == Map(Unplaced, WithKey(s, CreatedKey, k))
  {
    if s != [] {
      UnplacedWithKey(s[1..], k);
      assert Map(Unplaced, s) == [Unplaced(s[0])] + Map(Unplaced, s[1..]);
      assert Map(Unplaced, s)[1..] == Map(Unplaced, s[1..]);
      if CreatedKey(s[0]) == k {
        assert Map(Unplaced, [s[0]] + WithKey(s[1..], CreatedKey, k)) ==
               [Unplaced(s[0])] + Map(Unplaced, WithKey(s[1..], CreatedKey, k));
      }
    }
  }

  /** Notes with equal `createdAt` keep the order in which the snapshot
      delivered them (the sort is stable). */
  lemma SnapshotStable(records: seq<Note>, focused: Option<Id>, k: int)
    ensures var v := SnapshotView(records, focused);
            WithKey(Map(Unplaced, v.notes), CreatedKey, k) == WithKey(Map(Unplaced, records), CreatedKey, k)
  {
    var sorted := SortBy(records, CreatedKey);
    UnplacedAgree(records, focused);
    UnplacedWithKey(sorted, k);
    UnplacedWithKey(records, k);
    SortByStable(records, CreatedKey, k);
  }

  /** The display list is in ascending `createdAt` order, missing counting as 0. */
  lemma SnapshotSorted(records: seq<Note>, focused: Option<Id>)
    ensures var v := SnapshotView(records, focused);
            forall i, j :: 0 <= i < j < |v.notes| ==> CreatedKey(v.notes[i]) <= CreatedKey(v.notes[j])
  {
    var v := SnapshotView(records, focused);
    var sorted := SortBy(records, CreatedKey);
    SortBySorted(records, CreatedKey);
    SortByLength(records, CreatedKey);
    forall i, j | 0 <= i < j < |v.notes| ensures CreatedKey(v.notes[i]) <= CreatedKey(v.notes[j]) {
      SnapshotAt(records, focused, i);
      SnapshotAt(records, focused, j);
      assert v.notes[i].createdAt == Unplaced(v.notes[i]).createdAt == sorted[i].createdAt;
      assert v.notes[j].createdAt == Unplaced(v.notes[j]).createdAt == sorted[j].createdAt;
    }
  }

  /** The set of `originalZIndex` values of a list. */
  function Ranks(notes: seq<Note>): set<int> {
    set i | 0 <= i < |notes| :: notes[i].originalZIndex
  }

  /** `originalZIndex` is the dense rank position+1, so its values are exactly
      1..N. */
  lemma SnapshotRanks(records: seq<Note>, focused: Option<Id>)
    ensures var v := SnapshotView(records, focused);
            (forall i :: 0 <= i < |v.notes| ==> v.notes[i].originalZIndex == i + 1) &&
            forall k :: k in Ranks(v.notes) <==> 1 <= k <= |records|
  {
    var v := SnapshotView(records, focused);
    SortByLength(records, CreatedKey);
    forall i | 0 <= i < |v.notes| ensures v.notes[i].originalZIndex == i + 1 {
      SnapshotAt(records, focused, i);
    }
    forall k | 1 <= k <= |records| ensures k in Ranks(v.notes) {
      assert v.notes[k - 1].originalZIndex == k;
    }
  }

  /** Every record appears in the display list, and a coordinate it stores is
      never overwritten by a default. */
  lemma SnapshotKeepsCoordinates(records: seq<Note>, focused: Option<Id>)
    ensures var v := SnapshotView(records, focused);
            (forall i :: 0 <= i < |v.notes| ==> v.notes[i].x.Some? && v.notes[i].y.Some?) &&
            forall j :: 0 <= j < |records| ==>
              exists i :: 0 <= i < |v.notes| && Unplaced(v.notes[i]) == Unplaced(records[j]) &&
                          (records[j].x.Some? ==> v.notes[i].x == records[j].x) &&
                          (records[j].y.Some? ==> v.notes[i].y == records[j].y)
  {
    var v := SnapshotView(records, focused);
    var sorted := SortBy(records, CreatedKey);
    SortByLength(records, CreatedKey);
    forall i | 0 <= i < |v.notes| ensures v.notes[i].x.Some? && v.notes[i].y.Some? {
      SnapshotAt(records, focused, i);
    }
    forall j | 0 <= j < |records|
      ensures exists i :: 0 <= i < |v.notes| && Unplaced(v.notes[i]) == Unplaced(records[j]) &&
                          (records[j].x.Some? ==> v.notes[i].x == records[j].x) &&
                          (records[j].y.Some? ==> v.notes[i].y == records[j].y)
    {
      var i := SortByHolds(records, CreatedKey, j);
      SnapshotAt(records, focused, i);
    }
  }

  /** With no stored coordinates at all, the i-th note in ascending `createdAt`
      order lands on grid cell (i % 10, i / 10). */
  lemma SnapshotDefaultGrid(records: seq<Note>, focused: Option<Id>)
    requires forall j :: 0 <= j < |records| ==> records[j].x.None? && records[j].y.None?
    ensures var v := SnapshotView(records, focused);
            forall i :: 0 <= i < |v.notes| ==>
              v.notes[i].x == Some((i % 10) * 20 + 10) && v.notes[i].y == Some((i / 10) * 20 + 10)
  {
    var v := SnapshotView(records, focused);
    var sorted := SortBy(records, CreatedKey);
    SortByPermutation(records, CreatedKey);
    forall i | 0 <= i < |v.notes|
      ensures v.notes[i].x == Some((i % 10) * 20 + 10) && v.notes[i].y == Some((i / 10) * 20 + 10)
    {
      SnapshotAt(records, focused, i);
      assert sorted[i] in multiset(records);
    }
  }

  /** `Raise` changes nothing but `zIndex`, and when every `originalZIndex` is
      at most the list length the raised note is strictly above all others. */
  lemma RaiseOnTop(notes: seq<Note>, id: Id)
    ensures var r := Raise(notes, id);
            |r| == |notes| && Ids(r) == Ids(notes) &&
            (forall i :: 0 <= i < |notes| ==> r[i].(zIndex := notes[i].zIndex) == notes[i]) &&
            (forall i :: 0 <= i < |notes| && notes[i].id == id ==> r[i].zIndex == |notes| + 100) &&
            (forall i :: 0 <= i < |notes| && notes[i].id != id ==> r[i].zIndex == notes[i].originalZIndex)
    ensures (forall k :: 0 <= k < |notes| ==> notes[k].originalZIndex <= |notes|) ==>
            var r := Raise(notes, id);
            forall i, j :: 0 <= i < |r| && 0 <= j < |r| && r[i].id == id && r[j].id != id ==>
              r[i].zIndex > r[j].zIndex
  {
  }

  /** A focused note present in the snapshot gets `N + 100`, strictly above
      every other note, whose `zIndex` is its `originalZIndex`; the focus is
      kept even when the note is absent. */
  lemma SnapshotFocusOnTop(records: seq<Note>, f: Id)
    ensures var v := SnapshotView(records, Some(f));
            v.focused == Some(f) &&
            (forall i :: 0 <= i < |v.notes| && v.notes[i].id == f ==> v.notes[i].zIndex == |records| + 100) &&
            (forall i :: 0 <= i < |v.notes| && v.notes[i].id != f ==> v.notes[i].zIndex == v.notes[i].originalZIndex) &&
            forall i, j :: 0 <= i < |v.notes| && 0 <= j < |v.notes| && v.notes[i].id == f && v.notes[j].id != f ==>
              v.notes[i].zIndex > v.notes[j].zIndex
  {
    var placed := Place(SortBy(records, CreatedKey), Some(f));
    SortByLength(records, CreatedKey);
    RaiseOnTop(placed, f);
  }

  /** Lines 177-180 recompute what the map at line 165 already assigned: after
      placement with a focus, raising that focus changes nothing. */
  lemma RefreshIsNoOp(sorted: seq<Note>, f: Id)
    ensures Raise(Place(sorted, Some(f)), f) == Place(sorted, Some(f))
  {
  }

  /** With no focus, a non-empty snapshot focuses its last note in sorted
      order, the newest; no note is raised in that delivery. An empty
      snapshot leaves everything empty. */
  lemma SnapshotDefaultFocus(records: seq<Note>)
    ensures var v := SnapshotView(records, None);
            (records == [] ==> v == View([], None)) &&
            (records != [] ==>
              v.focused == Some(v.notes[|v.notes| - 1].id) &&
              (forall j :: 0 <= j < |records| ==> CreatedKey(records[j]) <= CreatedKey(v.notes[|v.notes| - 1])) &&
              forall i :: 0 <= i < |v.notes| ==> v.notes[i].zIndex == v.notes[i].originalZIndex)
  {
    SortByLength(records, CreatedKey);
    if records != [] {
      var v := SnapshotView(records, None);
      var sorted := SortBy(records, CreatedKey);
      SortByLast(records, CreatedKey);
      SnapshotAt(records, None, |records| - 1);
      assert v.notes[|v.notes| - 1].createdAt == Unplaced(v.notes[|v.notes| - 1]).createdAt;
    }
  }

  /** The focus chosen by a delivery is kept by the next delivery of the same
      records (the listener re-runs whenever the focus changes), and from then
      on the view is a fixed point that differs from the first one only in
      `zIndex`. */
  lemma SnapshotSettles(records: seq<Note>, focused: Option<Id>)
    ensures var v1 := SnapshotView(records, focused);
            var v2 := SnapshotView(records, v1.focused);
            v2.focused == v1.focused &&
            SnapshotView(records, v2.focused) == v2 &&
            |v2.notes| == |v1.notes| &&
            forall i :: 0 <= i < |v1.notes| ==> v2.notes[i].(zIndex := v1.notes[i].zIndex) == v1.notes[i]
  {
  }

  /** Identifiers stay unique through reconciliation. */
  lemma SnapshotUniqueIds(records: seq<Note>, focused: Option<Id>)
    requires UniqueIds(records)
    ensures UniqueIds(SnapshotView(records, focused).notes)
  {
    var v := SnapshotView(records, focused);
    var sorted := SortBy(records, CreatedKey);
    SortByPermutation(records, CreatedKey);
    assert Ids(v.notes) == Ids(sorted) by {
      forall i | 0 <= i < |sorted| ensures Ids(v.notes)[i] == Ids(sorted)[i] {
        SnapshotAt(records, focused, i);
        assert v.notes[i].id == Unplaced(v.notes[i]).id;
      }
    }
    MapPreservesMultiset(IdOf, sorted, records);
    DistinctPermutation(Ids(records), Ids(sorted));
  }
}
