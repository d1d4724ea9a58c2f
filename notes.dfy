/** The note record and the list operations the handlers use on the
    in-memory note list (src/App.js). */
module Notes {
  import opened Palette
  import opened Seqs

  datatype Option<T> = None | Some(value: T)

  /** A document identifier, assigned by the store. */
  type Id = string

  /** A note document. `x`, `y` are absent on legacy records; `createdAt` and
      `updatedAt` are timestamps in milliseconds, absent when never written;
      `zIndex` and `originalZIndex` are derived by reconciliation. */
  datatype Note = Note(
    id: Id,
    text: string,
    noteColor: NoteColor,
    fontColor: FontColor,
    fontSize: FontSize,
    isStruckThrough: bool,
    x: Option<int>,
    y: Option<int>,
    createdAt: Option<int>,
    updatedAt: Option<int>,
    zIndex: int,
    originalZIndex: int)

  function IdOf(n: Note): Id { n.id }

  /** The identifiers of a list, in order. */
  function Ids(s: seq<Note>): (r: seq<Id>)
    ensures |r| == |s| && forall i :: 0 <= i < |s| ==> r[i] == s[i].id
  {
    Map(IdOf, s)
  }

  /** No two notes of the list share an identifier (true of every list the
      store delivers, since identifiers are document keys). */
  predicate UniqueIds(s: seq<Note>) { Distinct(Ids(s)) }

  predicate HasId(s: seq<Note>, id: Id) {
    exists i :: 0 <= i < |s| && s[i].id == id
  }

  /** `notes.find(n => n.id === id)`: the first note with that identifier. */
  function Find(s: seq<Note>, id: Id): (r: Option<Note>)
    ensures r.Some? <==> HasId(s, id)
    ensures r.Some? ==> exists i :: 0 <= i < |s| && s[i] == r.value && r.value.id == id &&
                                    forall j :: 0 <= j < i ==> s[j].id != id
  {
    if s == [] then None
    else if s[0].id == id then Some(s[0])
    else
      var r := Find(s[1..], id);
      assert HasId(s[1..], id) ==> HasId(s, id) by {
        if HasId(s[1..], id) {
          var i :| 0 <= i < |s[1..]| && s[1..][i].id == id;
          assert s[i + 1].id == id;
        }
      }
      assert HasId(s, id) ==> HasId(s[1..], id) by {
        if HasId(s, id) {
          var i :| 0 <= i < |s| && s[i].id == id;
          assert i > 0 && s[1..][i - 1].id == id;
        }
      }
      assert r.Some? ==> exists i :: 0 <= i < |s| && s[i] == r.value && r.value.id == id &&
                                     forall j :: 0 <= j < i ==> s[j].id != id by {
        if r.Some? {
          var i :| 0 <= i < |s[1..]| && s[1..][i] == r.value && r.value.id == id &&
                   forall j :: 0 <= j < i ==> s[1..][j].id != id;
          assert s[i + 1] == r.value;
          forall j | 0 <= j < i + 1 ensures s[j].id != id {
            if j > 0 { assert s[j] == s[1..][j - 1]; }
          }
        }
      }
      r
  }

  /** `notes.filter(n => n.id !== id)`: every note with another identifier,
      each occurrence kept. */
  function Without(s: seq<Note>, id: Id): (r: seq<Note>)
    ensures forall n :: n in r <==> n in s && n.id != id
    ensures |r| <= |s|
  {
    if s == [] then []
    else
      assert s == [s[0]] + s[1..];
      if s[0].id == id then Without(s[1..], id) else [s[0]] + Without(s[1..], id)
  }

  /** `filter` keeps every occurrence of a note with another identifier, and
      none of a note with the identifier. */
  lemma {:induction false} WithoutCounts(s: seq<Note>, id: Id)
    ensures forall n :: multiset(Without(s, id))[n] == if n.id == id then 0 else multiset(s)[n]
  {
    if s != [] {
      assert s == [s[0]] + s[1..];
      WithoutCounts(s[1..], id);
    }
  }

  /** `filter` keeps the order: it works element by element, dropping a note
      with the identifier and keeping any other. */
  lemma {:induction false} WithoutConcat(a: seq<Note>, b: seq<Note>, id: Id)
    ensures Without(a + b, id) == Without(a, id) + Without(b, id)
    ensures forall n :: Without([n], id) == if n.id == id then [] else [n]
  {
    if a != [] {
      assert (a + b)[1..] == a[1..] + b;
      WithoutConcat(a[1..], b, id);
    } else {
      assert a + b == b;
    }
  }

  /** Every note with identifier `id` replaced by `n`. */
  function Replace(s: seq<Note>, id: Id, n: Note): seq<Note> {
    seq(|s|, i requires 0 <= i < |s| => if s[i].id == id then n else s[i])
  }

  /** Every note with identifier `id` moved to (`nx`, `ny`) and stamped `at`:
      the optimistic update of a drag (src/App.js:373-374). */
  function Move(s: seq<Note>, id: Id, nx: int, ny: int, at: int): (r: seq<Note>)
    ensures |r| == |s| && Ids(r) == Ids(s)
    ensures forall i :: 0 <= i < |s| && s[i].id != id ==> r[i] == s[i]
    ensures forall i :: 0 <= i < |s| && s[i].id == id ==>
              r[i].x == Some(nx) && r[i].y == Some(ny) && r[i].updatedAt == Some(at) &&
              r[i].(x := s[i].x, y := s[i].y, updatedAt := s[i].updatedAt) == s[i]
  {
    seq(|s|, i requires 0 <= i < |s| =>
      if s[i].id == id then s[i].(x := Some(nx), y := Some(ny), updatedAt := Some(at)) else s[i])
  }

  /** Rolling a drag back by putting the pre-drag record in place of the moved
      one gives back the list as it was, when identifiers are unique. */
  lemma MoveRollback(s: seq<Note>, k: nat, nx: int, ny: int, at: int)
    requires UniqueIds(s) && k < |s|
    ensures Replace(Move(s, s[k].id, nx, ny, at), s[k].id, s[k]) == s
  {
    var r := Replace(Move(s, s[k].id, nx, ny, at), s[k].id, s[k]);
    forall i | 0 <= i < |s| ensures r[i] == s[i] {
      assert Ids(s)[i] == s[i].id && Ids(s)[k] == s[k].id;
    }
  }

  /** The characters JavaScript's `String.prototype.trim` removes: white space
      and line terminators of the ECMAScript standard (section 12.2 and 12.3 of
      ECMA-262), including the Unicode space separators. */
  predicate IsWhitespace(c: char) {
    c == '\t' || c == '\n' || c == '\r' || c == ' ' ||
    c == '\U{000B}' || c == '\U{000C}' || c == '\U{00A0}' || c == '\U{FEFF}' ||
    c == '\U{1680}' || ('\U{2000}' <= c <= '\U{200A}') || c == '\U{2028}' || c == '\U{2029}' ||
    c == '\U{202F}' || c == '\U{205F}' || c == '\U{3000}'
  }

  /** `!text.trim()`: the text is empty once trimmed. */
  predicate IsBlank(text: string) {
    forall i :: 0 <= i < |text| ==> IsWhitespace(text[i])
  }
}
