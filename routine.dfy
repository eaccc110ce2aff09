/**
 * The `Routine` node: a routine of a plan, with its text and its favourite
 * flag. Its identifier never changes once the node exists.
 */
module RoutineModel {
  import JsArray

  /** The properties a routine is created from or reset to. */
  datatype RoutineSnapshot = RoutineSnapshot(id: int, createdAt: int, updatedAt: int, isFavorite: bool, text: string)

  class Routine {
    /** `types.identifierNumber`: fixed when the node is created. */
    const id: int
    var createdAt: int
    var updatedAt: int
    var isFavorite: bool
    var text: string

    constructor (s: RoutineSnapshot)
      ensures Data() == s
    {
      id := s.id;
      createdAt := s.createdAt;
      updatedAt := s.updatedAt;
      isFavorite := s.isFavorite;
      text := s.text;
    }

    function Data(): RoutineSnapshot
      reads this
    {
      RoutineSnapshot(id, createdAt, updatedAt, isFavorite, text)
    }

    /** Only the favourite flag changes. */
    method SetIsFavorite(isFavorite: bool)
      modifies this
      ensures this.isFavorite == isFavorite
      ensures text == old(text) && createdAt == old(createdAt) && updatedAt == old(updatedAt)
    {
      this.isFavorite := isFavorite;
    }

    /** Only the text changes. */
    method SetText(text: string)
      modifies this
      ensures this.text == text
      ensures isFavorite == old(isFavorite) && createdAt == old(createdAt) && updatedAt == old(updatedAt)
    {
      this.text := text;
    }

    /** `applySnapshot(routine, s)`: every property takes the snapshot's value; the identifier cannot change. */
    method ApplySnapshot(s: RoutineSnapshot)
      requires s.id == id
      modifies this
      ensures Data() == s
    {
      createdAt := s.createdAt;
      updatedAt := s.updatedAt;
      isFavorite := s.isFavorite;
      text := s.text;
    }
  }

  /** The ids of a list of routines, position by position. */
  function IdsOf(rs: seq<Routine>): seq<int>
  {
    seq(|rs|, i requires 0 <= i < |rs| => rs[i].id)
  }

  /** The stored properties of a list of routines, position by position. */
  function Datas(rs: seq<Routine>): seq<RoutineSnapshot>
    reads rs
  {
    seq(|rs|, i requires 0 <= i < |rs| reads rs => rs[i].Data())
  }

  /** How many positions of the list hold a favourite. */
  function FavoriteCount(rs: seq<Routine>): nat
    reads rs
    decreases |rs|
  {
    if rs == [] then 0 else (if rs[0].isFavorite then 1 else 0) + FavoriteCount(rs[1..])
  }

  /** `routines.filter(routine => routine.isFavorite)`: exactly the favourite routines, in their order. */
  function Favorites(rs: seq<Routine>): (r: seq<Routine>)
    reads rs
    ensures forall i :: 0 <= i < |r| ==> r[i] in rs && r[i].isFavorite
    ensures forall i :: 0 <= i < |rs| && rs[i].isFavorite ==> rs[i] in r
    ensures JsArray.IsSubsequence(r, rs)
    ensures |r| == FavoriteCount(rs)
  {
    if rs == [] then []
    else if rs[0].isFavorite then
      assert ([rs[0]] + Favorites(rs[1..]))[1..] == Favorites(rs[1..]);
      [rs[0]] + Favorites(rs[1..])
    else Favorites(rs[1..])
  }

  /** The nodes a fetched page of snapshots becomes: fresh routines, one per snapshot, in order. */
  method NewRoutines(page: seq<RoutineSnapshot>) returns (rs: seq<Routine>)
    ensures Datas(rs) == page
    ensures forall i :: 0 <= i < |rs| ==> fresh(rs[i])
  {
    rs := [];
    for k := 0 to |page|
      invariant |rs| == k
      invariant forall i :: 0 <= i < k ==> fresh(rs[i]) && rs[i].Data() == page[i]
    {
      var r := new Routine(page[k]);
      rs := rs + [r];
    }
  }
}
