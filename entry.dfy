/**
 * The `Entry` node: a notebook entry with its text, its favourite flag and
 * three loading flags. Its identifier never changes once the node exists.
 */
module EntryModel {
  import JsArray

  /** The properties an entry is created from or reset to; the loading flags are left to their defaults. */
  datatype EntrySnapshot = EntrySnapshot(id: int, createdAt: int, updatedAt: int, isFavorite: bool, text: string)

  class Entry {
    /** `types.identifierNumber`: fixed when the node is created. */
    const id: int
    var createdAt: int
    var updatedAt: int
    var isFavorite: bool
    var text: string
    var isFavoriteLoading: bool
    var isDeleteLoading: bool
    var isDoneLoading: bool

    /** `EntryModel.create(snapshot)`: the loading flags take their default, false. */
    constructor (s: EntrySnapshot)
      ensures Data() == s
      ensures !isFavoriteLoading && !isDeleteLoading && !isDoneLoading
    {
      id := s.id;
      createdAt := s.createdAt;
      updatedAt := s.updatedAt;
      isFavorite := s.isFavorite;
      text := s.text;
      isFavoriteLoading := false;
      isDeleteLoading := false;
      isDoneLoading := false;
    }

    /** The entry's stored properties, without the loading flags. */
    function Data(): EntrySnapshot
      reads this
    {
      EntrySnapshot(id, createdAt, updatedAt, isFavorite, text)
    }

    /** `isBeingCreated`: placeholders for a new entry carry a negative id. */
    predicate IsBeingCreated()
    {
      id < 0
    }

    /** Only the text changes. */
    method SetText(text: string)
      modifies this
      ensures this.text == text
      ensures createdAt == old(createdAt) && updatedAt == old(updatedAt) && isFavorite == old(isFavorite)
      ensures isFavoriteLoading == old(isFavoriteLoading) && isDeleteLoading == old(isDeleteLoading)
      ensures isDoneLoading == old(isDoneLoading)
    {
      this.text := text;
    }

    /**
     * `applySnapshot(entry, s)`: every property takes the snapshot's value and
     * the properties the snapshot leaves out return to their defaults. The
     * identifier cannot be changed this way.
     */
    method ApplySnapshot(s: EntrySnapshot)
      requires s.id == id
      modifies this
      ensures Data() == s
      ensures !isFavoriteLoading && !isDeleteLoading && !isDoneLoading
    {
      createdAt := s.createdAt;
      updatedAt := s.updatedAt;
      isFavorite := s.isFavorite;
      text := s.text;
      isFavoriteLoading := false;
      isDeleteLoading := false;
      isDoneLoading := false;
    }
  }

  /** The ids of a list of entries, position by position. */
  function IdsOf(es: seq<Entry>): seq<int>
  {
    seq(|es|, i requires 0 <= i < |es| => es[i].id)
  }

  /** The stored properties of a list of entries, position by position. */
  function Datas(es: seq<Entry>): seq<EntrySnapshot>
    reads es
  {
    seq(|es|, i requires 0 <= i < |es| reads es => es[i].Data())
  }

  /** How many positions of the list hold a favourite. */
  function FavoriteCount(es: seq<Entry>): nat
    reads es
    decreases |es|
  {
    if es == [] then 0 else (if es[0].isFavorite then 1 else 0) + FavoriteCount(es[1..])
  }

  /** `entries.filter(entry => entry.isFavorite)`: exactly the favourite entries, in their order. */
  function Favorites(es: seq<Entry>): (r: seq<Entry>)
    reads es
    ensures forall i :: 0 <= i < |r| ==> r[i] in es && r[i].isFavorite
    ensures forall i :: 0 <= i < |es| && es[i].isFavorite ==> es[i] in r
    ensures JsArray.IsSubsequence(r, es)
    ensures |r| == FavoriteCount(es)
  {
    if es == [] then []
    else if es[0].isFavorite then
      assert ([es[0]] + Favorites(es[1..]))[1..] == Favorites(es[1..]);
      [es[0]] + Favorites(es[1..])
    else Favorites(es[1..])
  }

  /** The nodes a fetched page of snapshots becomes: fresh entries, one per snapshot, in order. */
  method NewEntries(page: seq<EntrySnapshot>) returns (es: seq<Entry>)
    ensures Datas(es) == page
    ensures forall i :: 0 <= i < |es| ==> fresh(es[i])
    ensures forall i :: 0 <= i < |es| ==> !es[i].isFavoriteLoading && !es[i].isDeleteLoading && !es[i].isDoneLoading
  {
    es := [];
    for k := 0 to |page|
      invariant |es| == k
      invariant forall i :: 0 <= i < k ==> fresh(es[i]) && es[i].Data() == page[i]
      invariant forall i :: 0 <= i < k ==> !es[i].isFavoriteLoading && !es[i].isDeleteLoading && !es[i].isDoneLoading
    {
      var e := new Entry(page[k]);
      es := es + [e];
    }
  }
}
