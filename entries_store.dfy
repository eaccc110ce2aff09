/**
 * The older entries store: one page of entries of a notebook, and the
 * favourites among them.
 */
module EntriesStoreModel {
  import opened Common
  import JsArray
  import opened EntryModel

  /** What `readManyEntriesPaginated` asks for: a notebook, a page number and a page size. */
  datatype PageRequest = PageRequest(notebookId: int, page: nat, take: nat)

  class EntriesStore {
    var entries: seq<Entry>

    constructor ()
      ensures entries == []
    {
      entries := [];
    }

    /** `favorites`: exactly the favourite entries, in their order. */
    function Favorites(): (r: seq<Entry>)
      reads this, entries
      ensures forall i :: 0 <= i < |r| ==> r[i] in entries && r[i].isFavorite
      ensures forall i :: 0 <= i < |entries| && entries[i].isFavorite ==> entries[i] in r
      ensures JsArray.IsSubsequence(r, entries)
      ensures |r| == EntryModel.FavoriteCount(entries)
    {
      EntryModel.Favorites(entries)
    }

    /** `readManyEntriesPaginated(notebookId)`: asks for page 1 of 10; on ok the entries become that page, otherwise only an error is logged. */
    method ReadManyEntriesPaginated(notebookId: int, response: Response<seq<EntrySnapshot>>) returns (request: PageRequest)
      modifies this
      ensures request == PageRequest(notebookId, 1, PageSize)
      ensures response.Problem? ==> entries == old(entries)
      ensures response.Ok? ==> Datas(entries) == response.payload && forall i :: 0 <= i < |entries| ==> fresh(entries[i])
    {
      request := PageRequest(notebookId, 1, PageSize);
      if response.Ok? {
        entries := NewEntries(response.payload);
      }
    }

    /** `toggleFavorite(entry)`: only logs, so it has no frame and changes neither the list nor the entry. */
    method ToggleFavorite(entry: Entry)
      ensures entries == old(entries)
      ensures entry.isFavorite == old(entry.isFavorite) && entry.Data() == old(entry.Data())
    {
    }
  }
}
