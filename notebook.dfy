/**
 * The `Notebook` node: its entries, the selected entry (a reference, held
 * here as the id it resolves by) and the placeholder for an entry being
 * written. Each `flow` action receives the API result it waits for.
 */
module NotebookModel {
  import opened Common
  import JsArray
  import opened EntryModel

  /** The properties a notebook is created from; a fetched notebook has no entries yet. */
  datatype NotebookSnapshot = NotebookSnapshot(id: int, createdAt: int, updatedAt: int, name: string, description: string, imageUrl: string)

  class Notebook {
    const id: int
    var createdAt: int
    var updatedAt: int
    var name: string
    var description: string
    var imageUrl: string
    var entries: seq<Entry>
    /** The id of the referenced entry. */
    var selectedEntry: Option<int>
    var entryToAdd: Entry?

    /** The placeholder, once there is one, carries the id `prepareEntryToAdd` gives it and is a node of its own, never one of the listed entries. */
    predicate Valid()
      reads this
    {
      entryToAdd != null ==> entryToAdd.id == -id && entryToAdd !in entries
    }

    constructor (s: NotebookSnapshot)
      ensures Valid()
      ensures Info() == s && entries == [] && selectedEntry == None && entryToAdd == null
    {
      id := s.id;
      createdAt := s.createdAt;
      updatedAt := s.updatedAt;
      name := s.name;
      description := s.description;
      imageUrl := s.imageUrl;
      entries := [];
      selectedEntry := None;
      entryToAdd := null;
    }

    /** The notebook's own properties. */
    function Info(): NotebookSnapshot
      reads this
    {
      NotebookSnapshot(id, createdAt, updatedAt, name, description, imageUrl)
    }

    /** `favorites`: exactly the favourite entries, in their order. */
    function Favorites(): (r: seq<Entry>)
      reads this, entries
      ensures forall i :: 0 <= i < |r| ==> r[i] in entries && r[i].isFavorite
      ensures forall i :: 0 <= i < |entries| && entries[i].isFavorite ==> entries[i] in r
      ensures JsArray.IsSubsequence(r, entries)
      ensures |r| == EntryModel.FavoriteCount(entries)
    {
      EntryModel.Favorites(entries)
    }

    /**
     * `isEntryToAddSelected`: the selected entry has the placeholder's id.
     * The ensures only rewrites that test through `Valid()`; what it gives
     * is the guarantee `PrepareEntryToAdd` states with it, that the
     * placeholder it prepares is the selection.
     */
    function IsEntryToAddSelected(): (selected: bool)
      reads this
      ensures Valid() && entryToAdd != null ==> (selected <==> selectedEntry == Some(entryToAdd.id))
    {
      selectedEntry == Some(-id)
    }

    /**
     * `prepareEntryToAdd`: the placeholder is reset (or created) as an empty,
     * non-favourite entry with id `-id` stamped with the current time, and
     * selected.
     */
    method PrepareEntryToAdd(now: int)
      requires Valid()
      modifies this, entryToAdd
      ensures Valid()
      ensures entryToAdd != null && entryToAdd.Data() == EntrySnapshot(-id, now, now, false, "")
      ensures !entryToAdd.isFavoriteLoading && !entryToAdd.isDeleteLoading && !entryToAdd.isDoneLoading
      ensures old(entryToAdd) != null ==> entryToAdd == old(entryToAdd)
      ensures old(entryToAdd) == null ==> fresh(entryToAdd)
      ensures IsEntryToAddSelected()
      ensures id > 0 ==> entryToAdd.IsBeingCreated()
      ensures entries == old(entries) && Info() == old(Info())
    {
      var snapshot := EntrySnapshot(-id, now, now, false, "");
      if entryToAdd != null {
        entryToAdd.ApplySnapshot(snapshot);
      } else {
        entryToAdd := new Entry(snapshot);
      }
      selectedEntry := Some(entryToAdd.id);
    }

    /** `select(entry)`: only the selection changes, possibly to none. */
    method Select(entry: Option<int>)
      modifies this
      ensures selectedEntry == entry
      ensures entries == old(entries) && entryToAdd == old(entryToAdd) && Info() == old(Info())
    {
      selectedEntry := entry;
    }

    /** `readFirstEntries`: asks for the first page; on ok the entries become that page. */
    method ReadFirstEntries(response: Response<seq<EntrySnapshot>>) returns (query: PageQuery, r: Response<seq<EntrySnapshot>>)
      requires Valid()
      modifies this
      ensures Valid()
      ensures query == PageQuery(id, None, PageSize)
      ensures r == response
      ensures response.Problem? ==> entries == old(entries)
      ensures response.Ok? ==> Datas(entries) == response.payload && forall i :: 0 <= i < |entries| ==> fresh(entries[i])
      ensures selectedEntry == old(selectedEntry) && entryToAdd == old(entryToAdd) && Info() == old(Info())
    {
      query := PageQuery(id, None, PageSize);
      if response.Ok? {
        entries := NewEntries(response.payload);
      }
      r := response;
    }

    /**
     * `readMoreEntries`: asks for the page after the last entry's creation
     * time (no cursor when there are no entries); on ok that page is
     * appended and the entries before it are kept.
     */
    method ReadMoreEntries(response: Response<seq<EntrySnapshot>>) returns (query: PageQuery, r: Response<seq<EntrySnapshot>>)
      requires Valid()
      modifies this
      ensures Valid()
      ensures query == PageQuery(id, if old(entries) == [] then None else Some(old(entries[|entries| - 1].createdAt)), PageSize)
      ensures r == response
      ensures response.Problem? ==> entries == old(entries)
      ensures response.Ok? ==>
        && |entries| == |old(entries)| + |response.payload|
        && entries[..|old(entries)|] == old(entries)
        && Datas(entries[|old(entries)|..]) == response.payload
        && forall i :: |old(entries)| <= i < |entries| ==> fresh(entries[i])
      ensures selectedEntry == old(selectedEntry) && entryToAdd == old(entryToAdd) && Info() == old(Info())
    {
      query := PageQuery(id, if entries == [] then None else Some(entries[|entries| - 1].createdAt), PageSize);
      if response.Ok? {
        var page := NewEntries(response.payload);
        assert (entries + page)[|entries|..] == page;
        entries := entries + page;
      }
      r := response;
    }

    /** `createOneEntry`: sends the placeholder; on ok the created entry goes to the front. */
    method CreateOneEntry(response: Response<EntrySnapshot>) returns (sent: Option<EntrySnapshot>, r: Response<EntrySnapshot>)
      requires Valid()
      modifies this
      ensures Valid()
      ensures sent == if old(entryToAdd) == null then None else Some(old(entryToAdd.Data()))
      ensures r == response
      ensures response.Problem? ==> entries == old(entries)
      ensures response.Ok? ==>
        && |entries| == |old(entries)| + 1
        && entries[1..] == old(entries)
        && fresh(entries[0]) && entries[0].Data() == response.payload
      ensures selectedEntry == old(selectedEntry) && entryToAdd == old(entryToAdd) && Info() == old(Info())
    {
      sent := if entryToAdd == null then None else Some(entryToAdd.Data());
      if response.Ok? {
        var created := new Entry(response.payload);
        JsArray.SpliceInsert(entries, 0, created);
        entries := JsArray.Splice(entries, 0, 0, [created]);
      }
      r := response;
    }

    /**
     * `updateOneEntry(entryId, …)`: on ok the entry with that id is replaced,
     * in place, by the updated one. `findIndex` gives -1 for an id that is
     * not there, and the splice then replaces the last entry.
     */
    method UpdateOneEntry(entryId: int, response: Response<EntrySnapshot>) returns (updated: Entry?, r: Response<EntrySnapshot>)
      requires Valid()
      modifies this
      ensures Valid()
      ensures r == response
      ensures response.Problem? ==> entries == old(entries) && updated == null
      ensures response.Ok? ==>
        var i := JsArray.IndexOf(IdsOf(old(entries)), entryId);
        && updated != null && fresh(updated) && updated.Data() == response.payload
        && entries == JsArray.Splice(old(entries), i, 1, [updated])
        && (0 <= i ==> entries == old(entries)[i := updated])
        && (i < 0 && old(entries) != [] ==> entries == old(entries)[|old(entries)| - 1 := updated])
        && (old(entries) == [] ==> entries == [updated])
      ensures selectedEntry == old(selectedEntry) && entryToAdd == old(entryToAdd) && Info() == old(Info())
    {
      updated := null;
      if response.Ok? {
        updated := new Entry(response.payload);
        var i := JsArray.IndexOf(IdsOf(entries), entryId);
        if 0 <= i {
          JsArray.SpliceReplace(entries, i, updated);
        } else {
          JsArray.SpliceReplaceMissing(entries, updated);
        }
        entries := JsArray.Splice(entries, i, 1, [updated]);
      }
      r := response;
    }

    /**
     * `deleteOneEntry`: asks to delete the selected entry; on ok the
     * selection is cleared and the entry with the selected id is removed
     * (the last one when the id is not in the list).
     */
    method DeleteOneEntry(response: Response<()>) returns (deletedId: int, r: Response<()>)
      requires selectedEntry.Some?
      requires selectedEntry.value in IdsOf(entries) || (entryToAdd != null && selectedEntry.value == entryToAdd.id)
      requires Valid()
      modifies this
      ensures Valid()
      ensures deletedId == old(selectedEntry).value
      ensures r == response
      ensures response.Problem? ==> entries == old(entries) && selectedEntry == old(selectedEntry)
      ensures response.Ok? ==>
        var i := JsArray.IndexOf(IdsOf(old(entries)), deletedId);
        && selectedEntry == None
        && entries == JsArray.Splice(old(entries), i, 1, [])
        && (0 <= i ==> entries == old(entries)[..i] + old(entries)[i + 1..] && |entries| == |old(entries)| - 1)
        && (i < 0 ==> entries == if old(entries) == [] then [] else old(entries)[..|old(entries)| - 1])
      ensures entryToAdd == old(entryToAdd) && Info() == old(Info())
    {
      deletedId := selectedEntry.value;
      if response.Ok? {
        ghost var before := entries;
        RemoveEntryById(deletedId);
        if entryToAdd != null {
          JsArray.SpliceKeepsOut(before, JsArray.IndexOf(IdsOf(before), deletedId), 1, [], entryToAdd);
        }
      }
      r := response;
    }

    /**
     * The ok branch: the selection is cleared and the `splice(index, 1)`
     * removes the entry with that id, where `index` is its `findIndex`.
     */
    method RemoveEntryById(removedId: int)
      modifies this
      ensures
        var i := JsArray.IndexOf(IdsOf(old(entries)), removedId);
        && selectedEntry == None
        && entries == JsArray.Splice(old(entries), i, 1, [])
        && (0 <= i ==> entries == old(entries)[..i] + old(entries)[i + 1..] && |entries| == |old(entries)| - 1)
        && (i < 0 ==> entries == if old(entries) == [] then [] else old(entries)[..|old(entries)| - 1])
      ensures entryToAdd == old(entryToAdd) && Info() == old(Info())
    {
      selectedEntry := None;
      var before := entries;
      var i := JsArray.IndexOf(IdsOf(before), removedId);
      if 0 <= i {
        JsArray.SpliceRemove(before, i);
      } else {
        JsArray.SpliceRemoveMissing(before);
      }
      entries := JsArray.Splice(before, i, 1, []);
    }
  }
}
