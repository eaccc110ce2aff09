/**
 * The notebooks store: the fetched notebooks, the one whose card was
 * pressed (a reference, held as its id) and a loading flag.
 */
module NotebooksStoreModel {
  import opened Common
  import opened NotebookModel

  /** The notebooks' own properties, position by position. */
  function Infos(ns: seq<Notebook>): seq<NotebookSnapshot>
    reads ns
  {
    seq(|ns|, i requires 0 <= i < |ns| reads ns => ns[i].Info())
  }

  /** The nodes a fetched list of snapshots becomes: fresh notebooks with no entries, selection or placeholder. */
  method NewNotebooks(snapshots: seq<NotebookSnapshot>) returns (ns: seq<Notebook>)
    ensures Infos(ns) == snapshots
    ensures forall i :: 0 <= i < |ns| ==> fresh(ns[i]) && ns[i].Valid()
    ensures forall i :: 0 <= i < |ns| ==> ns[i].entries == [] && ns[i].selectedEntry == None && ns[i].entryToAdd == null
  {
    ns := [];
    for k := 0 to |snapshots|
      invariant |ns| == k
      invariant forall i :: 0 <= i < k ==> fresh(ns[i]) && ns[i].Info() == snapshots[i] && ns[i].Valid()
      invariant forall i :: 0 <= i < k ==> ns[i].entries == [] && ns[i].selectedEntry == None && ns[i].entryToAdd == null
    {
      var n := new Notebook(snapshots[k]);
      ns := ns + [n];
    }
  }

  class NotebooksStore {
    var notebooks: seq<Notebook>
    /** The id of the referenced notebook. */
    var selectedNotebook: Option<int>
    var areNotebooksLoading: bool

    /** The store is created from the empty snapshot, which `afterCreate` records. */
    constructor ()
      ensures notebooks == [] && selectedNotebook == None && !areNotebooksLoading
    {
      notebooks := [];
      selectedNotebook := None;
      areNotebooksLoading := false;
    }

    /** `reset`: back to the snapshot taken at creation. */
    method Reset()
      modifies this
      ensures notebooks == [] && selectedNotebook == None && !areNotebooksLoading
    {
      notebooks := [];
      selectedNotebook := None;
      areNotebooksLoading := false;
    }

    /** `handlePressCard(notebook)`: only the selection changes. */
    method HandlePressCard(notebook: int)
      modifies this
      ensures selectedNotebook == Some(notebook)
      ensures notebooks == old(notebooks) && areNotebooksLoading == old(areNotebooksLoading)
    {
      selectedNotebook := Some(notebook);
    }

    /** The part of `reloadNotebooks` before it waits: loading starts and the selection is cleared. */
    method StartReloadNotebooks()
      modifies this
      ensures areNotebooksLoading && selectedNotebook == None
      ensures notebooks == old(notebooks)
    {
      areNotebooksLoading := true;
      selectedNotebook := None;
    }

    /** The part of `reloadNotebooks` after the response: on ok the notebooks become the fetched ones; loading ends. */
    method FinishReloadNotebooks(response: Response<seq<NotebookSnapshot>>) returns (r: Response<seq<NotebookSnapshot>>)
      modifies this
      ensures r == response
      ensures !areNotebooksLoading
      ensures selectedNotebook == old(selectedNotebook)
      ensures response.Problem? ==> notebooks == old(notebooks)
      ensures response.Ok? ==>
        && Infos(notebooks) == response.payload
        && forall i :: 0 <= i < |notebooks| ==> fresh(notebooks[i]) && notebooks[i].entries == [] && notebooks[i].Valid()
    {
      if response.Ok? {
        notebooks := NewNotebooks(response.payload);
      }
      areNotebooksLoading := false;
      r := response;
    }

    /** `reloadNotebooks`: whatever the response, the selection is cleared and loading has ended when it returns. */
    method ReloadNotebooks(response: Response<seq<NotebookSnapshot>>) returns (r: Response<seq<NotebookSnapshot>>)
      modifies this
      ensures r == response
      ensures selectedNotebook == None && !areNotebooksLoading
      ensures response.Problem? ==> notebooks == old(notebooks)
      ensures response.Ok? ==>
        && Infos(notebooks) == response.payload
        && forall i :: 0 <= i < |notebooks| ==> fresh(notebooks[i]) && notebooks[i].entries == [] && notebooks[i].Valid()
    {
      StartReloadNotebooks();
      r := FinishReloadNotebooks(response);
    }
  }
}
