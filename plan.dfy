/**
 * The `Plan` node: its routines, the selected routine (a reference, held
 * here as the id it resolves by) and the placeholder for a routine being
 * written. Each `flow` action receives the API result it waits for.
 */
module PlanModel {
  import opened Common
  import JsArray
  import opened RoutineModel

  /** The properties a plan is created from; a fetched plan has no routines yet. */
  datatype PlanSnapshot = PlanSnapshot(id: int, createdAt: int, updatedAt: int, name: string, description: string, imageUrl: string)

  class Plan {
    const id: int
    var createdAt: int
    var updatedAt: int
    var name: string
    var description: string
    var imageUrl: string
    var routines: seq<Routine>
    /** The id of the referenced routine. */
    var selectedRoutine: Option<int>
    var routineToAdd: Routine?

    /** The placeholder, once there is one, carries the id `prepareRoutineToAdd` gives it and is a node of its own, never one of the listed routines. */
    predicate Valid()
      reads this
    {
      routineToAdd != null ==> routineToAdd.id == -id && routineToAdd !in routines
    }

    constructor (s: PlanSnapshot)
      ensures Valid()
      ensures Info() == s && routines == [] && selectedRoutine == None && routineToAdd == null
    {
      id := s.id;
      createdAt := s.createdAt;
      updatedAt := s.updatedAt;
      name := s.name;
      description := s.description;
      imageUrl := s.imageUrl;
      routines := [];
      selectedRoutine := None;
      routineToAdd := null;
    }

    /** The plan's own properties. */
    function Info(): PlanSnapshot
      reads this
    {
      PlanSnapshot(id, createdAt, updatedAt, name, description, imageUrl)
    }

    /** `favorites`: exactly the favourite routines, in their order. */
    function Favorites(): (r: seq<Routine>)
      reads this, routines
      ensures forall i :: 0 <= i < |r| ==> r[i] in routines && r[i].isFavorite
      ensures forall i :: 0 <= i < |routines| && routines[i].isFavorite ==> routines[i] in r
      ensures JsArray.IsSubsequence(r, routines)
      ensures |r| == RoutineModel.FavoriteCount(routines)
    {
      RoutineModel.Favorites(routines)
    }

    /**
     * `isRoutineToAddSelected`: the selected routine has the placeholder's id.
     * The ensures only rewrites that test through `Valid()`; what it gives
     * is the guarantee `PrepareRoutineToAdd` states with it, that the
     * placeholder it prepares is the selection.
     */
    function IsRoutineToAddSelected(): (selected: bool)
      reads this
      ensures Valid() && routineToAdd != null ==> (selected <==> selectedRoutine == Some(routineToAdd.id))
    {
      selectedRoutine == Some(-id)
    }

    /**
     * `prepareRoutineToAdd`: the placeholder is reset (or created) as an empty,
     * non-favourite routine with id `-id` stamped with the current time, and
     * selected.
     */
    method PrepareRoutineToAdd(now: int)
      requires Valid()
      modifies this, routineToAdd
      ensures Valid()
      ensures routineToAdd != null && routineToAdd.Data() == RoutineSnapshot(-id, now, now, false, "")
      ensures old(routineToAdd) != null ==> routineToAdd == old(routineToAdd)
      ensures old(routineToAdd) == null ==> fresh(routineToAdd)
      ensures IsRoutineToAddSelected()
      ensures id > 0 ==> routineToAdd.id < 0
      ensures routines == old(routines) && Info() == old(Info())
    {
      var snapshot := RoutineSnapshot(-id, now, now, false, "");
      if routineToAdd != null {
        routineToAdd.ApplySnapshot(snapshot);
      } else {
        routineToAdd := new Routine(snapshot);
      }
      selectedRoutine := Some(routineToAdd.id);
    }

    /** `select(routine)`: only the selection changes, possibly to none. */
    method Select(routine: Option<int>)
      modifies this
      ensures selectedRoutine == routine
      ensures routines == old(routines) && routineToAdd == old(routineToAdd) && Info() == old(Info())
    {
      selectedRoutine := routine;
    }

    /** `readFirstRoutines`: asks for the first page; on ok the routines become that page. */
    method ReadFirstRoutines(response: Response<seq<RoutineSnapshot>>) returns (query: PageQuery, r: Response<seq<RoutineSnapshot>>)
      requires Valid()
      modifies this
      ensures Valid()
      ensures query == PageQuery(id, None, PageSize)
      ensures r == response
      ensures response.Problem? ==> routines == old(routines)
      ensures response.Ok? ==> Datas(routines) == response.payload && forall i :: 0 <= i < |routines| ==> fresh(routines[i])
      ensures selectedRoutine == old(selectedRoutine) && routineToAdd == old(routineToAdd) && Info() == old(Info())
    {
      query := PageQuery(id, None, PageSize);
      if response.Ok? {
        routines := NewRoutines(response.payload);
      }
      r := response;
    }

    /**
     * `readMoreRoutines`: asks for the page after the last routine's creation
     * time (no cursor when there are no routines); on ok that page is
     * appended and the routines before it are kept.
     */
    method ReadMoreRoutines(response: Response<seq<RoutineSnapshot>>) returns (query: PageQuery, r: Response<seq<RoutineSnapshot>>)
      requires Valid()
      modifies this
      ensures Valid()
      ensures query == PageQuery(id, if old(routines) == [] then None else Some(old(routines[|routines| - 1].createdAt)), PageSize)
      ensures r == response
      ensures response.Problem? ==> routines == old(routines)
      ensures response.Ok? ==>
        && |routines| == |old(routines)| + |response.payload|
        && routines[..|old(routines)|] == old(routines)
        && Datas(routines[|old(routines)|..]) == response.payload
        && forall i :: |old(routines)| <= i < |routines| ==> fresh(routines[i])
      ensures selectedRoutine == old(selectedRoutine) && routineToAdd == old(routineToAdd) && Info() == old(Info())
    {
      query := PageQuery(id, if routines == [] then None else Some(routines[|routines| - 1].createdAt), PageSize);
      if response.Ok? {
        var page := NewRoutines(response.payload);
        assert (routines + page)[|routines|..] == page;
        routines := routines + page;
      }
      r := response;
    }

    /** `createOneRoutine`: sends the placeholder; on ok the created routine goes to the front. */
    method CreateOneRoutine(response: Response<RoutineSnapshot>) returns (sent: Option<RoutineSnapshot>, r: Response<RoutineSnapshot>)
      requires Valid()
      modifies this
      ensures Valid()
      ensures sent == if old(routineToAdd) == null then None else Some(old(routineToAdd.Data()))
      ensures r == response
      ensures response.Problem? ==> routines == old(routines)
      ensures response.Ok? ==>
        && |routines| == |old(routines)| + 1
        && routines[1..] == old(routines)
        && fresh(routines[0]) && routines[0].Data() == response.payload
      ensures selectedRoutine == old(selectedRoutine) && routineToAdd == old(routineToAdd) && Info() == old(Info())
    {
      sent := if routineToAdd == null then None else Some(routineToAdd.Data());
      if response.Ok? {
        var created := new Routine(response.payload);
        JsArray.SpliceInsert(routines, 0, created);
        routines := JsArray.Splice(routines, 0, 0, [created]);
      }
      r := response;
    }

    /**
     * `updateOneRoutine(routineId, …)`: on ok the routine with that id is replaced,
     * in place, by the updated one. `findIndex` gives -1 for an id that is
     * not there, and the splice then replaces the last routine.
     */
    method UpdateOneRoutine(routineId: int, response: Response<RoutineSnapshot>) returns (updated: Routine?, r: Response<RoutineSnapshot>)
      requires Valid()
      modifies this
      ensures Valid()
      ensures r == response
      ensures response.Problem? ==> routines == old(routines) && updated == null
      ensures response.Ok? ==>
        var i := JsArray.IndexOf(IdsOf(old(routines)), routineId);
        && updated != null && fresh(updated) && updated.Data() == response.payload
        && routines == JsArray.Splice(old(routines), i, 1, [updated])
        && (0 <= i ==> routines == old(routines)[i := updated])
        && (i < 0 && old(routines) != [] ==> routines == old(routines)[|old(routines)| - 1 := updated])
        && (old(routines) == [] ==> routines == [updated])
      ensures selectedRoutine == old(selectedRoutine) && routineToAdd == old(routineToAdd) && Info() == old(Info())
    {
      updated := null;
      if response.Ok? {
        updated := new Routine(response.payload);
        var i := JsArray.IndexOf(IdsOf(routines), routineId);
        if 0 <= i {
          JsArray.SpliceReplace(routines, i, updated);
        } else {
          JsArray.SpliceReplaceMissing(routines, updated);
        }
        routines := JsArray.Splice(routines, i, 1, [updated]);
      }
      r := response;
    }

    /**
     * `deleteOneRoutine`: asks to delete the selected routine; on ok the
     * selection is cleared and the routine with the selected id is removed
     * (the last one when the id is not in the list).
     */
    method DeleteOneRoutine(response: Response<()>) returns (deletedId: int, r: Response<()>)
      requires selectedRoutine.Some?
      requires selectedRoutine.value in IdsOf(routines) || (routineToAdd != null && selectedRoutine.value == routineToAdd.id)
      requires Valid()
      modifies this
      ensures Valid()
      ensures deletedId == old(selectedRoutine).value
      ensures r == response
      ensures response.Problem? ==> routines == old(routines) && selectedRoutine == old(selectedRoutine)
      ensures response.Ok? ==>
        var i := JsArray.IndexOf(IdsOf(old(routines)), deletedId);
        && selectedRoutine == None
        && routines == JsArray.Splice(old(routines), i, 1, [])
        && (0 <= i ==> routines == old(routines)[..i] + old(routines)[i + 1..] && |routines| == |old(routines)| - 1)
        && (i < 0 ==> routines == if old(routines) == [] then [] else old(routines)[..|old(routines)| - 1])
      ensures routineToAdd == old(routineToAdd) && Info() == old(Info())
    {
      deletedId := selectedRoutine.value;
      if response.Ok? {
        ghost var before := routines;
        RemoveRoutineById(deletedId);
        if routineToAdd != null {
          JsArray.SpliceKeepsOut(before, JsArray.IndexOf(IdsOf(before), deletedId), 1, [], routineToAdd);
        }
      }
      r := response;
    }

    /**
     * The ok branch: the selection is cleared and the `splice(index, 1)`
     * removes the routine with that id, where `index` is its `findIndex`.
     */
    method RemoveRoutineById(removedId: int)
      modifies this
      ensures
        var i := JsArray.IndexOf(IdsOf(old(routines)), removedId);
        && selectedRoutine == None
        && routines == JsArray.Splice(old(routines), i, 1, [])
        && (0 <= i ==> routines == old(routines)[..i] + old(routines)[i + 1..] && |routines| == |old(routines)| - 1)
        && (i < 0 ==> routines == if old(routines) == [] then [] else old(routines)[..|old(routines)| - 1])
      ensures routineToAdd == old(routineToAdd) && Info() == old(Info())
    {
      selectedRoutine := None;
      var before := routines;
      var i := JsArray.IndexOf(IdsOf(before), removedId);
      if 0 <= i {
        JsArray.SpliceRemove(before, i);
      } else {
        JsArray.SpliceRemoveMissing(before);
      }
      routines := JsArray.Splice(before, i, 1, []);
    }
  }
}
