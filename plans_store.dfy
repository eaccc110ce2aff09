/**
 * The plans store: the fetched plans and the selected one (a reference,
 * held as its id).
 */
module PlansStoreModel {
  import opened Common
  import JsArray
  import opened PlanModel

  /** The plans' own properties, position by position. */
  function Infos(ps: seq<Plan>): seq<PlanSnapshot>
    reads ps
  {
    seq(|ps|, i requires 0 <= i < |ps| reads ps => ps[i].Info())
  }

  /** The ids of a list of plans, position by position. */
  function PlanIds(ps: seq<Plan>): seq<int>
  {
    seq(|ps|, i requires 0 <= i < |ps| => ps[i].id)
  }

  /** The nodes a fetched list of snapshots becomes: fresh plans with no routines, selection or placeholder. */
  method NewPlans(snapshots: seq<PlanSnapshot>) returns (ps: seq<Plan>)
    ensures Infos(ps) == snapshots
    ensures forall i :: 0 <= i < |ps| ==> fresh(ps[i]) && ps[i].Valid()
    ensures forall i :: 0 <= i < |ps| ==> ps[i].routines == [] && ps[i].selectedRoutine == None && ps[i].routineToAdd == null
  {
    ps := [];
    for k := 0 to |snapshots|
      invariant |ps| == k
      invariant forall i :: 0 <= i < k ==> fresh(ps[i]) && ps[i].Info() == snapshots[i] && ps[i].Valid()
      invariant forall i :: 0 <= i < k ==> ps[i].routines == [] && ps[i].selectedRoutine == None && ps[i].routineToAdd == null
    {
      var p := new Plan(snapshots[k]);
      ps := ps + [p];
    }
  }

  class PlansStore {
    var plans: seq<Plan>
    /** The id of the referenced plan. */
    var selectedPlan: Option<int>

    /** The store is created from the empty snapshot, which `afterCreate` records. */
    constructor ()
      ensures plans == [] && selectedPlan == None
    {
      plans := [];
      selectedPlan := None;
    }

    /** `reset`: back to the snapshot taken at creation. */
    method Reset()
      modifies this
      ensures plans == [] && selectedPlan == None
    {
      plans := [];
      selectedPlan := None;
    }

    /** `select(plan)`: only the selection changes. */
    method Select(plan: int)
      modifies this
      ensures selectedPlan == Some(plan)
      ensures plans == old(plans)
    {
      selectedPlan := Some(plan);
    }

    /** `readAllPlans`: on ok the plans become the fetched ones. */
    method ReadAllPlans(response: Response<seq<PlanSnapshot>>) returns (r: Response<seq<PlanSnapshot>>)
      modifies this
      ensures r == response
      ensures selectedPlan == old(selectedPlan)
      ensures response.Problem? ==> plans == old(plans)
      ensures response.Ok? ==>
        && Infos(plans) == response.payload
        && forall i :: 0 <= i < |plans| ==> fresh(plans[i]) && plans[i].routines == [] && plans[i].Valid()
    {
      if response.Ok? {
        plans := NewPlans(response.payload);
      }
      r := response;
    }

    /**
     * `updateOnePlan(planId, …)`: on ok the plan with that id is replaced, in
     * place, by the updated one; for an id that is not there `findIndex`
     * gives -1 and the last plan is replaced.
     */
    method UpdateOnePlan(planId: int, response: Response<PlanSnapshot>) returns (updated: Plan?, r: Response<PlanSnapshot>)
      modifies this
      ensures r == response
      ensures selectedPlan == old(selectedPlan)
      ensures response.Problem? ==> plans == old(plans) && updated == null
      ensures response.Ok? ==>
        var i := JsArray.IndexOf(PlanIds(old(plans)), planId);
        && updated != null && fresh(updated) && updated.Info() == response.payload && updated.routines == []
        && plans == JsArray.Splice(old(plans), i, 1, [updated])
        && (0 <= i ==> plans == old(plans)[i := updated])
        && (i < 0 && old(plans) != [] ==> plans == old(plans)[|old(plans)| - 1 := updated])
        && (old(plans) == [] ==> plans == [updated])
    {
      updated := null;
      if response.Ok? {
        updated := new Plan(response.payload);
        var before := plans;
        var i := JsArray.IndexOf(PlanIds(before), planId);
        if 0 <= i {
          JsArray.SpliceReplace(before, i, updated);
        } else {
          JsArray.SpliceReplaceMissing(before, updated);
        }
        plans := JsArray.Splice(before, i, 1, [updated]);
      }
      r := response;
    }
  }
}
