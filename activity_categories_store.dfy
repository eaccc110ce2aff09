/** The activity categories store: the fetched categories, held as values. */
module ActivityCategoriesStoreModel {
  import opened Common

  /** An activity category; the node has no behaviour, so it is a value here. */
  datatype ActivityCategory = ActivityCategory(id: int, createdAt: int, updatedAt: int, name: string, imageUrl: string)

  class ActivityCategoriesStore {
    var activityCategories: seq<ActivityCategory>

    /** The store is created from the empty snapshot, which `afterCreate` records. */
    constructor ()
      ensures activityCategories == []
    {
      activityCategories := [];
    }

    /** `reset`: back to the snapshot taken at creation. */
    method Reset()
      modifies this
      ensures activityCategories == []
    {
      activityCategories := [];
    }

    /** `readAllActivityCategories`: on ok the categories become the fetched ones; the response is handed back as it came. */
    method ReadAllActivityCategories(response: Response<seq<ActivityCategory>>) returns (r: Response<seq<ActivityCategory>>)
      modifies this
      ensures r == response
      ensures response.Ok? ==> activityCategories == response.payload
      ensures response.Problem? ==> activityCategories == old(activityCategories)
    {
      if response.Ok? {
        activityCategories := response.payload;
      }
      r := response;
    }
  }
}
