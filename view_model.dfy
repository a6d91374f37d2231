/**
 * The item view model: the items shown, which categories are expanded, the
 * selected item, and the loading, error and progress state of an update.
 */
module ViewModel {
  import opened Wrappers
  import opened Models
  import opened Catalog
  import opened Dao
  import opened Repository
  import opened KotlinText

  /** The expanded set after toggling `category`: removed if present, added otherwise. */
  function Toggle(expanded: set<string>, category: string): (r: set<string>)
    ensures (category in r) != (category in expanded)
    ensures r - {category} == expanded - {category}
  {
    if category in expanded then expanded - {category} else expanded + {category}
  }

  /** Toggling flips the toggled category and no other. */
  lemma ToggleFlips(expanded: set<string>, category: string)
    ensures category in Toggle(expanded, category) <==> category !in expanded
    ensures forall c :: c != category ==> (c in Toggle(expanded, category) <==> c in expanded)
  {
  }

  /** Toggling the same category twice restores the expanded set. */
  lemma {:induction false} ToggleTwice(expanded: set<string>, category: string)
    ensures Toggle(Toggle(expanded, category), category) == expanded
  {
    ToggleFlips(expanded, category);
    ToggleFlips(Toggle(expanded, category), category);
  }

  /** The error text `performUpdate` shows for a failed refresh. */
  function UpdateFailedText(e: ApiError): (r: string)
    ensures |r| >= 15 && r[..15] == "Update failed: "
    ensures e.message.Some? ==> r[15..] == e.message.value
    ensures e.message.None? ==> r == "Update failed: null"
  {
    "Update failed: " + NullableToString(e.message)
  }

  /** The progress pair after a sequence of reports: the last one, or the old pair when none is made. */
  function LastReport(before: (int, int), reports: seq<(int, int)>): (r: (int, int))
    ensures |reports| == 0 ==> r == before
    ensures |reports| > 0 ==> r == reports[|reports| - 1]
    ensures r == before || r in reports
  {
    if |reports| == 0 then before else reports[|reports| - 1]
  }

  class ItemViewModel {
    const repository: ItemRepository
    var items: seq<Item>
    var expandedCategories: set<string>
    var selectedItem: Option<Item>
    var isLoading: bool
    var error: Option<string>
    var progress: (int, int)

    ghost predicate Valid()
      reads this, repository, repository.dao
    {
      repository.Valid()
    }

    /** The initial state: nothing shown, nothing expanded or selected, progress `(0, 100)`. */
    constructor(repository: ItemRepository)
      requires repository.Valid()
      ensures Valid()
      ensures this.repository == repository
      ensures items == [] && expandedCategories == {} && selectedItem == None
      ensures !isLoading && error == None && progress == (0, 100)
    {
      this.repository := repository;
      items := [];
      expandedCategories := {};
      selectedItem := None;
      isLoading := false;
      error := None;
      progress := (0, 100);
    }

    /** The collector started by `init`: the items shown become the table's current rows. */
    method CollectItems()
      requires Valid()
      modifies this
      ensures Valid()
      ensures |items| == |repository.dao.rows|
      ensures forall x :: x in items <==> x.id in repository.dao.rows && repository.dao.rows[x.id] == x
      ensures error == None
      ensures expandedCategories == old(expandedCategories) && selectedItem == old(selectedItem)
      ensures isLoading == old(isLoading) && progress == old(progress)
    {
      error := None;
      var all := repository.GetAllItems();
      items := all;
    }

    /** `checkForUpdates`: the repository's update rule against the stored timestamp. */
    method CheckForUpdates(remote: Result<string, ApiError>) returns (b: bool)
      ensures b == NeedsUpdate(remote, repository.lastUpdate)
      ensures remote.Err? ==> !b
    {
      b := NeedsUpdate(remote, repository.lastUpdate);
    }

    /**
     * `performUpdate`: loading is switched on, the refresh runs with the
     * progress pair following every report, the error is cleared on success
     * or set to the failure message, and loading is switched off whatever
     * the outcome.
     */
    method PerformUpdate(listings: Result<seq<Listing>, ApiError>, getItem: string -> Result<Item, ApiError>,
                         repoInfo: Result<string, ApiError>)
      requires Valid()
      modifies this, repository, repository.dao
      ensures Valid()
      ensures !isLoading
      ensures progress == LastReport(old(progress), RefreshProgress(listings, getItem))
      ensures var outcome := RefreshOutcome(listings, getItem, repoInfo);
              error == if outcome.Refreshed? then None else Some(UpdateFailedText(outcome.error))
      ensures if listings.Ok? && AllFetched(listings.value, getItem)
              then repository.dao.rows == ReplaceAll(map[], FetchedItems(listings.value, getItem, |listings.value|))
              else repository.dao.rows == old(repository.dao.rows)
      ensures repository.lastUpdate ==
                if RefreshOutcome(listings, getItem, repoInfo).Refreshed? then Some(repoInfo.value)
                else old(repository.lastUpdate)
      ensures items == old(items) && expandedCategories == old(expandedCategories)
      ensures selectedItem == old(selectedItem)
    {
      isLoading := true;
      var outcome, reports := repository.RefreshData(listings, getItem, repoInfo);
      if |reports| > 0 {
        progress := reports[|reports| - 1];
      }
      match outcome {
        case Refreshed => error := None;
        case Failed(e) => error := Some(UpdateFailedText(e));
      }
      isLoading := false;
    }

    /** `getItemById`: the row with that id, read through the repository. */
    method GetItemById(id: string) returns (r: Option<Item>)
      requires Valid()
      ensures r == Lookup(repository.dao.rows, id)
      ensures r.Some? ==> r.value.id == id
    {
      r := repository.GetItemById(id);
    }

    /** `toggleCategoryExpansion`. */
    method ToggleCategoryExpansion(category: string)
      modifies this
      ensures expandedCategories == Toggle(old(expandedCategories), category)
      ensures items == old(items) && selectedItem == old(selectedItem)
      ensures isLoading == old(isLoading) && error == old(error) && progress == old(progress)
    {
      expandedCategories := Toggle(expandedCategories, category);
    }

    /** `expandAllCategories`: exactly the categories of the current items are expanded. */
    method ExpandAllCategories()
      modifies this
      ensures expandedCategories == CategorySet(items)
      ensures items == old(items) && selectedItem == old(selectedItem)
      ensures isLoading == old(isLoading) && error == old(error) && progress == old(progress)
    {
      expandedCategories := CategorySet(items);
    }

    /** `collapseAllCategories`: nothing is expanded. */
    method CollapseAllCategories()
      modifies this
      ensures expandedCategories == {}
      ensures items == old(items) && selectedItem == old(selectedItem)
      ensures isLoading == old(isLoading) && error == old(error) && progress == old(progress)
    {
      expandedCategories := {};
    }

    /** `selectItem`. */
    method SelectItem(item: Item)
      modifies this
      ensures selectedItem == Some(item)
      ensures items == old(items) && expandedCategories == old(expandedCategories)
      ensures isLoading == old(isLoading) && error == old(error) && progress == old(progress)
    {
      selectedItem := Some(item);
    }

    /** `clearSelectedItem`. */
    method ClearSelectedItem()
      modifies this
      ensures selectedItem == None
      ensures items == old(items) && expandedCategories == old(expandedCategories)
      ensures isLoading == old(isLoading) && error == old(error) && progress == old(progress)
    {
      selectedItem := None;
    }
  }
}
