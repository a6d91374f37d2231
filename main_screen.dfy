/**
 * The main screen: the start-up update check, the category sections built
 * from the grouped items, and the update and progress dialogs.
 */
module MainScreen {
  import opened Wrappers
  import opened Models
  import opened Catalog
  import opened Dao
  import opened Repository
  import opened ItemDetailScreen
  import opened ViewModel

  /** What the view model's update check does: answer, or throw. */
  datatype CheckOutcome = Answered(needsUpdate: bool) | Threw

  /**
   * `checkForUpdates`: without network, load cached data and answer false;
   * otherwise ask the view model, answering true only when it reports that an
   * update is needed and loading cached data in every other case. Returns the
   * answer and how often cached data was loaded.
   */
  method CheckForUpdates(netAvailable: bool, check: CheckOutcome) returns (show: bool, loads: nat)
    ensures show <==> netAvailable && check == Answered(true)
    ensures !netAvailable ==> !show
    ensures check == Threw ==> !show
    ensures loads == if show then 0 else 1
  {
    if !netAvailable {
      loads := 1;
      return false, loads;
    }
    loads := 0;
    match check {
      case Answered(needsUpdate) =>
        if needsUpdate {
          return true, loads;
        } else {
          loads := loads + 1;
        }
      case Threw =>
        loads := loads + 1;
    }
    show := false;
  }

  /** What an item card shows: the rarity stripe, the category, the name when there is one, and the id. */
  datatype CardView = CardView(stripe: Argb, category: string, name: Option<string>, id: string)

  /** `ItemCard`: the name line appears only when the name has text. */
  function ItemCard(item: Item): (c: CardView)
    ensures c.stripe == RarityColour(item.color)
    ensures c.category == item.category && c.id == item.id
    ensures c.name.Some? <==> !(item.name.Translation? && item.name.lines.ru.None?)
    ensures item.name.Text? ==> c.name == Some(item.name.text)
    ensures item.name.Translation? ==> c.name == item.name.lines.ru
  {
    CardView(RarityColour(item.color), item.category, Stringify(item.name), item.id)
  }

  /** One entry of an expanded section's column. */
  datatype Entry = Card(view: CardView) | Spacer

  /** A rendered category section. `count` is the "N предметов" label, absent when the section is empty. */
  datatype Section = Section(title: string, count: Option<nat>, expandedIcon: bool, column: seq<Entry>)

  /** The column of an expanded section: item cards in order, with a spacer between each two. */
  function ItemColumn(items: seq<Item>): (entries: seq<Entry>)
    ensures |items| == 0 ==> entries == []
    ensures |items| > 0 ==> |entries| == 2 * |items| - 1
    ensures forall k :: 0 <= k < |items| ==> entries[2 * k] == Card(ItemCard(items[k]))
    ensures forall k :: 0 <= k < |entries| ==> (entries[k].Spacer? <==> k % 2 == 1)
  {
    if |items| <= 1 then seq(|items|, k requires 0 <= k < |items| => Card(ItemCard(items[k])))
    else
      var front := ItemColumn(items[..|items| - 1]);
      assert forall k :: 0 <= k < |items| - 1 ==> items[..|items| - 1][k] == items[k];
      front + [Spacer, Card(ItemCard(items[|items| - 1]))]
  }

  /** The spacers of a section's column are exactly one fewer than its items. */
  lemma {:induction false} SpacerCount(entries: seq<Entry>, n: nat)
    requires n > 0 && |entries| == 2 * n - 1
    requires forall k :: 0 <= k < |entries| ==> (entries[k].Spacer? <==> k % 2 == 1)
    ensures |set k | 0 <= k < |entries| && entries[k].Spacer?| == n - 1
  {
    var spacers := set k | 0 <= k < |entries| && entries[k].Spacer?;
    var odd := set j | 0 <= j < n - 1 :: 2 * j + 1;
    assert spacers == odd by {
      forall k | k in spacers ensures k in odd {
        assert k == 2 * ((k - 1) / 2) + 1;
      }
    }
    OddCount(n - 1);
  }

  /** There are `m` odd numbers below `2m`. */
  lemma {:induction false} OddCount(m: nat)
    ensures |set j | 0 <= j < m :: 2 * j + 1| == m
  {
    if m > 0 {
      OddCount(m - 1);
      var smaller := set j | 0 <= j < m - 1 :: 2 * j + 1;
      var all := set j | 0 <= j < m :: 2 * j + 1;
      assert all == smaller + {2 * (m - 1) + 1};
      assert 2 * (m - 1) + 1 !in smaller;
    }
  }

  /** What `CategorySection` shows for a category, its items and whether it is expanded. */
  ghost predicate ShowsSection(s: Section, category: string, items: seq<Item>, isExpanded: bool)
  {
    && s.title == category
    && s.expandedIcon == isExpanded
    && s.count == (if |items| > 0 then Some(|items|) else None)
    && (s.column != [] <==> isExpanded && |items| > 0)
    && (s.column != [] ==>
          |s.column| == 2 * |items| - 1
          && (forall k :: 0 <= k < |items| ==> s.column[2 * k] == Card(ItemCard(items[k])))
          && (forall k :: 0 <= k < |s.column| ==> (s.column[k].Spacer? <==> k % 2 == 1)))
  }

  /**
   * `CategorySection`: the title, the count label only for a non-empty
   * section, and the item column only when expanded and non-empty.
   */
  function CategorySection(category: string, items: seq<Item>, isExpanded: bool): (s: Section)
    ensures ShowsSection(s, category, items, isExpanded)
    ensures s.count.Some? <==> |items| > 0
    ensures s.column != [] <==> isExpanded && |items| > 0
  {
    Section(category, if |items| > 0 then Some(|items|) else None, isExpanded,
            if isExpanded && |items| > 0 then ItemColumn(items) else [])
  }

  /** The main screen's content: the loading overlay while there are no items, else one section per category. */
  datatype Content = LoadingOverlay | Sections(sections: seq<Section>)

  /**
   * The items list: for each unique category in order, its section with the
   * category's group (an empty list for a category without one) and its
   * expansion flag.
   */
  function MainContent(items: seq<Item>, expanded: set<string>): (content: Content)
    ensures |items| == 0 <==> content == LoadingOverlay
    ensures content.Sections? ==>
              var categories := UniqueCategories(items);
              |content.sections| == |categories|
              && forall i :: 0 <= i < |categories| ==>
                   ShowsSection(content.sections[i], categories[i], Filter(items, categories[i]),
                                categories[i] in expanded)
  {
    if |items| == 0 then LoadingOverlay
    else
      var categories := UniqueCategories(items);
      var groups := GroupBy(items);
      assert forall c :: GroupOrEmpty(groups, c) == Filter(items, c) by {
        forall c ensures GroupOrEmpty(groups, c) == Filter(items, c) {
          GroupOrEmptyIsFilter(items, c);
        }
      }
      Sections(seq(|categories|, i requires 0 <= i < |categories| =>
        CategorySection(categories[i], GroupOrEmpty(groups, categories[i]), categories[i] in expanded)))
  }

  /**
   * The progress dialog opens whenever the count differs from the total: while
   * the reported progress is below its total, and also for a count above it,
   * which the reports `(i+1, total)` never produce.
   */
  function ShowsProgressDialog(progress: (int, int)): (r: bool)
    ensures progress.0 < progress.1 ==> r
    ensures progress.0 > progress.1 ==> r
    ensures progress.0 == progress.1 ==> !r
  {
    progress.0 != progress.1
  }

  /**
   * The main screen's dialog flags. Only a confirmation assigns the progress
   * flag; the progress dialog's own dismiss request does nothing.
   */
  class UpdateDialogs {
    var showUpdateDialog: bool
    var showProgressDialog: bool

    constructor()
      ensures !showUpdateDialog && !showProgressDialog
    {
      showUpdateDialog := false;
      showProgressDialog := false;
    }

    /** The launch effect: the update dialog opens with the answer of the update check. */
    method Launch(netAvailable: bool, check: CheckOutcome)
      modifies this
      ensures showUpdateDialog <==> netAvailable && check == Answered(true)
      ensures showProgressDialog == old(showProgressDialog)
    {
      var show, _ := CheckForUpdates(netAvailable, check);
      showUpdateDialog := show;
    }

    /** "Позже", or dismissing the dialog: the update dialog closes. */
    method Dismiss()
      modifies this
      ensures !showUpdateDialog
      ensures showProgressDialog == old(showProgressDialog)
    {
      showUpdateDialog := false;
    }

    /**
     * "Обновить": the update dialog closes, the progress dialog opens when the
     * progress read before the update starts has not reached its total, and
     * the update runs.
     */
    method Confirm(vm: ItemViewModel, listings: Result<seq<Listing>, ApiError>,
                   getItem: string -> Result<Item, ApiError>, repoInfo: Result<string, ApiError>)
      requires vm.Valid()
      modifies this, vm, vm.repository, vm.repository.dao
      ensures vm.Valid()
      ensures !showUpdateDialog
      ensures showProgressDialog == ShowsProgressDialog(old(vm.progress))
      ensures vm.progress == LastReport(old(vm.progress), RefreshProgress(listings, getItem))
      ensures !vm.isLoading
      ensures var outcome := RefreshOutcome(listings, getItem, repoInfo);
              vm.error == if outcome.Refreshed? then None else Some(UpdateFailedText(outcome.error))
      ensures if listings.Ok? && AllFetched(listings.value, getItem)
              then vm.repository.dao.rows == ReplaceAll(map[], FetchedItems(listings.value, getItem, |listings.value|))
              else vm.repository.dao.rows == old(vm.repository.dao.rows)
      ensures vm.repository.lastUpdate ==
                if RefreshOutcome(listings, getItem, repoInfo).Refreshed? then Some(repoInfo.value)
                else old(vm.repository.lastUpdate)
      ensures vm.items == old(vm.items) && vm.expandedCategories == old(vm.expandedCategories)
      ensures vm.selectedItem == old(vm.selectedItem)
    {
      showUpdateDialog := false;
      showProgressDialog := ShowsProgressDialog(vm.progress);
      vm.PerformUpdate(listings, getItem, repoInfo);
    }
  }

  /** The first update opens the progress dialog, since progress starts at `(0, 100)`. */
  lemma FirstUpdateShowsProgress()
    ensures ShowsProgressDialog((0, 100))
  {
  }

  /**
   * After a full refresh of a non-empty listing the progress is `(n, n)`,
   * so a later confirmation does not open the progress dialog.
   */
  lemma {:induction false} NoProgressDialogAfterFullRefresh(before: (int, int), listings: seq<Listing>,
                                                            getItem: string -> Result<Item, ApiError>)
    requires |listings| > 0 && AllFetched(listings, getItem)
    ensures !ShowsProgressDialog(LastReport(before, RefreshProgress(Ok(listings), getItem)))
  {
    ProgressEndsAtTotal(|listings|);
  }
}
