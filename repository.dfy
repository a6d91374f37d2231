/**
 * The item repository: the update-gating timestamp rule, the refresh that
 * fetches every listed item and then replaces the whole table, and the
 * accessors that hand straight through to the table.
 */
module Repository {
  import opened Wrappers
  import opened Models
  import opened StringOrder
  import opened Dao

  /** An exception raised by a remote call; `message` is its (nullable) message. */
  datatype ApiError = ApiError(message: Option<string>)

  /** One entry of the item listing; `data` is the path the item is fetched from. */
  datatype Listing = Listing(data: string)

  /** How a refresh ends: normally, or with the exception that escaped it. */
  datatype Outcome = Refreshed | Failed(error: ApiError)

  /**
   * `needsUpdate`: the remote `updatedAt` is known and either nothing is stored
   * locally or the remote string is greater. A failed remote call gives false.
   */
  function NeedsUpdate(remote: Result<string, ApiError>, local: Option<string>): (r: bool)
    ensures r ==> remote.Ok?
    ensures remote.Ok? && local.None? ==> r
    ensures remote.Ok? && local == Some(remote.value) ==> !r
  {
    if remote.Err? then false
    else
      LexLessIrreflexive(remote.value);
      local.None? || LexLess(local.value, remote.value)
  }

  /** A failing remote call never asks for an update. */
  lemma NeedsUpdateOnFailure(e: ApiError, local: Option<string>)
    ensures !NeedsUpdate(Err(e), local)
  {
  }

  /** With nothing stored, any successfully read remote timestamp asks for an update. */
  lemma NeedsUpdateWhenNothingStored(t: string)
    ensures NeedsUpdate(Ok(t), None)
  {
  }

  /** Once the remote timestamp has been stored, the same remote answer asks for no update. */
  lemma {:induction false} UpToDateAfterStoring(t: string)
    ensures !NeedsUpdate(Ok(t), Some(t))
  {
    LexLessIrreflexive(t);
  }

  /**
   * For two different timestamps exactly one direction asks for an update:
   * the comparison is a strict total order.
   */
  lemma {:induction false} NeedsUpdateExactlyOneWay(t: string, u: string)
    requires t != u
    ensures NeedsUpdate(Ok(t), Some(u)) != NeedsUpdate(Ok(u), Some(t))
  {
    LexLessTrichotomy(t, u);
  }

  /** A stored timestamp that is not smaller than the remote one asks for no update. */
  lemma {:induction false} NoUpdateFromOlderRemote(t: string, u: string)
    requires LexLess(t, u)
    ensures !NeedsUpdate(Ok(t), Some(u))
  {
    LexLessTrichotomy(t, u);
  }

  /** The number of listings, from the first, whose item fetch succeeds before one fails. */
  function LeadingOk(listings: seq<Listing>, getItem: string -> Result<Item, ApiError>): (k: nat)
    ensures k <= |listings|
    ensures forall i :: 0 <= i < k ==> getItem(listings[i].data).Ok?
    ensures k < |listings| ==> getItem(listings[k].data).Err?
  {
    if |listings| == 0 || getItem(listings[0].data).Err? then 0
    else
      var k := 1 + LeadingOk(listings[1..], getItem);
      assert forall i :: 1 <= i < k ==> listings[i] == listings[1..][i - 1];
      k
  }

  /** Every item fetch succeeds. */
  predicate AllFetched(listings: seq<Listing>, getItem: string -> Result<Item, ApiError>)
  {
    LeadingOk(listings, getItem) == |listings|
  }

  /** The items fetched for the first `k` listings, in listing order. */
  function FetchedItems(listings: seq<Listing>, getItem: string -> Result<Item, ApiError>, k: nat): (r: seq<Item>)
    requires k <= LeadingOk(listings, getItem)
    ensures |r| == k
    ensures forall i :: 0 <= i < k ==> getItem(listings[i].data) == Ok(r[i])
  {
    seq(k, i requires 0 <= i < k => getItem(listings[i].data).value)
  }

  /** The progress reports `(1, total), (2, total), ..., (k, total)`. */
  function Progress(k: nat, total: int): (r: seq<(int, int)>)
    ensures |r| == k
  {
    seq(k, i => (i + 1, total))
  }

  /** Reports count up by one from 1, all against the same total. */
  lemma ProgressAscending(k: nat, total: int)
    ensures forall i :: 0 <= i < k ==> Progress(k, total)[i] == (i + 1, total)
    ensures forall i, j :: 0 <= i < j < k ==> Progress(k, total)[i].0 < Progress(k, total)[j].0
  {
  }

  /** When there are listings and all are fetched, the last report is `(total, total)`. */
  lemma ProgressEndsAtTotal(n: nat)
    requires n > 0
    ensures Progress(n, n)[n - 1] == (n, n)
  {
  }

  /** The progress reports a refresh makes: one per successfully fetched item. */
  function RefreshProgress(listings: Result<seq<Listing>, ApiError>, getItem: string -> Result<Item, ApiError>): (r: seq<(int, int)>)
    ensures listings.Err? ==> r == []
    ensures listings.Ok? ==> |r| == LeadingOk(listings.value, getItem) <= |listings.value|
    ensures listings.Ok? ==> forall i :: 0 <= i < |r| ==> r[i] == (i + 1, |listings.value|)
  {
    if listings.Err? then []
    else Progress(LeadingOk(listings.value, getItem), |listings.value|)
  }

  /** How a refresh ends: the first exception among listing, item fetches and repository info, in that order. */
  function RefreshOutcome(listings: Result<seq<Listing>, ApiError>, getItem: string -> Result<Item, ApiError>,
                          repoInfo: Result<string, ApiError>): (r: Outcome)
    ensures r == Refreshed <==> listings.Ok? && AllFetched(listings.value, getItem) && repoInfo.Ok?
  {
    if listings.Err? then Failed(listings.error)
    else
      var k := LeadingOk(listings.value, getItem);
      if k < |listings.value| then Failed(getItem(listings.value[k].data).error)
      else if repoInfo.Err? then Failed(repoInfo.error)
      else Refreshed
  }

  /** A failed item fetch ends the refresh with that fetch's own exception. */
  lemma {:induction false} FetchErrorPropagates(listings: seq<Listing>, getItem: string -> Result<Item, ApiError>,
                                                repoInfo: Result<string, ApiError>, k: nat)
    requires k < |listings|
    requires forall i :: 0 <= i < k ==> getItem(listings[i].data).Ok?
    requires getItem(listings[k].data).Err?
    ensures RefreshOutcome(Ok(listings), getItem, repoInfo) == Failed(getItem(listings[k].data).error)
    ensures RefreshProgress(Ok(listings), getItem) == Progress(k, |listings|)
  {
    var n := LeadingOk(listings, getItem);
    assert n >= k by {
      assert n < |listings| ==> getItem(listings[n].data).Err?;
    }
    assert n <= k;
  }

  /** The repository over the items table; `lastUpdate` is the stored update timestamp. */
  class ItemRepository {
    const dao: ItemDao
    var lastUpdate: Option<string>

    ghost predicate Valid()
      reads this, dao
    {
      dao.Valid()
    }

    /**
     * The repository is built at every launch; the timestamp `Prefs` holds
     * from an earlier refresh (or nothing, on a first launch) is `stored`.
     */
    constructor(dao: ItemDao, stored: Option<string>)
      requires dao.Valid()
      ensures Valid()
      ensures this.dao == dao && lastUpdate == stored
    {
      this.dao := dao;
      lastUpdate := stored;
    }

    /**
     * `refreshData`: fetch the listing, fetch every listed item in order with
     * a progress report after each, then clear the table, insert all fetched
     * items and store the repository's `updatedAt`. Any exception stops the
     * refresh where it happens and propagates. Returns the outcome and the
     * progress reports in the order they were made.
     */
    method RefreshData(listings: Result<seq<Listing>, ApiError>, getItem: string -> Result<Item, ApiError>,
                       repoInfo: Result<string, ApiError>)
      returns (outcome: Outcome, progress: seq<(int, int)>)
      requires Valid()
      modifies this, dao
      ensures Valid()
      ensures outcome == RefreshOutcome(listings, getItem, repoInfo)
      ensures progress == RefreshProgress(listings, getItem)
      ensures if listings.Ok? && AllFetched(listings.value, getItem)
              then dao.rows == ReplaceAll(map[], FetchedItems(listings.value, getItem, |listings.value|))
              else dao.rows == old(dao.rows)
      ensures lastUpdate == if outcome == Refreshed then Some(repoInfo.value) else old(lastUpdate)
    {
      progress := [];
      if listings.Err? {
        return Failed(listings.error), progress;
      }
      var ls := listings.value;
      var total := |ls|;
      var items: seq<Item> := [];
      for index := 0 to total
        invariant index <= LeadingOk(ls, getItem)
        invariant items == FetchedItems(ls, getItem, index)
        invariant progress == Progress(index, total)
        invariant dao.rows == old(dao.rows) && lastUpdate == old(lastUpdate)
      {
        var item := getItem(ls[index].data);
        if item.Err? {
          return Failed(item.error), progress;
        }
        items := items + [item.value];
        progress := progress + [(index + 1, total)];
      }
      dao.ClearAll();
      dao.InsertAll(items);
      if repoInfo.Err? {
        return Failed(repoInfo.error), progress;
      }
      lastUpdate := Some(repoInfo.value);
      outcome := Refreshed;
    }

    /** `getItemById`, handed to the table. */
    method GetItemById(id: string) returns (r: Option<Item>)
      requires Valid()
      ensures r == Lookup(dao.rows, id)
      ensures r.Some? ==> r.value.id == id
    {
      r := dao.GetItemById(id);
    }

    /** `getAllItems`, handed to the table. */
    method GetAllItems() returns (all: seq<Item>)
      requires Valid()
      ensures |all| == |dao.rows|
      ensures forall id :: id in dao.rows ==> dao.rows[id] in all
      ensures forall x :: x in all ==> x.id in dao.rows && dao.rows[x.id] == x
    {
      all := dao.GetAllItems();
    }

    /** `insertAll`, handed to the table. */
    method InsertAll(items: seq<Item>)
      requires Valid()
      modifies dao
      ensures Valid()
      ensures dao.rows == ReplaceAll(old(dao.rows), items)
    {
      dao.InsertAll(items);
    }

    /** `insertItem`, handed to the table. */
    method InsertItem(item: Item)
      requires Valid()
      modifies dao
      ensures Valid()
      ensures dao.rows == old(dao.rows)[item.id := item]
    {
      dao.Insert(item);
    }
  }
}
