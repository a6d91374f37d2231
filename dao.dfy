/**
 * The items table behind the data-access object: rows keyed by item id,
 * written with replace-on-conflict.
 */
module Dao {
  import opened Wrappers
  import opened Models

  /** Every row is stored under its own item's id (the id is the primary key). */
  predicate KeyedById(rows: map<string, Item>)
  {
    forall id :: id in rows ==> rows[id].id == id
  }

  /** The row stored under `id`, if any (`SELECT * FROM items WHERE id = :itemId`). */
  function Lookup(rows: map<string, Item>, id: string): (r: Option<Item>)
    ensures r.Some? <==> id in rows
    ensures r.Some? ==> r.value == rows[id]
  {
    if id in rows then Some(rows[id]) else None
  }

  /** The ids that occur in a list of items. */
  function Ids(items: seq<Item>): (r: set<string>)
    ensures forall id :: id in r <==> exists i :: 0 <= i < |items| && items[i].id == id
  {
    set i | 0 <= i < |items| :: items[i].id
  }

  /** The table after inserting `items` one after another, each replacing any row with its id. */
  function ReplaceAll(rows: map<string, Item>, items: seq<Item>): (r: map<string, Item>)
    ensures |items| > 0 ==> items[|items| - 1].id in r && r[items[|items| - 1].id] == items[|items| - 1]
    ensures |items| == 0 ==> r == rows
  {
    if |items| == 0 then rows
    else
      var last := items[|items| - 1];
      ReplaceAll(rows, items[..|items| - 1])[last.id := last]
  }

  /** Inserting a list adds exactly the ids of its items to the table's keys. */
  lemma {:induction false} ReplaceAllKeys(rows: map<string, Item>, items: seq<Item>)
    ensures ReplaceAll(rows, items).Keys == rows.Keys + Ids(items)
  {
    if |items| > 0 {
      var init := items[..|items| - 1];
      ReplaceAllKeys(rows, init);
      assert Ids(items) == Ids(init) + {items[|items| - 1].id} by {
        forall id | id in Ids(items) ensures id in Ids(init) + {items[|items| - 1].id} {
          var i :| 0 <= i < |items| && items[i].id == id;
          if i < |items| - 1 {
            assert init[i] == items[i];
          }
        }
        forall id | id in Ids(init) ensures id in Ids(items) {
          var i :| 0 <= i < |init| && init[i].id == id;
          assert items[i] == init[i];
        }
      }
    }
  }

  /** A row whose id the list does not mention is left as it was. */
  lemma {:induction false} ReplaceAllKeepsOthers(rows: map<string, Item>, items: seq<Item>, id: string)
    requires id in rows
    requires forall i :: 0 <= i < |items| ==> items[i].id != id
    ensures id in ReplaceAll(rows, items) && ReplaceAll(rows, items)[id] == rows[id]
  {
    if |items| > 0 {
      var init := items[..|items| - 1];
      assert forall i :: 0 <= i < |init| ==> init[i] == items[i];
      ReplaceAllKeepsOthers(rows, init, id);
    }
  }

  /**
   * For an id the list mentions, the row holds the LAST item with that id:
   * a later duplicate replaces an earlier one.
   */
  lemma {:induction false} LastOccurrenceWins(rows: map<string, Item>, items: seq<Item>, j: int)
    requires 0 <= j < |items|
    requires forall i :: j < i < |items| ==> items[i].id != items[j].id
    ensures items[j].id in ReplaceAll(rows, items)
    ensures ReplaceAll(rows, items)[items[j].id] == items[j]
  {
    if j < |items| - 1 {
      var init := items[..|items| - 1];
      assert forall i :: 0 <= i < |init| ==> init[i] == items[i];
      LastOccurrenceWins(rows, init, j);
    }
  }

  /** Replace-on-conflict inserts keep every row under its own id. */
  lemma {:induction false} ReplaceAllKeyedById(rows: map<string, Item>, items: seq<Item>)
    requires KeyedById(rows)
    ensures KeyedById(ReplaceAll(rows, items))
  {
    if |items| > 0 {
      ReplaceAllKeyedById(rows, items[..|items| - 1]);
    }
  }

  /**
   * Filling an empty table: its ids are exactly those of the list, and every
   * row is one of the listed items.
   */
  lemma {:induction false} ReplaceAllFromEmpty(items: seq<Item>)
    ensures ReplaceAll(map[], items).Keys == Ids(items)
    ensures forall id :: id in ReplaceAll(map[], items) ==> ReplaceAll(map[], items)[id] in items
  {
    ReplaceAllKeys(map[], items);
    if |items| > 0 {
      var init := items[..|items| - 1];
      ReplaceAllFromEmpty(init);
      forall id | id in ReplaceAll(map[], items) ensures ReplaceAll(map[], items)[id] in items {
        if id != items[|items| - 1].id {
          assert ReplaceAll(map[], init)[id] in init;
        }
      }
    }
  }

  /** The items table; `rows` maps each primary key to its row. */
  class ItemDao {
    var rows: map<string, Item>

    ghost predicate Valid()
      reads this
    {
      KeyedById(rows)
    }

    constructor()
      ensures Valid()
      ensures rows == map[]
    {
      rows := map[];
    }

    /** `insert(item)` with REPLACE: the row under `item.id` becomes `item`. */
    method Insert(item: Item)
      requires Valid()
      modifies this
      ensures Valid()
      ensures rows == old(rows)[item.id := item]
      ensures Lookup(rows, item.id) == Some(item)
      ensures forall id :: id != item.id ==> Lookup(rows, id) == Lookup(old(rows), id)
      ensures |rows| == if item.id in old(rows) then |old(rows)| else |old(rows)| + 1
    {
      rows := rows[item.id := item];
    }

    /** `insertAll(items)` with REPLACE: the items inserted one after another. */
    method InsertAll(items: seq<Item>)
      requires Valid()
      modifies this
      ensures Valid()
      ensures rows == ReplaceAll(old(rows), items)
    {
      for i := 0 to |items|
        invariant rows == ReplaceAll(old(rows), items[..i])
      {
        assert items[..i + 1][..i] == items[..i];
        rows := rows[items[i].id := items[i]];
      }
      assert items[..|items|] == items;
      ReplaceAllKeyedById(old(rows), items);
    }

    /** `getItemById(itemId)`: the row with that id, or nothing. */
    method GetItemById(id: string) returns (r: Option<Item>)
      ensures r.Some? <==> id in rows
      ensures r.Some? ==> r.value == rows[id] && (Valid() ==> r.value.id == id)
    {
      r := Lookup(rows, id);
    }

    /**
     * `getAllItems()`: every row exactly once. The query has no ORDER BY, so
     * the order is left open.
     */
    method GetAllItems() returns (all: seq<Item>)
      ensures |all| == |rows|
      ensures forall id :: id in rows ==> rows[id] in all
      ensures forall x :: x in all ==> exists id :: id in rows && rows[id] == x
      ensures Valid() ==> forall i, j :: 0 <= i < j < |all| ==> all[i].id != all[j].id
    {
      all := [];
      var pending := rows.Keys;
      ghost var taken: seq<string> := [];
      while pending != {}
        invariant pending <= rows.Keys
        invariant |taken| == |all|
        invariant forall i :: 0 <= i < |taken| ==> taken[i] in rows && taken[i] !in pending && all[i] == rows[taken[i]]
        invariant forall i, j :: 0 <= i < j < |taken| ==> taken[i] != taken[j]
        invariant forall id :: id in rows && id !in pending ==> id in taken
        invariant |all| + |pending| == |rows|
        decreases |pending|
      {
        var id :| id in pending;
        all := all + [rows[id]];
        taken := taken + [id];
        pending := pending - {id};
      }
      forall id | id in rows ensures rows[id] in all {
        var i :| 0 <= i < |taken| && taken[i] == id;
        assert all[i] == rows[id];
      }
      forall x | x in all ensures exists id :: id in rows && rows[id] == x {
        var i :| 0 <= i < |all| && all[i] == x;
        assert rows[taken[i]] == x;
      }
    }

    /** `clearAll()`: every row is deleted. */
    method ClearAll()
      modifies this
      ensures Valid()
      ensures rows == map[]
      ensures forall id :: Lookup(rows, id) == None
    {
      rows := map[];
    }
  }
}
