/** Projections of the item list: categories, per-category filtering and grouping. */
module Catalog {
  import opened Models
  import opened StringOrder

  /** `items.map { it.category }`. */
  function Categories(items: seq<Item>): (r: seq<string>)
    ensures |r| == |items|
    ensures forall i :: 0 <= i < |items| ==> r[i] == items[i].category
  {
    seq(|items|, i requires 0 <= i < |items| => items[i].category)
  }

  /** The categories present among the items, as a set. */
  function CategorySet(items: seq<Item>): (r: set<string>)
    ensures forall c :: c in r <==> exists i :: 0 <= i < |items| && items[i].category == c
  {
    set i | 0 <= i < |items| :: items[i].category
  }

  /** `items.map { it.category }.distinct().sorted()`. */
  function UniqueCategories(items: seq<Item>): (r: seq<string>)
    ensures StrictlySorted(r)
    ensures forall c :: c in r <==> c in CategorySet(items)
  {
    var cs := Categories(items);
    assert forall c :: c in cs <==> c in CategorySet(items) by {
      forall c | c in CategorySet(items) ensures c in cs {
        var i :| 0 <= i < |items| && items[i].category == c;
        assert cs[i] == c;
      }
    }
    SortedDistinct(cs)
  }

  /** `items.filter { it.category == category }`. */
  function Filter(items: seq<Item>, category: string): (r: seq<Item>)
    ensures forall x :: x in r <==> x in items && x.category == category
    ensures |r| <= |items|
  {
    if |items| == 0 then []
    else
      var init := items[..|items| - 1];
      var last := items[|items| - 1];
      assert items == init + [last];
      Filter(init, category) + (if last.category == category then [last] else [])
  }

  /** Filtering keeps the order of the list: it distributes over concatenation. */
  lemma {:induction false} FilterConcat(a: seq<Item>, b: seq<Item>, category: string)
    ensures Filter(a + b, category) == Filter(a, category) + Filter(b, category)
  {
    if |b| > 0 {
      var b' := b[..|b| - 1];
      assert (a + b)[..|a + b| - 1] == a + b';
      assert (a + b)[|a + b| - 1] == b[|b| - 1];
      FilterConcat(a, b', category);
    } else {
      assert a + b == a;
    }
  }

  /** Filtering a single item keeps it exactly when its category matches. */
  lemma FilterSingleton(x: Item, category: string)
    ensures Filter([x], category) == if x.category == category then [x] else []
  {
    assert [x][..0] == [];
  }

  /** A category has items exactly when it is present. */
  lemma FilterEmptyIffAbsent(items: seq<Item>, category: string)
    ensures Filter(items, category) == [] <==> category !in CategorySet(items)
  {
    var r := Filter(items, category);
    if r != [] {
      assert r[0] in r;
      var i :| 0 <= i < |items| && items[i] == r[0];
    }
    if category in CategorySet(items) {
      var i :| 0 <= i < |items| && items[i].category == category;
      assert items[i] in r;
    }
  }

  /** `items.groupBy { it.category }`: each category present mapped to its items, in order. */
  function GroupBy(items: seq<Item>): (r: map<string, seq<Item>>)
    ensures forall c :: c in r <==> c in CategorySet(items)
    ensures forall c :: c in r ==> r[c] == Filter(items, c)
  {
    if |items| == 0 then map[]
    else
      var init := items[..|items| - 1];
      var last := items[|items| - 1];
      var g := GroupBy(init);
      var r := g[last.category := (if last.category in g then g[last.category] else []) + [last]];
      GroupByStep(items, g, r);
      r
  }

  /** Appending an item adds exactly its category to the set of categories. */
  lemma CategorySetSnoc(items: seq<Item>)
    requires |items| > 0
    ensures CategorySet(items) == CategorySet(items[..|items| - 1]) + {items[|items| - 1].category}
  {
    var init := items[..|items| - 1];
    forall c | c in CategorySet(items) && c != items[|items| - 1].category ensures c in CategorySet(init) {
      var i :| 0 <= i < |items| && items[i].category == c;
      assert i != |items| - 1;
      assert init[i] == items[i];
    }
    forall c | c in CategorySet(init) ensures c in CategorySet(items) {
      var i :| 0 <= i < |init| && init[i].category == c;
      assert items[i] == init[i];
    }
  }

  lemma GroupByStep(items: seq<Item>, g: map<string, seq<Item>>, r: map<string, seq<Item>>)
    requires |items| > 0
    requires forall c :: c in g <==> c in CategorySet(items[..|items| - 1])
    requires forall c :: c in g ==> g[c] == Filter(items[..|items| - 1], c)
    requires var last := items[|items| - 1];
      r == g[last.category := (if last.category in g then g[last.category] else []) + [last]]
    ensures forall c :: c in r <==> c in CategorySet(items)
    ensures forall c :: c in r ==> r[c] == Filter(items, c)
  {
    var init := items[..|items| - 1];
    var last := items[|items| - 1];
    CategorySetSnoc(items);
    forall c | c in r ensures r[c] == Filter(items, c) {
      GroupByStepAt(items, g, r, c);
    }
  }

  lemma GroupByStepAt(items: seq<Item>, g: map<string, seq<Item>>, r: map<string, seq<Item>>, c: string)
    requires |items| > 0
    requires c in g <==> c in CategorySet(items[..|items| - 1])
    requires c in g ==> g[c] == Filter(items[..|items| - 1], c)
    requires var last := items[|items| - 1];
      r == g[last.category := (if last.category in g then g[last.category] else []) + [last]]
    requires c in r
    ensures r[c] == Filter(items, c)
  {
    var init := items[..|items| - 1];
    var last := items[|items| - 1];
    if c == last.category {
      FilterEmptyIffAbsent(init, c);
    }
  }

  /** `itemsByCategory[category] ?: emptyList()`. */
  function GroupOrEmpty(groups: map<string, seq<Item>>, category: string): (r: seq<Item>)
    ensures category in groups ==> r == groups[category]
    ensures category !in groups ==> r == []
  {
    if category in groups then groups[category] else []
  }

  /**
   * Looking a category up in the grouping, with an empty list for a missing
   * group, gives the same list as filtering by that category.
   */
  lemma GroupOrEmptyIsFilter(items: seq<Item>, category: string)
    ensures GroupOrEmpty(GroupBy(items), category) == Filter(items, category)
  {
    FilterEmptyIffAbsent(items, category);
  }

  /**
   * Every item lands in the group of its own category, which is listed among
   * the unique categories, and in no other group.
   */
  lemma EveryItemInItsGroup(items: seq<Item>, x: Item)
    requires x in items
    ensures x.category in UniqueCategories(items)
    ensures x in GroupOrEmpty(GroupBy(items), x.category)
    ensures forall c :: c != x.category ==> x !in GroupOrEmpty(GroupBy(items), c)
  {
    var i :| 0 <= i < |items| && items[i] == x;
    assert x.category in CategorySet(items);
    GroupOrEmptyIsFilter(items, x.category);
    forall c | c != x.category ensures x !in GroupOrEmpty(GroupBy(items), c) {
      GroupOrEmptyIsFilter(items, c);
    }
  }
}
