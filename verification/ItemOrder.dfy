/** The order in which a diff lists items, and the listing of a store. */
module ItemOrder {
  import opened Items
  import opened VersionOrder
  import opened SummaryStore
  import Sorting
  import Text

  predicate CellLess(a: CellID, b: CellID) {
    if a.node != b.node then Text.Less(a.node, b.node)
    else if a.vehicle != b.vehicle then Text.Less(a.vehicle, b.vehicle)
    else Text.Less(a.group, b.group)
  }

  predicate KeyLess(a: Key, b: Key) {
    if a.cell != b.cell then CellLess(a.cell, b.cell) else Text.Less(a.entity, b.entity)
  }

  predicate ItemLess(x: Item, y: Item) {
    var left, right := x.envelope, y.envelope;
    if x.SummaryKey() != y.SummaryKey() then KeyLess(x.SummaryKey(), y.SummaryKey())
    else if left.sequence != right.sequence then left.sequence < right.sequence
    else if CompareHybridTime(left.hybrid, right.hybrid) != 0 then
      CompareHybridTime(left.hybrid, right.hybrid) < 0
    else Text.Less(left.operation, right.operation)
  }

  lemma CellLessTotal(a: CellID, b: CellID)
    ensures a == b || CellLess(a, b) || CellLess(b, a)
    ensures !(CellLess(a, b) && CellLess(b, a))
    ensures !CellLess(a, a)
  {
    Text.LessTotal(a.node, b.node);
    Text.LessTotal(a.vehicle, b.vehicle);
    Text.LessTotal(a.group, b.group);
    Text.LessTotal(a.group, a.group);
  }

  lemma CellLessTransitive(a: CellID, b: CellID, c: CellID)
    requires CellLess(a, b) && CellLess(b, c)
    ensures CellLess(a, c)
  {
    if a.node != b.node && b.node != c.node {
      Text.LessTransitive(a.node, b.node, c.node);
      Text.LessTotal(a.node, b.node);
    } else if a.node == b.node == c.node {
      if a.vehicle != b.vehicle && b.vehicle != c.vehicle {
        Text.LessTransitive(a.vehicle, b.vehicle, c.vehicle);
        Text.LessTotal(a.vehicle, b.vehicle);
      } else if a.vehicle == b.vehicle == c.vehicle {
        Text.LessTransitive(a.group, b.group, c.group);
      }
    }
  }

  lemma KeyLessTotal(a: Key, b: Key)
    ensures a == b || KeyLess(a, b) || KeyLess(b, a)
    ensures !(KeyLess(a, b) && KeyLess(b, a))
    ensures !KeyLess(a, a)
  {
    CellLessTotal(a.cell, b.cell);
    Text.LessTotal(a.entity, b.entity);
    Text.LessTotal(a.entity, a.entity);
  }

  lemma KeyLessTransitive(a: Key, b: Key, c: Key)
    requires KeyLess(a, b) && KeyLess(b, c)
    ensures KeyLess(a, c)
  {
    if a.cell != b.cell && b.cell != c.cell {
      CellLessTransitive(a.cell, b.cell, c.cell);
      CellLessTotal(a.cell, b.cell);
    } else if a.cell == b.cell == c.cell {
      Text.LessTransitive(a.entity, b.entity, c.entity);
    }
  }

  // ---- sortItems ----

  ghost predicate Ascending(xs: seq<Item>) {
    forall i, j :: 0 <= i < j < |xs| ==> KeyLess(xs[i].SummaryKey(), xs[j].SummaryKey())
  }

  function SortItems(s: seq<Item>): (r: seq<Item>)
    ensures multiset(r) == multiset(s)
  {
    Sorting.Sort(ItemLess, s)
  }

  lemma ItemsWithOneKeyEach(s: seq<Item>, x: Item, y: Item)
    requires DistinctKeys(s) && x in s && y in s
    ensures x.SummaryKey() == y.SummaryKey() ==> x == y
  {
  }

  lemma ItemLessIsKeyLess(s: seq<Item>, x: Item, y: Item)
    requires DistinctKeys(s) && x in s && y in s
    ensures ItemLess(x, y) <==> KeyLess(x.SummaryKey(), y.SummaryKey())
  {
    hide KeyLess;
    ItemsWithOneKeyEach(s, x, y);
    KeyLessTotal(x.SummaryKey(), x.SummaryKey());
    Text.LessTotal(x.envelope.operation, x.envelope.operation);
  }

  lemma ItemLessOrders(s: seq<Item>)
    requires DistinctKeys(s)
    ensures Sorting.Orders(ItemLess, s)
  {
    hide KeyLess, ItemLess;
    forall x, y | x in s && y in s && ItemLess(x, y) ensures !ItemLess(y, x) {
      ItemLessIsKeyLess(s, x, y);
      ItemLessIsKeyLess(s, y, x);
      KeyLessTotal(x.SummaryKey(), y.SummaryKey());
    }
    forall x, y, z | x in s && y in s && z in s && ItemLess(x, z)
      ensures ItemLess(x, y) || ItemLess(y, z)
    {
      ItemLessIsKeyLess(s, x, y);
      ItemLessIsKeyLess(s, y, z);
      ItemLessIsKeyLess(s, x, z);
      KeyLessTotal(x.SummaryKey(), y.SummaryKey());
      if KeyLess(y.SummaryKey(), x.SummaryKey()) {
        KeyLessTransitive(y.SummaryKey(), x.SummaryKey(), z.SummaryKey());
      }
    }
  }

  lemma SortItemsAscends(s: seq<Item>)
    requires DistinctKeys(s)
    ensures Ascending(SortItems(s)) && DistinctKeys(SortItems(s))
  {
    hide KeyLess, ItemLess;
    var r := SortItems(s);
    ItemLessOrders(s);
    Sorting.SortSorts(ItemLess, s);
    Sorting.SameMembers(s, r);
    SortKeepsDistinct(s, r);
    forall i, j | 0 <= i < j < |r| ensures KeyLess(r[i].SummaryKey(), r[j].SummaryKey()) {
      ItemLessIsKeyLess(r, r[j], r[i]);
      KeyLessTotal(r[i].SummaryKey(), r[j].SummaryKey());
    }
  }

  lemma SortKeepsDistinct(s: seq<Item>, r: seq<Item>)
    requires DistinctKeys(s) && multiset(r) == multiset(s)
    ensures DistinctKeys(r)
  {
    Sorting.SameMembers(s, r);
    Sorting.RearrangedNoDuplicates(s, r);
    forall i, j | 0 <= i < j < |r| ensures r[i].SummaryKey() != r[j].SummaryKey() {
      ItemsWithOneKeyEach(s, r[i], r[j]);
    }
  }

  lemma AscendingIsDistinct(s: seq<Item>)
    requires Ascending(s)
    ensures DistinctKeys(s)
  {
    forall i, j | 0 <= i < j < |s| ensures s[i].SummaryKey() != s[j].SummaryKey() {
      KeyLessTotal(s[i].SummaryKey(), s[j].SummaryKey());
    }
  }

  // ---- The listing of a store: its items in order ----

  ghost predicate Lists(xs: seq<Item>, m: Store) {
    Ascending(xs) && Enumerates(xs, m)
  }

  lemma SortedEnumerationLists(xs: seq<Item>, m: Store)
    requires Enumerates(xs, m)
    ensures Lists(SortItems(xs), m)
  {
    hide KeyLess, ItemLess, Item.Admissible;
    SortItemsAscends(xs);
    Sorting.SameMembers(xs, SortItems(xs));
  }

  /** A store has one listing, whatever order its items were visited in. */
  lemma {:induction false} ListingUnique(xs: seq<Item>, ys: seq<Item>, m: Store)
    requires Lists(xs, m) && Lists(ys, m) && Keyed(m)
    ensures xs == ys
    decreases xs
  {
    hide KeyLess, Item.Admissible, Lists, Keyed;
    ListingLength(xs, m);
    ListingLength(ys, m);
    if xs != [] {
      SameHead(xs, ys, m);
      ListsRest(xs, m);
      ListsRest(ys, m);
      ListingUnique(xs[1..], ys[1..], m - {xs[0].SummaryKey()});
    }
  }

  lemma ListingLength(xs: seq<Item>, m: Store)
    requires Lists(xs, m) && Keyed(m)
    ensures |xs| == |m|
  {
    EnumerationLength(xs, m);
  }

  lemma ListsRest(xs: seq<Item>, m: Store)
    requires Lists(xs, m) && Keyed(m) && xs != []
    ensures Lists(xs[1..], m - {xs[0].SummaryKey()}) && Keyed(m - {xs[0].SummaryKey()})
    ensures xs == [xs[0]] + xs[1..]
  {
    hide KeyLess, Item.Admissible;
    EnumeratesRest(xs, m);
  }

  lemma SameHead(xs: seq<Item>, ys: seq<Item>, m: Store)
    requires Lists(xs, m) && Lists(ys, m) && xs != [] && ys != []
    ensures xs[0] == ys[0]
  {
    hide KeyLess, Item.Admissible;
    var x, y := xs[0], ys[0];
    assert x in xs && y in ys;
    assert x in ys && y in xs by {
      assert m[x.SummaryKey()] in ys && m[y.SummaryKey()] in xs;
    }
    KeyLessTotal(x.SummaryKey(), y.SummaryKey());
  }

  lemma {:induction false} ListingExists(m: Store)
    requires Keyed(m)
    ensures exists xs :: Lists(xs, m)
    decreases m.Keys
  {
    hide KeyLess, Item.Admissible;
    if m == map[] {
      assert Lists([], m);
    } else {
      var k :| k in m;
      ListingExists(m - {k});
      var xs :| Lists(xs, m - {k});
      EnumeratesMore(xs, m - {k}, m[k]);
      assert m == (m - {k})[k := m[k]];
      SortedEnumerationLists([m[k]] + xs, m);
    }
  }

  ghost function Listing(m: Store): (xs: seq<Item>)
    requires Keyed(m)
    ensures Lists(xs, m)
  {
    ListingExists(m);
    var xs :| Lists(xs, m);
    xs
  }
}
