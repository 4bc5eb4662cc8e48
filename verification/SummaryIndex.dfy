/** The summary index object: upsert, watermarks and diff, in its own loops. */
module SummaryIndexes {
  import opened Items
  import opened VersionOrder
  import opened SummaryStore
  import opened ItemOrder
  import opened CellDigest
  import opened Watermarks
  import opened Validation
  import opened FieldOrders
  import Sorting
  import Text

  datatype UpsertStatus = Accepted | Invalid(error: EnvelopeError) | DoesNotReplicate

  /** A watermark set that says exactly what the live items are, cell by cell. */
  ghost predicate Describes(ws: WatermarkSet, live: Store)
    requires Keyed(live)
  {
    Marked(ws.entries, CellsOf(live), Marks(live))
  }

  // ---- Grouping by cell ----

  function Keep(wanted: Item -> bool, items: seq<Item>): (r: seq<Item>)
    ensures forall x :: x in r <==> x in items && wanted(x)
  {
    if items == [] then []
    else
      var last := items[|items| - 1];
      assert items == items[..|items| - 1] + [last];
      Keep(wanted, items[..|items| - 1]) + if wanted(last) then [last] else []
  }

  lemma {:induction false} KeepAscends(wanted: Item -> bool, items: seq<Item>)
    requires Ascending(items)
    ensures Ascending(Keep(wanted, items))
  {
    hide KeyLess;
    if items != [] {
      var init, last := items[..|items| - 1], items[|items| - 1];
      KeepAscends(wanted, init);
      var f := Keep(wanted, init);
      forall i | 0 <= i < |f| ensures KeyLess(f[i].SummaryKey(), last.SummaryKey()) {
        assert f[i] in f;
        assert f[i] in init;
      }
    }
  }

  lemma KeepMore(wanted: Item -> bool, items: seq<Item>, x: Item)
    ensures Keep(wanted, items + [x]) == Keep(wanted, items) + if wanted(x) then [x] else []
  {
  }

  function FilterCell(items: seq<Item>, c: CellID): (r: seq<Item>)
    ensures forall x :: x in r <==> x in items && x.Cell() == c
  {
    Keep((x: Item) => x.Cell() == c, items)
  }

  /** The items of one cell, taken in order, list that cell of the store. */
  lemma FilterLists(items: seq<Item>, live: Store, c: CellID)
    requires Lists(items, live) && Keyed(live)
    ensures Lists(FilterCell(items, c), CellOf(live, c))
  {
    hide KeyLess, Item.Admissible;
    KeepAscends((x: Item) => x.Cell() == c, items);
    AscendingIsDistinct(FilterCell(items, c));
  }

  /** A Go map lookup: the empty list for an absent cell. */
  function At(byCell: map<CellID, seq<Item>>, c: CellID): seq<Item> {
    if c in byCell then byCell[c] else []
  }

  ghost predicate Groups(byCell: map<CellID, seq<Item>>, items: seq<Item>) {
    && (forall c :: At(byCell, c) == FilterCell(items, c))
    && (forall c :: c in byCell ==> byCell[c] != [])
  }

  lemma FilterMore(items: seq<Item>, x: Item, c: CellID)
    ensures FilterCell(items + [x], c) == FilterCell(items, c) + if x.Cell() == c then [x] else []
  {
  }

  lemma GroupsMore(byCell: map<CellID, seq<Item>>, items: seq<Item>, x: Item)
    requires Groups(byCell, items)
    ensures Groups(byCell[x.Cell() := At(byCell, x.Cell()) + [x]], items + [x])
  {
    hide FilterCell;
    forall c ensures At(byCell[x.Cell() := At(byCell, x.Cell()) + [x]], c) == FilterCell(items + [x], c) {
      FilterMore(items, x, c);
    }
  }

  lemma EmptyGroups()
    ensures Groups(map[], [])
  {
  }

  method GroupByCell(items: seq<Item>) returns (byCell: map<CellID, seq<Item>>)
    ensures Groups(byCell, items)
  {
    hide FilterCell, At, Groups;
    byCell := map[];
    assert Groups(byCell, []) by { EmptyGroups(); }
    for i := 0 to |items|
      invariant Groups(byCell, items[..i])
    {
      var cell := items[i].Cell();
      ghost var before := byCell;
      byCell := byCell[cell := At(byCell, cell) + [items[i]]];
      assert items[..i + 1] == items[..i] + [items[i]];
      GroupsMore(before, items[..i], items[i]);
    }
    assert items[..|items|] == items;
  }

  lemma GroupedCells(byCell: map<CellID, seq<Item>>, items: seq<Item>, live: Store)
    requires Groups(byCell, items) && Enumerates(items, live) && Keyed(live)
    ensures byCell.Keys == CellsOf(live)
  {
    hide Item.Admissible;
    forall c ensures c in byCell <==> c in CellsOf(live) {
      if c in byCell {
        assert byCell[c][0] in FilterCell(items, c);
      }
      if c in CellsOf(live) {
        var k :| k in live && k.cell == c;
        assert live[k] in FilterCell(items, c);
        assert At(byCell, c) != [];
      }
    }
  }

  // ---- Watermarks ----

  method Newest(items: seq<Item>) returns (newest: Item)
    requires items != []
    ensures newest == NewestOf(items)
  {
    hide NewerThan;
    newest := items[0];
    for i := 1 to |items|
      invariant newest == NewestOf(items[..i])
    {
      assert items[..i + 1][..i] == items[..i];
      if Newer(items[i], newest) { newest := items[i]; }
    }
    assert items[..|items|] == items;
  }

  method MarkCell(cell: CellID, cellItems: seq<Item>, ghost a: Store) returns (w: CellWatermark)
    requires cellItems != [] && Enumerates(cellItems, a) && Keyed(a) && a != map[]
    ensures w == Mark(cell, a)
  {
    hide KeyLess, NewerThan, Item.Admissible;
    var sorted := SortItems(cellItems);
    SortedEnumerationLists(cellItems, a);
    ListingUnique(sorted, Listing(a), a);
    EnumerationLength(sorted, a);
    var newest := Newest(sorted);
    w := CellWatermark(cell, VersionOf(newest), |sorted|, HashCell(sorted));
  }

  // ---- Entry order ----

  predicate NameLess(a: CellWatermark, b: CellWatermark) {
    Text.Less(a.cell.String(), b.cell.String())
  }

  /** Entries are ordered by node, vehicle and group with slashes between. */
  lemma NameLessByFields(a: CellWatermark, b: CellWatermark)
    ensures NameLess(a, b) <==>
      Text.Less(a.cell.node + "/" + a.cell.vehicle + "/" + a.cell.group,
                b.cell.node + "/" + b.cell.vehicle + "/" + b.cell.group)
  {
  }

  lemma NameLessOrders(es: seq<CellWatermark>)
    ensures Sorting.Orders(NameLess, es)
  {
    hide CellID.String;
    forall a, b ensures !(NameLess(a, b) && NameLess(b, a)) {
      Text.LessTotal(a.cell.String(), b.cell.String());
    }
    forall a, b, c | NameLess(a, c) ensures NameLess(a, b) || NameLess(b, c) {
      Text.LessTotal(a.cell.String(), b.cell.String());
      if NameLess(b, a) { Text.LessTransitive(b.cell.String(), a.cell.String(), c.cell.String()); }
    }
  }

  lemma GroupListsCell(byCell: map<CellID, seq<Item>>, items: seq<Item>, live: Store, c: CellID)
    requires Groups(byCell, items) && Lists(items, live) && Keyed(live)
    requires c in byCell
    ensures c in CellsOf(live)
    ensures Enumerates(byCell[c], CellOf(live, c)) && byCell[c] != []
    ensures Ascending(byCell[c])
    ensures Keyed(CellOf(live, c)) && CellOf(live, c) != map[]
    ensures Mark(c, CellOf(live, c)) == Marks(live)[c]
  {
    hide KeyLess, NewerThan, Item.Admissible, Mark, FilterCell;
    GroupedCells(byCell, items, live);
    CellNonEmpty(live, c);
    FilterLists(items, live, c);
    assert At(byCell, c) == FilterCell(items, c);
  }

  /** The entries written so far, for the cells visited so far. */
  ghost predicate Marked(entries: seq<CellWatermark>, visited: set<CellID>,
                         marks: map<CellID, CellWatermark>)
  {
    && WatermarkSet(entries).OnePerCell()
    && (forall e :: e in entries ==> e.cell in visited && e.cell in marks && e == marks[e.cell])
    && (forall c :: c in visited ==> c in marks && marks[c] in entries)
  }

  lemma RearrangedMarked(es: seq<CellWatermark>, r: seq<CellWatermark>, visited: set<CellID>,
                         marks: map<CellID, CellWatermark>)
    requires Marked(es, visited, marks) && multiset(es) == multiset(r)
    ensures Marked(r, visited, marks)
  {
    Sorting.SameMembers(es, r);
    Sorting.RearrangedNoDuplicates(es, r);
    forall i, j | 0 <= i < j < |r| ensures r[i].cell != r[j].cell {
      var x, y := r[i], r[j];
      assert x in r && y in r;
      assert x == marks[x.cell] && y == marks[y.cell];
    }
  }

  method WatermarksForItems(items: seq<Item>, ghost live: Store) returns (ws: WatermarkSet)
    requires Lists(items, live) && Keyed(live)
    ensures Describes(ws, live)
    ensures Sorting.Sorted(NameLess, ws.entries)
  {
    hide KeyLess, NewerThan, Item.Admissible, NameLess, FilterCell, Lists, Enumerates, Keyed, Mark,
         Groups, At;
    var byCell := GroupByCell(items);
    assert byCell.Keys == CellsOf(live) by { ListedCells(byCell, items, live); }
    var entries: seq<CellWatermark> := [];
    var cells := byCell.Keys;
    ghost var marks := Marks(live);
    while cells != {}
      invariant cells <= byCell.Keys
      invariant Marked(entries, byCell.Keys - cells, marks)
      decreases cells
    {
      var cell :| cell in cells;
      GroupListsCell(byCell, items, live, cell);
      var watermark := MarkCell(cell, byCell[cell], CellOf(live, cell));
      assert watermark.cell == cell by { MarkNamesCell(live, cell); }
      entries := entries + [watermark];
      cells := cells - {cell};
    }
    var sorted := Sorting.Sort(NameLess, entries);
    RearrangedMarked(entries, sorted, byCell.Keys, marks);
    NameLessOrders(entries);
    Sorting.SortSorts(NameLess, entries);
    ws := WatermarkSet(sorted);
  }

  lemma MarkNamesCell(live: Store, c: CellID)
    requires Keyed(live) && c in CellsOf(live)
    ensures Marks(live)[c].cell == c
  {
  }

  lemma ListedCells(byCell: map<CellID, seq<Item>>, items: seq<Item>, live: Store)
    requires Groups(byCell, items) && Lists(items, live) && Keyed(live)
    ensures byCell.Keys == CellsOf(live)
  {
    GroupedCells(byCell, items, live);
  }

  // ---- Diff ----

  /** The items of one cell that the peer is sent. */
  method SelectCell(local: CellWatermark, peer: Option<CellWatermark>, cellItems: seq<Item>)
      returns (chosen: seq<Item>)
    requires Ascending(cellItems)
    ensures Ascending(chosen)
    ensures forall x :: x in chosen <==> x in cellItems && Wanted(local, peer, x)
  {
    hide KeyLess, NewerThan, CellWatermark.SameSyncState, CellWatermark.DigestDiffers;
    chosen := [];
    if peer.None? {
      chosen := cellItems;
    } else if local.SameSyncState(peer.value) {
    } else if NewerThan(local.version, peer.value.version) {
      ghost var newer := (x: Item) => NewerThan(VersionOf(x), peer.value.version);
      for i := 0 to |cellItems|
        invariant chosen == Keep(newer, cellItems[..i])
      {
        assert cellItems[..i + 1] == cellItems[..i] + [cellItems[i]];
        KeepMore(newer, cellItems[..i], cellItems[i]);
        if NewerThan(VersionOf(cellItems[i]), peer.value.version) {
          chosen := chosen + [cellItems[i]];
        }
      }
      assert cellItems[..|cellItems|] == cellItems;
      KeepAscends(newer, cellItems);
    } else if local.DigestDiffers(peer.value) {
      chosen := cellItems;
    }
  }

  /** Adding one cell's enumeration to that of other cells. */
  lemma EnumeratesCells(xs: seq<Item>, ys: seq<Item>, m: Store, cells: set<CellID>, c: CellID)
    requires Keyed(m) && c !in cells
    requires Enumerates(xs, Restricted(m, cells))
    requires Enumerates(ys, CellOf(m, c))
    ensures Enumerates(xs + ys, Restricted(m, cells + {c}))
  {
    hide Item.Admissible;
    var zs, d := xs + ys, Restricted(m, cells + {c});
    assert forall z :: z in zs <==> z in xs || z in ys;
    forall i, j | 0 <= i < j < |zs| ensures zs[i].SummaryKey() != zs[j].SummaryKey() {
      if i < |xs| <= j {
        assert zs[i] in xs && zs[j] in ys;
      } else if |xs| <= i {
        assert ys[i - |xs|].SummaryKey() != ys[j - |xs|].SummaryKey();
      }
    }
    forall k | k in d ensures d[k] in zs {
      if k.cell == c {
        assert k in CellOf(m, c);
      } else {
        assert k in Restricted(m, cells);
      }
    }
  }

  function Restricted(m: Store, cells: set<CellID>): Store {
    map k | k in m && k.cell in cells :: m[k]
  }

  lemma ChosenEnumerates(chosen: seq<Item>, cellItems: seq<Item>, live: Store,
                         peer: WatermarkSet, c: CellID)
    requires Keyed(live) && c in CellsOf(live)
    requires Enumerates(cellItems, CellOf(live, c))
    requires Ascending(chosen)
    requires forall x :: x in chosen <==> x in cellItems && Wanted(Marks(live)[c], peer.Get(c), x)
    ensures Keyed(Selection(live, peer.View()))
    ensures Enumerates(chosen, CellOf(Selection(live, peer.View()), c))
  {
    hide Item.Admissible, Wanted, Mark, KeyLess, WatermarkSet.View, WatermarkSet.Get, Marks;
    AscendingIsDistinct(chosen);
    ViewIsGet(peer, c);
  }

  lemma SelectionFits(live: Store, view: map<CellID, CellWatermark>)
    requires Keyed(live)
    ensures Keyed(Selection(live, view))
    ensures CellsOf(Selection(live, view)) <= CellsOf(live)
  {
  }

  lemma DescribedCells(ws: WatermarkSet, live: Store)
    requires Keyed(live) && Describes(ws, live)
    ensures (set i | 0 <= i < |ws.entries| :: ws.entries[i].cell) == CellsOf(live)
  {
  }

  lemma EntryAt(ws: WatermarkSet, live: Store, i: nat)
    requires Keyed(live) && Describes(ws, live) && i < |ws.entries|
    ensures var c := ws.entries[i].cell;
            c in CellsOf(live) && ws.entries[i] == Marks(live)[c]
            && c !in (set j | 0 <= j < i :: ws.entries[j].cell)
  {
  }

  lemma RestrictedToAll(m: Store, cells: set<CellID>)
    requires CellsOf(m) <= cells
    ensures Restricted(m, cells) == m
  {
  }

  class SummaryIndex {
    var items: Store

    ghost predicate Valid()
      reads this
    {
      Keyed(items)
    }

    constructor ()
      ensures Valid() && items == map[]
    {
      items := map[];
    }

    method Upsert(item: Item) returns (status: UpsertStatus)
      requires Valid()
      modifies this
      ensures Valid()
      ensures items == Put(old(items), item)
      ensures status.Accepted? <==> item.Valid() && !item.envelope.sourceKind.RawMavlink?
      ensures item.Admissible() <==> item.Valid() && !item.envelope.sourceKind.RawMavlink?
      ensures status.Invalid? <==> !item.Valid()
      ensures status.Invalid? ==> ValidateItem(item) == Some(status.error)
      ensures !status.Accepted? ==> items == old(items)
      ensures status.Accepted? && item.SummaryKey() !in old(items) ==>
        items == old(items)[item.SummaryKey() := item]
      ensures status.Accepted? && item.SummaryKey() in old(items) ==>
        var x, y := item.envelope, old(items)[item.SummaryKey()].envelope;
        items == if || x.sequence > y.sequence
                    || (x.sequence == y.sequence && x.sequence > 0 && Text.Less(y.operation, x.operation))
                    || (x.sequence == 0 && y.sequence == 0 && x.hybrid.value.wall > y.hybrid.value.wall)
                    || (&& x.sequence == 0 && y.sequence == 0 && x.hybrid.value.wall == y.hybrid.value.wall
                        && x.hybrid.value.counter > y.hybrid.value.counter)
                 then old(items)[item.SummaryKey() := item] else old(items)
    {
      hide NewerThan, Envelope.Valid, ValidateItem;
      PutAdvances(items, item);
      ValidateItemExact(item);
      var error := ValidateItem(item);
      if error.Some? { return Invalid(error.value); }
      if item.SummaryKey() in items { NewerByFields(item, items[item.SummaryKey()]); }
      if !item.envelope.sourceKind.ReplicatesOverMeshByDefault() { return DoesNotReplicate; }
      var key := item.SummaryKey();
      if key in items && !Newer(item, items[key]) { return Accepted; }
      items := items[key := item];
      return Accepted;
    }

    method Len() returns (n: nat)
      ensures n == |items|
    {
      n := |items|;
    }

    /** The live items in order, however the map is iterated. */
    method CurrentItems(now: Time) returns (r: seq<Item>)
      requires Valid()
      ensures Keyed(Live(items, now)) && Lists(r, Live(items, now))
      ensures forall x :: x in r <==>
        && x.SummaryKey() in items && items[x.SummaryKey()] == x
        && (now == 0 || x.envelope.expiresAt > now)
    {
      hide Item.Admissible, KeyLess, IsLive, Lists;
      var keys := items.Keys;
      var out: seq<Item> := [];
      ghost var seen: Store := map[];
      while keys != {}
        invariant keys <= items.Keys
        invariant seen == map k | k in items && k !in keys && IsLive(items[k], now) :: items[k]
        invariant Enumerates(out, seen)
        decreases keys
      {
        var key :| key in keys;
        keys := keys - {key};
        if IsLive(items[key], now) {
          EnumeratesMore(out, seen, items[key]);
          out := [items[key]] + out;
          seen := seen[key := items[key]];
        }
      }
      assert seen == Live(items, now);
      SortedEnumerationLists(out, seen);
      r := SortItems(out);
      LiveExact(r, items, now);
    }

    method Watermarks(now: Time) returns (ws: WatermarkSet)
      requires Valid()
      ensures Keyed(Live(items, now)) && Describes(ws, Live(items, now))
      ensures Sorting.Sorted(NameLess, ws.entries)
    {
      var current := CurrentItems(now);
      ws := WatermarksForItems(current, Live(items, now));
    }

    method Diff(peer: WatermarkSet, opts: DiffOptions) returns (result: Option<Diff>)
      requires Valid()
      ensures result.None? <==> !peer.Valid()
      ensures result.Some? ==> result.value == DiffOf(items, peer.View(), opts)
    {
      hide Item.Admissible, KeyLess, NewerThan, Wanted, Mark, NameLess, Groups, Lists, Enumerates,
           WatermarkSet.View, WatermarkSet.Valid, WatermarkSet.Get, Restricted, Keyed, Selection,
           CellsOf, CellOf, Live, Describes, Marks, Ascending;
      var error := ValidateSet(peer);
      if error.Some? { return None; }
      var current := CurrentItems(opts.now);
      ghost var live := Live(items, opts.now);
      var localWatermarks := WatermarksForItems(current, live);
      var byCell := GroupByCell(current);
      ghost var wanted := Selection(live, peer.View());
      SelectionFits(live, peer.View());
      ListedCells(byCell, current, live);
      DescribedCells(localWatermarks, live);
      ghost var visited: set<CellID> := {};
      var selected: seq<Item> := [];
      assert Enumerates(selected, Restricted(wanted, visited)) by { NothingYet(wanted); }
      var entries := localWatermarks.entries;
      for i := 0 to |entries|
        invariant visited == set j | 0 <= j < i :: entries[j].cell
        invariant Enumerates(selected, Restricted(wanted, visited))
      {
        var local := entries[i];
        EntryAt(localWatermarks, live, i);
        GroupListsCell(byCell, current, live, local.cell);
        var cellItems := byCell[local.cell];
        var chosen := SelectCell(local, peer.Get(local.cell), cellItems);
        ChosenEnumerates(chosen, cellItems, live, peer, local.cell);
        EnumeratesCells(selected, chosen, wanted, visited, local.cell);
        selected := selected + chosen;
        visited := visited + {local.cell};
      }
      RestrictedToAll(wanted, visited);
      var sorted := SortItems(selected);
      SortedEnumerationLists(selected, wanted);
      ListingUnique(sorted, Listing(wanted), wanted);
      if opts.maxItems > 0 && |sorted| > opts.maxItems {
        return Some(ItemDiff(sorted[..opts.maxItems], true));
      }
      return Some(ItemDiff(sorted, false));
    }
  }

  lemma NothingYet(m: Store)
    ensures Enumerates([], Restricted(m, {}))
  {
  }
}
