/** What a node's watermark set says, and that it says it in one way. */
module WatermarkLaws {
  import opened Items
  import opened VersionOrder
  import opened SummaryStore
  import opened ItemOrder
  import opened CellDigest
  import opened Watermarks
  import opened SummaryIndexes
  import Sorting
  import Text

  /** A watermark set that describes a store is read as exactly the store's marks. */
  lemma DescriptionIsMarks(ws: WatermarkSet, live: Store)
    requires Keyed(live) && Describes(ws, live)
    ensures ws.View() == Marks(live)
  {
    hide Item.Admissible, Mark;
    forall c ensures c in ws.View() <==> c in Marks(live) {
      if c in CellsOf(live) {
        MarkNamesCell(live, c);
        assert Marks(live)[c] in ws.entries;
      }
    }
  }

  /** Each watermark carries its cell's newest version, item count and digest. */
  lemma MarkCarries(live: Store, c: CellID)
    requires Keyed(live) && c in CellsOf(live)
    ensures var w, a := Marks(live)[c], CellOf(live, c);
            && w.cell == c && w.itemCount == |a| > 0
            && (exists xs :: Lists(xs, a) && w.cellHash == HashCell(xs))
            && (exists k :: k in a && VersionOf(a[k]) == w.version)
            && (forall k :: k in a ==> !NewerThan(VersionOf(a[k]), w.version))
  {
    hide Item.Admissible, KeyLess, NewerThan;
    CellNonEmpty(live, c);
    var a := CellOf(live, c);
    TopIsNewest(a);
    assert Lists(Listing(a), a);
    assert Top(a).SummaryKey() in a;
  }

  /** A node's own watermark set always passes its peer's validation. */
  lemma DescriptionIsValid(ws: WatermarkSet, live: Store)
    requires Keyed(live) && Describes(ws, live)
    ensures ws.Valid()
  {
    forall i | 0 <= i < |ws.entries| ensures ws.entries[i].Valid() {
      EntryAt(ws, live, i);
      MarkIsValid(live, ws.entries[i].cell);
    }
  }

  lemma MarkIsValid(live: Store, c: CellID)
    requires Keyed(live) && c in CellsOf(live)
    ensures Marks(live)[c].Valid()
  {
    hide KeyLess, NewerThan;
    CellNonEmpty(live, c);
    var a := CellOf(live, c);
    TopIsNewest(a);
    var k := Top(a).SummaryKey();
    assert a[k].Valid() && a[k].envelope.cell == c;
    NotBlankNotEmpty(a[k].envelope.operation);
  }

  lemma NotBlankNotEmpty(s: string)
    requires !Text.Blank(s)
    ensures s != ""
  {
  }

  lemma {:induction false} CellsAreEntries(es: seq<CellWatermark>)
    requires WatermarkSet(es).OnePerCell()
    ensures |set e | e in es :: e.cell| == |es|
  {
    var cells := set e | e in es :: e.cell;
    if es == [] {
      assert cells == {};
    } else {
      var init, last := es[..|es| - 1], es[|es| - 1];
      CellsAreEntries(init);
      assert es == init + [last];
      assert cells == (set e | e in init :: e.cell) + {last.cell};
    }
  }

  /** There are as many watermarks as live cells. */
  lemma OneEntryPerCell(ws: WatermarkSet, live: Store)
    requires Keyed(live) && Describes(ws, live)
    ensures |ws.entries| == |CellsOf(live)|
  {
    hide Item.Admissible, Mark;
    CellsAreEntries(ws.entries);
    forall c | c in CellsOf(live) ensures exists e :: e in ws.entries && e.cell == c {
      MarkNamesCell(live, c);
      assert Marks(live)[c] in ws.entries;
    }
    assert (set e | e in ws.entries :: e.cell) == CellsOf(live);
  }

  // ---- Entry order ----

  /** What Watermarks may return for these live items, however it visits them. */
  ghost predicate Presents(ws: WatermarkSet, live: Store)
    requires Keyed(live)
  {
    Describes(ws, live) && Sorting.Sorted(NameLess, ws.entries)
  }

  ghost predicate DistinctNames(cells: set<CellID>) {
    forall c, d :: c in cells && d in cells && c.String() == d.String() ==> c == d
  }

  ghost predicate OnePresentation(live: Store)
    requires Keyed(live)
  {
    forall v, w :: Presents(v, live) && Presents(w, live) ==> v == w
  }

  predicate SlashFree(c: CellID) {
    '/' !in c.node && '/' !in c.vehicle && '/' !in c.group
  }

  /** Without "/" in identifiers names are distinct. */
  lemma SlashFreeNamesDiffer(a: CellID, b: CellID)
    requires SlashFree(a) && SlashFree(b) && a.String() == b.String()
    ensures a == b
  {
    var s := ['/'];
    assert a.String() == a.node + s + (a.vehicle + s + a.group);
    assert b.String() == b.node + s + (b.vehicle + s + b.group);
    Text.SplitOnce(a.node, a.vehicle + s + a.group, b.node, b.vehicle + s + b.group, '/');
    Text.SplitOnce(a.vehicle, a.group, b.vehicle, b.group, '/');
  }

  lemma DistinctNamesOneOrder(v: WatermarkSet, w: WatermarkSet, live: Store)
    requires Keyed(live) && Presents(v, live) && Presents(w, live) && DistinctNames(CellsOf(live))
    ensures v == w
  {
    hide Item.Admissible, Mark, NameLess;
    Sorting.SameSetSameMultiset(v.entries, w.entries);
    forall x, y | x in v.entries && y in v.entries && x != y
      ensures NameLess(x, y) || NameLess(y, x)
    {
      NamesCompare(x, y);
    }
    Sorting.SortedUnique(NameLess, v.entries, w.entries);
  }

  lemma NamesCompare(x: CellWatermark, y: CellWatermark)
    requires x.cell.String() != y.cell.String()
    ensures NameLess(x, y) || NameLess(y, x)
  {
    Text.LessTotal(x.cell.String(), y.cell.String());
  }

  /** The marks of some of the cells, one after the other. */
  lemma {:induction false} SomeMarked(live: Store, cells: set<CellID>) returns (es: seq<CellWatermark>)
    requires Keyed(live) && cells <= CellsOf(live)
    ensures Marked(es, cells, Marks(live))
    decreases cells
  {
    hide Item.Admissible, Mark;
    if c :| c in cells {
      var rest := SomeMarked(live, cells - {c});
      MarkNamesCell(live, c);
      es := rest + [Marks(live)[c]];
    } else {
      es := [];
    }
  }

  lemma SomePresentation(live: Store) returns (ws: WatermarkSet)
    requires Keyed(live)
    ensures Presents(ws, live)
  {
    hide Item.Admissible, Mark, NameLess, Marked;
    var es := SomeMarked(live, CellsOf(live));
    ws := WatermarkSet(Sorting.Sort(NameLess, es));
    RearrangedMarked(es, ws.entries, CellsOf(live), Marks(live));
    NameLessOrders(es);
    Sorting.SortSorts(NameLess, es);
  }

  /** Two entries of one name can change places. */
  lemma SwappedIsSorted(es: seq<CellWatermark>, i: nat, j: nat)
    requires i < j < |es| && Sorting.Sorted(NameLess, es) && es[i].cell.String() == es[j].cell.String()
    ensures var r := es[i := es[j]][j := es[i]];
            Sorting.Sorted(NameLess, r) && multiset(r) == multiset(es)
  {
    hide CellID.String;
    var r := es[i := es[j]][j := es[i]];
    forall m, n | 0 <= m < n < |r| ensures !NameLess(r[n], r[m]) {
      BetweenEquals(es, i, j, m, n);
    }
  }

  lemma BetweenEquals(es: seq<CellWatermark>, i: nat, j: nat, m: nat, n: nat)
    requires i < j < |es| && m < n < |es|
    requires Sorting.Sorted(NameLess, es) && es[i].cell.String() == es[j].cell.String()
    ensures var r := es[i := es[j]][j := es[i]];
            !NameLess(r[n], r[m])
  {
    hide CellID.String;
    Text.LessTotal(es[i].cell.String(), es[i].cell.String());
  }

  lemma SharedNameTwoOrders(live: Store, c: CellID, d: CellID)
    requires Keyed(live) && c in CellsOf(live) && d in CellsOf(live) && c != d && c.String() == d.String()
    ensures !OnePresentation(live)
  {
    hide Item.Admissible, Mark, NameLess, CellID.String, Marked;
    var ws := SomePresentation(live);
    var i := EntryOf(ws, live, c);
    var j := EntryOf(ws, live, d);
    var lo, hi := if i < j then i else j, if i < j then j else i;
    SwappedIsSorted(ws.entries, lo, hi);
    var swapped := WatermarkSet(ws.entries[lo := ws.entries[hi]][hi := ws.entries[lo]]);
    RearrangedMarked(ws.entries, swapped.entries, CellsOf(live), Marks(live));
    assert Presents(swapped, live);
    assert swapped.entries[lo] != ws.entries[lo];
  }

  lemma EntryOf(ws: WatermarkSet, live: Store, c: CellID) returns (i: nat)
    requires Keyed(live) && Describes(ws, live) && c in CellsOf(live)
    ensures i < |ws.entries| && ws.entries[i].cell == c
  {
    hide Item.Admissible, Mark;
    MarkNamesCell(live, c);
    assert Marks(live)[c] in ws.entries;
    i :| 0 <= i < |ws.entries| && ws.entries[i] == Marks(live)[c];
  }

  /** The whole watermark set, entry order included, is determined by the store
      exactly when no two of its live cells share a name. */
  lemma EntryOrderExact(live: Store)
    requires Keyed(live)
    ensures OnePresentation(live) <==> DistinctNames(CellsOf(live))
  {
    hide Item.Admissible, CellID.String, Presents;
    if DistinctNames(CellsOf(live)) {
      forall v, w | Presents(v, live) && Presents(w, live) ensures v == w { DistinctNamesOneOrder(v, w, live); }
    } else {
      var c, d :| c in CellsOf(live) && d in CellsOf(live) && c.String() == d.String() && c != d;
      SharedNameTwoOrders(live, c, d);
    }
  }

  // ---- The shape of a diff ----

  /** Against any watermarks, a diff holds live items of the store, one per key, in
      order, at most maxItems of them, and is truncated exactly when a selected
      item was left out. */
  lemma DiffShape(m: Store, view: map<CellID, CellWatermark>, opts: DiffOptions)
    requires Keyed(m)
    ensures Keyed(Live(m, opts.now))
    ensures var d, chosen := DiffOf(m, view, opts), Selection(Live(m, opts.now), view);
            && (forall x :: x in d.items ==>
                  x.SummaryKey() in m && m[x.SummaryKey()] == x && IsLive(x, opts.now)
                  && x.SummaryKey() in chosen)
            && Ascending(d.items) && DistinctKeys(d.items)
            && (opts.maxItems > 0 ==> |d.items| <= opts.maxItems)
            && (d.truncated <==> exists k :: k in chosen && chosen[k] !in d.items)
  {
    hide Item.Admissible, KeyLess, Wanted, Marks, IsLive;
    var d, chosen := DiffOf(m, view, opts), Selection(Live(m, opts.now), view);
    var xs := Listing(chosen);
    assert d.items <= xs;
    forall x | x in d.items
      ensures x.SummaryKey() in m && m[x.SummaryKey()] == x && IsLive(x, opts.now)
              && x.SummaryKey() in chosen
    {
      assert x in xs;
    }
    if d.truncated {
      var x := xs[opts.maxItems];
      assert x in xs;
      forall i | 0 <= i < |d.items| ensures d.items[i] != x { assert xs[i] == d.items[i]; }
      assert chosen[x.SummaryKey()] !in d.items;
    }
  }
}
