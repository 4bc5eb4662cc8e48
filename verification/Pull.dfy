/** Unbounded pulls: what one leaves behind, and when repeating it completes. */
module Pull {
  import opened Items
  import opened VersionOrder
  import opened SummaryStore
  import opened ItemOrder
  import opened CellDigest
  import opened Watermarks

  /** One pull: the receiver's watermarks go out, the sender's diff is applied. */
  ghost function PullOf(r: Store, s: Store, opts: DiffOptions): Store
    requires Keyed(r) && Keyed(s)
  {
    PutAll(r, DiffOf(s, Marks(Live(r, opts.now)), opts).items)
  }

  lemma PullOfIsKeyed(r: Store, s: Store, opts: DiffOptions)
    requires Keyed(r) && Keyed(s)
    ensures Keyed(PullOf(r, s, opts)) && Advances(r, PullOf(r, s, opts))
  {
    hide Item.Admissible, Marks, DiffOf, IsLive;
    PutAllNewest(r, DiffOf(s, Marks(Live(r, opts.now)), opts).items);
  }

  /** A pull without an item limit. */
  ghost function Pulled(r: Store, s: Store, now: Time): Store
    requires Keyed(r) && Keyed(s)
  {
    PullOf(r, s, DiffOptions(now, 0))
  }

  ghost function Chosen(r: Store, s: Store, now: Time): Store
    requires Keyed(r) && Keyed(s)
  {
    Selection(Live(s, now), Marks(Live(r, now)))
  }

  lemma PulledMerges(r: Store, s: Store, now: Time)
    requires Keyed(r) && Keyed(s)
    ensures Pulled(r, s, now) == Merge(r, Chosen(r, s, now))
    ensures Keyed(Pulled(r, s, now)) && Advances(r, Pulled(r, s, now))
  {
    hide Item.Admissible, KeyLess, NewerThan, Wanted, Marks;
    var d := Chosen(r, s, now);
    PutAllMerges(r, Listing(d), d);
    PutAllNewest(r, Listing(d));
  }

  // ---- Hypotheses on the items in circulation ----

  ghost predicate Drawn(m: Store, universe: set<Item>) {
    forall k :: k in m ==> m[k] in universe
  }

  ghost predicate SameOperation(x: Item, y: Item) {
    x.SummaryKey() == y.SummaryKey() && x.envelope.operation == y.envelope.operation
  }

  /** Fields are free of NUL, which separates them in a digest, and within a key the
      operation id identifies the item. */
  ghost predicate Traceable(universe: set<Item>) {
    && (forall x :: x in universe ==> FieldsOf(x).Clean())
    && (forall x, y :: x in universe && y in universe && SameOperation(x, y) ==> x == y)
  }

  // ---- Equal digests mean equal cells ----

  ghost predicate InCell(a: Store, c: CellID) {
    forall k :: k in a ==> k.cell == c
  }

  ghost predicate NulFree(a: Store) {
    forall k :: k in a ==> FieldsOf(a[k]).Clean()
  }

  /** Equal up to what a digest does not look at. */
  predicate SameContent(x: Item, y: Item) {
    x.SummaryKey() == y.SummaryKey() && x.envelope.operation == y.envelope.operation && x.payload == y.payload
  }

  lemma SameFieldsSameContent(x: Item, y: Item)
    requires x.Admissible() && y.Admissible() && x.Cell() == y.Cell() && FieldsOf(x) == FieldsOf(y)
    ensures SameContent(x, y)
  {
    HashBytesInjective(x.payload, y.payload);
  }

  lemma SameFieldsFound(a: Store, b: Store, xs: seq<Item>, ys: seq<Item>, c: CellID, k: Key)
    requires Keyed(a) && Keyed(b) && InCell(a, c) && InCell(b, c)
    requires Enumerates(xs, a) && Enumerates(ys, b)
    requires multiset(AllFields(xs)) == multiset(AllFields(ys))
    requires k in a
    ensures k in b && SameContent(a[k], b[k])
  {
    hide Item.Admissible, FieldsOf;
    var x := a[k];
    var i :| 0 <= i < |xs| && xs[i] == x;
    assert AllFields(xs)[i] == FieldsOf(x);
    assert FieldsOf(x) in multiset(AllFields(ys));
    var j :| 0 <= j < |ys| && AllFields(ys)[j] == FieldsOf(x);
    var y := ys[j];
    assert y in ys;
    assert y.SummaryKey() in b && b[y.SummaryKey()] == y;
    SameFieldsSameContent(x, y);
  }

  lemma CleanFields(xs: seq<Item>, a: Store)
    requires Enumerates(xs, a) && Keyed(a) && NulFree(a)
    ensures AllClean(AllFields(xs))
  {
    hide Fields.Clean;
    forall f | f in AllFields(xs) ensures f.Clean() && '\n' !in f.payloadHash {
      var i :| 0 <= i < |xs| && AllFields(xs)[i] == f;
      assert xs[i] in xs;
      assert a[xs[i].SummaryKey()] == xs[i];
    }
  }

  /** Equal digests of two cells mean equal keys, operations and payloads, even if
      operation ids are used twice. */
  lemma SameDigestSameContent(a: Store, b: Store, c: CellID)
    requires Keyed(a) && Keyed(b) && InCell(a, c) && InCell(b, c) && NulFree(a) && NulFree(b)
    requires a != map[] && b != map[]
    requires HashCell(Listing(a)) == HashCell(Listing(b))
    ensures a.Keys == b.Keys && forall k :: k in a ==> SameContent(a[k], b[k])
  {
    hide Item.Admissible, KeyLess, Fields.Clean, Preimage, AllClean, NulFree, SameContent;
    var xs, ys := Listing(a), Listing(b);
    ListingNonEmpty(a);
    ListingNonEmpty(b);
    CleanFields(xs, a);
    CleanFields(ys, b);
    PreimageExact(AllFields(xs), AllFields(ys));
    forall k | k in a ensures k in b && SameContent(a[k], b[k]) {
      SameFieldsFound(a, b, xs, ys, c, k);
    }
    forall k | k in b ensures k in a {
      SameFieldsFound(b, a, ys, xs, c, k);
    }
  }

  lemma SameDigestSameCell(a: Store, b: Store, c: CellID, universe: set<Item>)
    requires Keyed(a) && Keyed(b) && InCell(a, c) && InCell(b, c)
    requires Drawn(a, universe) && Drawn(b, universe) && Traceable(universe)
    requires a != map[] && b != map[]
    requires HashCell(Listing(a)) == HashCell(Listing(b))
    ensures a == b
  {
    hide Item.Admissible, KeyLess, Fields.Clean, HashCell;
    SameDigestSameContent(a, b, c);
    forall k | k in a ensures b[k] == a[k] { assert SameOperation(a[k], b[k]); }
  }

  // ---- What a sender's cell contributes ----

  /** Whether item x of the sender's live cell a is sent to a receiver whose live cell is b. */
  ghost predicate Sends(a: Store, b: Store, x: Item)
    requires Keyed(a) && Keyed(b) && a != map[]
  {
    b == map[] || (a != b && (Newer(Top(a), Top(b)) ==> Newer(x, Top(b))))
  }

  lemma MarksDecide(c: CellID, a: Store, b: Store, universe: set<Item>)
    requires Keyed(a) && Keyed(b) && InCell(a, c) && InCell(b, c)
    requires Drawn(a, universe) && Drawn(b, universe) && Traceable(universe)
    requires a != map[] && b != map[]
    ensures a == b ==> Mark(c, a).SameSyncState(Mark(c, b))
    ensures a != b ==> Mark(c, a).DigestDiffers(Mark(c, b))
  {
    hide Item.Admissible, KeyLess, NewerThan, Traceable, Top;
    if Mark(c, a).cellHash == Mark(c, b).cellHash {
      SameDigestSameCell(a, b, c, universe);
    }
  }

  ghost function CellMark(c: CellID, a: Store): Option<CellWatermark>
    requires Keyed(a)
  {
    if a == map[] then None else Some(Mark(c, a))
  }

  lemma KeyedCell(m: Store, c: CellID)
    requires Keyed(m)
    ensures Keyed(CellOf(m, c)) && InCell(CellOf(m, c), c)
    ensures c in CellsOf(m) <==> CellOf(m, c) != map[]
  {
    hide Item.Admissible;
    if c in CellsOf(m) { CellNonEmpty(m, c); }
  }

  lemma LookupMarks(m: Store, c: CellID)
    requires Keyed(m)
    ensures Keyed(CellOf(m, c))
    ensures Lookup(Marks(m), c) == CellMark(c, CellOf(m, c))
  {
    hide Mark, CellOf, Keyed;
    KeyedCell(m, c);
  }

  lemma WantedIsSent(c: CellID, a: Store, b: Store, universe: set<Item>, x: Item)
    requires Keyed(a) && Keyed(b) && InCell(a, c) && InCell(b, c)
    requires Drawn(a, universe) && Drawn(b, universe) && Traceable(universe)
    requires a != map[]
    ensures Wanted(Mark(c, a), CellMark(c, b), x) <==> Sends(a, b, x)
  {
    hide Item.Admissible, NewerThan, Traceable, Top, HashCell, Keyed, InCell, Drawn, Listing,
         CellWatermark.SameSyncState, CellWatermark.DigestDiffers;
    if b != map[] {
      MarksDecide(c, a, b, universe);
      SameStateSameDigest(Mark(c, a), Mark(c, b));
    }
  }

  lemma SameStateSameDigest(v: CellWatermark, w: CellWatermark)
    ensures v.SameSyncState(w) ==> !v.DigestDiffers(w)
  {
  }

  lemma SelectionAt(live: Store, peer: Store, universe: set<Item>, k: Key)
    requires Keyed(live) && Keyed(peer) && k in live
    requires Drawn(live, universe) && Drawn(peer, universe) && Traceable(universe)
    ensures Keyed(CellOf(live, k.cell)) && Keyed(CellOf(peer, k.cell)) && CellOf(live, k.cell) != map[]
    ensures k in Selection(live, Marks(peer))
       <==> Sends(CellOf(live, k.cell), CellOf(peer, k.cell), live[k])
  {
    hide Item.Admissible, NewerThan, Traceable, Top, Mark, Marks, Wanted, Sends, Keyed;
    var c := k.cell;
    assert c in CellsOf(live);
    KeyedCell(live, c);
    KeyedCell(peer, c);
    LookupMarks(live, c);
    LookupMarks(peer, c);
    assert c in Marks(live) by { MarkedCells(live); }
    WantedIsSent(c, CellOf(live, c), CellOf(peer, c), universe, live[k]);
  }

  lemma MarkedCells(m: Store)
    requires Keyed(m)
    ensures Marks(m).Keys == CellsOf(m)
  {
  }

  /** Without a limit, a sender's live cell contributes nothing to the diff exactly
      when the receiver's live cell holds the same items. */
  lemma DiffExact(live: Store, peer: Store, universe: set<Item>, c: CellID)
    requires Keyed(live) && Keyed(peer) && c in CellsOf(live)
    requires Drawn(live, universe) && Drawn(peer, universe) && Traceable(universe)
    ensures c !in CellsOf(Selection(live, Marks(peer))) <==> CellOf(live, c) == CellOf(peer, c)
  {
    hide Item.Admissible, KeyLess, NewerThan, Traceable, Top, Marks, Selection;
    CellNonEmpty(live, c);
    var a, b, d := CellOf(live, c), CellOf(peer, c), Selection(live, Marks(peer));
    TopIsNewest(a);
    var t := Top(a).SummaryKey();
    SelectionAt(live, peer, universe, t);
    SelectionWithin(live, Marks(peer));
    forall k | k in live && k.cell == c
      ensures a == b ==> k !in d
    {
      SelectionAt(live, peer, universe, k);
    }
  }

  lemma SelectionWithin(live: Store, view: map<CellID, CellWatermark>)
    requires Keyed(live)
    ensures Keyed(Selection(live, view))
    ensures forall k :: k in Selection(live, view) ==> k in live && Selection(live, view)[k] == live[k]
  {
  }
}
