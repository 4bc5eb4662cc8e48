/** Watermarks and diffs as functions of a store. */
module Watermarks {
  import opened Items
  import opened VersionOrder
  import opened SummaryStore
  import opened ItemOrder
  import opened CellDigest
  import Text

  datatype CellWatermark = CellWatermark(
    cell: CellID, version: Version, itemCount: int, cellHash: CellHash)
  {
    predicate Valid() {
      && cell.Valid()
      && (version.sequence != 0 || (version.hybrid.Some? && !version.hybrid.value.IsZero()))
      && version.operation != ""
      && version.observedAt != ZERO_TIME
      && itemCount > 0
      && cellHash.Sha256?
    }

    predicate SameSyncState(peer: CellWatermark) {
      && version.sequence == peer.version.sequence
      && CompareHybridTime(version.hybrid, peer.version.hybrid) == 0
      && version.operation == peer.version.operation
      && itemCount == peer.itemCount
      && cellHash == peer.cellHash
    }

    predicate DigestDiffers(peer: CellWatermark) {
      itemCount != peer.itemCount || cellHash != peer.cellHash
    }
  }

  datatype WatermarkSet = WatermarkSet(entries: seq<CellWatermark>) {
    predicate OnePerCell() {
      forall i, j :: 0 <= i < j < |entries| ==> entries[i].cell != entries[j].cell
    }

    predicate Valid() {
      (forall i :: 0 <= i < |entries| ==> entries[i].Valid()) && OnePerCell()
    }

    /** The first entry of a cell, if there is one. */
    function Get(cell: CellID): Option<CellWatermark> {
      Find(entries, cell)
    }

    ghost function View(): map<CellID, CellWatermark> {
      map c | c in (set e | e in entries :: e.cell) && Get(c).Some? :: Get(c).value
    }
  }

  function Find(entries: seq<CellWatermark>, cell: CellID): (r: Option<CellWatermark>)
    ensures r.Some? ==> r.value in entries && r.value.cell == cell
    ensures r.None? ==> forall e :: e in entries ==> e.cell != cell
  {
    if entries == [] then None
    else if entries[0].cell == cell then Some(entries[0])
    else Find(entries[1..], cell)
  }

  function Lookup<K, V>(m: map<K, V>, k: K): Option<V> {
    if k in m then Some(m[k]) else None
  }

  lemma ViewIsGet(ws: WatermarkSet, c: CellID)
    ensures Lookup(ws.View(), c) == ws.Get(c)
  {
  }

  // ---- The live part of a store and its cells ----

  predicate IsLive(x: Item, now: Time) {
    now == ZERO_TIME || x.envelope.expiresAt > now
  }

  function Live(m: Store, now: Time): Store {
    map k | k in m && IsLive(m[k], now) :: m[k]
  }

  function CellOf(m: Store, c: CellID): Store {
    map k | k in m && k.cell == c :: m[k]
  }

  function CellsOf(m: Store): set<CellID> {
    set k | k in m :: k.cell
  }

  lemma CellNonEmpty(m: Store, c: CellID)
    requires c in CellsOf(m)
    ensures CellOf(m, c) != map[]
    ensures Keyed(m) ==> Keyed(CellOf(m, c))
  {
    var k :| k in m && k.cell == c;
    assert k in CellOf(m, c);
  }

  // ---- The watermark of a cell ----

  /** The newest of a list, the earliest listed on a tie. */
  function NewestOf(items: seq<Item>): Item
    requires items != []
  {
    var last := items[|items| - 1];
    if |items| == 1 then last
    else
      var before := NewestOf(items[..|items| - 1]);
      if Newer(last, before) then last else before
  }

  lemma {:induction false} NewestIsNewest(items: seq<Item>)
    requires items != []
    ensures NewestOf(items) in items
    ensures forall x :: x in items ==> !Newer(x, NewestOf(items))
  {
    hide NewerThan;
    var last, n := items[|items| - 1], NewestOf(items);
    NewerAsymmetric(VersionOf(last), VersionOf(last));
    if |items| > 1 {
      var init := items[..|items| - 1];
      NewestIsNewest(init);
      assert items == init + [last];
      forall x | x in items ensures !Newer(x, n) {
        if x in init {
          NewerAsymmetric(VersionOf(last), VersionOf(NewestOf(init)));
          NotNewerTransitive(VersionOf(x), VersionOf(NewestOf(init)), VersionOf(n));
        }
      }
    }
  }

  ghost function Top(a: Store): Item
    requires Keyed(a) && a != map[]
  {
    ListingNonEmpty(a);
    NewestOf(Listing(a))
  }

  lemma ListingNonEmpty(a: Store)
    requires Keyed(a) && a != map[]
    ensures Listing(a) != []
  {
  }

  /** The top of a cell is one of its items and none of them is newer. */
  lemma TopIsNewest(a: Store)
    requires Keyed(a) && a != map[]
    ensures Top(a).SummaryKey() in a && a[Top(a).SummaryKey()] == Top(a)
    ensures forall k :: k in a ==> !Newer(a[k], Top(a))
  {
    hide KeyLess, NewerThan, Item.Admissible;
    ListingNonEmpty(a);
    NewestIsNewest(Listing(a));
  }

  ghost function Mark(c: CellID, a: Store): CellWatermark
    requires Keyed(a) && a != map[]
  {
    CellWatermark(c, VersionOf(Top(a)), |a|, HashCell(Listing(a)))
  }

  /** One watermark per cell that has live items. */
  ghost function Marks(live: Store): map<CellID, CellWatermark>
    requires Keyed(live)
  {
    map c | c in CellsOf(live) :: (CellNonEmpty(live, c); Mark(c, CellOf(live, c)))
  }

  // ---- The diff against a peer's watermarks ----

  predicate Wanted(local: CellWatermark, peer: Option<CellWatermark>, x: Item) {
    || peer.None?
    || (&& !local.SameSyncState(peer.value)
        && if NewerThan(local.version, peer.value.version)
           then NewerThan(VersionOf(x), peer.value.version)
           else local.DigestDiffers(peer.value))
  }

  ghost function Selection(live: Store, peer: map<CellID, CellWatermark>): Store
    requires Keyed(live)
  {
    map k | k in live && Wanted(Marks(live)[k.cell], Lookup(peer, k.cell), live[k]) :: live[k]
  }

  datatype DiffOptions = DiffOptions(now: Time, maxItems: int)

  datatype Diff = ItemDiff(items: seq<Item>, truncated: bool)

  /** Cut a list to maxItems when that is positive. */
  function Bounded(items: seq<Item>, maxItems: int): Diff {
    if maxItems > 0 && |items| > maxItems then ItemDiff(items[..maxItems], true)
    else ItemDiff(items, false)
  }

  ghost function DiffOf(m: Store, peer: map<CellID, CellWatermark>, opts: DiffOptions): Diff
    requires Keyed(m)
  {
    Bounded(Listing(Selection(Live(m, opts.now), peer)), opts.maxItems)
  }
}
