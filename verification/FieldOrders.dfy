/** The orders of the mesh, field by field. */
module FieldOrders {
  import opened Items
  import opened VersionOrder
  import opened SummaryStore
  import opened ItemOrder
  import opened CellDigest
  import opened Watermarks
  import Text

  /** One text is before another exactly when it is a proper prefix of it or is
      smaller at the first place where they differ. */
  lemma {:induction false} LessExact(a: string, b: string)
    ensures Text.Less(a, b) <==>
      exists i :: 0 <= i <= |a| && i < |b| && a[..i] == b[..i] && (i == |a| || a[i] < b[i])
  {
    if a != [] && b != [] && a[0] == b[0] {
      LessExact(a[1..], b[1..]);
      if Text.Less(a[1..], b[1..]) {
        var i :| 0 <= i <= |a[1..]| && i < |b[1..]| && a[1..][..i] == b[1..][..i]
                 && (i == |a[1..]| || a[1..][i] < b[1..][i]);
        assert a[..i + 1] == [a[0]] + a[1..][..i] && b[..i + 1] == [b[0]] + b[1..][..i];
      }
      forall i | 0 <= i <= |a| && i < |b| && a[..i] == b[..i] && (i == |a| || a[i] < b[i])
        ensures Text.Less(a[1..], b[1..])
      {
        assert a[1..][..i - 1] == a[..i][1..] == b[..i][1..] == b[1..][..i - 1];
      }
    } else if Text.Less(a, b) {
      assert a[..0] == b[..0];
    } else {
      assert forall i :: 0 < i <= |a| && i < |b| && a[..i] == b[..i] ==> a[..i][0] == b[..i][0];
    }
  }

  /** Newest by sequence, then operation; without sequences by wall time, then counter,
      a missing hybrid time being oldest; without either by observed time, then operation. */
  lemma NewerThanExact(a: Version, b: Version)
    ensures a.sequence > 0 || b.sequence > 0 ==>
      (NewerThan(a, b) <==>
       a.sequence > b.sequence || (a.sequence == b.sequence && Text.Less(b.operation, a.operation)))
    ensures a.sequence == b.sequence == 0 && a.hybrid.Some? && b.hybrid.Some? ==>
      (NewerThan(a, b) <==>
       || a.hybrid.value.wall > b.hybrid.value.wall
       || (a.hybrid.value.wall == b.hybrid.value.wall && a.hybrid.value.counter > b.hybrid.value.counter))
    ensures a.sequence == b.sequence == 0 && a.hybrid.Some? != b.hybrid.Some? ==>
      (NewerThan(a, b) <==> a.hybrid.Some?)
    ensures a.sequence == b.sequence == 0 && a.hybrid.None? && b.hybrid.None? ==>
      (NewerThan(a, b) <==>
       || a.observedAt > b.observedAt
       || (a.observedAt == b.observedAt && Text.Less(b.operation, a.operation)))
  {
  }

  /** Which of two admissible items is newer. */
  lemma NewerByFields(x: Item, y: Item)
    requires x.Valid() && y.Valid()
    ensures var e, f := x.envelope, y.envelope;
      && (e.sequence == 0 ==> e.hybrid.Some?)
      && (f.sequence == 0 ==> f.hybrid.Some?)
      && (Newer(x, y) <==>
          || e.sequence > f.sequence
          || (e.sequence == f.sequence && e.sequence > 0 && Text.Less(f.operation, e.operation))
          || (e.sequence == 0 && f.sequence == 0 && e.hybrid.value.wall > f.hybrid.value.wall)
          || (&& e.sequence == 0 && f.sequence == 0 && e.hybrid.value.wall == f.hybrid.value.wall
              && e.hybrid.value.counter > f.hybrid.value.counter))
  {
    hide NewerThan, CompareHybridTime;
    NewerThanExact(VersionOf(x), VersionOf(y));
  }

  /** Cells are listed by node, then vehicle, then group, and their items by entity. */
  lemma KeyLessExact(a: Key, b: Key)
    ensures KeyLess(a, b) <==>
      || Text.Less(a.cell.node, b.cell.node)
      || (a.cell.node == b.cell.node && Text.Less(a.cell.vehicle, b.cell.vehicle))
      || (&& a.cell.node == b.cell.node && a.cell.vehicle == b.cell.vehicle
          && Text.Less(a.cell.group, b.cell.group))
      || (a.cell == b.cell && Text.Less(a.entity, b.entity))
  {
    Text.LessTotal(a.cell.node, b.cell.node);
    Text.LessTotal(a.cell.vehicle, b.cell.vehicle);
    Text.LessTotal(a.cell.group, b.cell.group);
    Text.LessTotal(a.entity, b.entity);
  }

  /** Sorting compares key, then sequence, then hybrid time, then operation. */
  lemma ItemLessExact(x: Item, y: Item)
    ensures var e, f := x.envelope, y.envelope;
      && (e.cell != f.cell || e.entity != f.entity ==>
          (ItemLess(x, y) <==> KeyLess(Key(e.cell, e.entity), Key(f.cell, f.entity))))
      && (e.cell == f.cell && e.entity == f.entity ==>
          && (e.sequence != f.sequence ==> (ItemLess(x, y) <==> e.sequence < f.sequence))
          && (e.sequence == f.sequence ==>
              && (e.hybrid == f.hybrid ==> (ItemLess(x, y) <==> Text.Less(e.operation, f.operation)))
              && (e.hybrid.Some? != f.hybrid.Some? ==> (ItemLess(x, y) <==> f.hybrid.Some?))
              && (e.hybrid.Some? && f.hybrid.Some? && e.hybrid != f.hybrid ==>
                  (ItemLess(x, y) <==>
                   || e.hybrid.value.wall < f.hybrid.value.wall
                   || (&& e.hybrid.value.wall == f.hybrid.value.wall
                       && e.hybrid.value.counter < f.hybrid.value.counter)))))
  {
    hide KeyLess;
  }

  /** Two watermarks are in the same state exactly when all but their observed times
      agree, and their digests differ exactly when counts or hashes do. */
  lemma SyncStateExact(local: CellWatermark, peer: CellWatermark)
    ensures local.SameSyncState(peer) <==>
      && local.version.(observedAt := 0) == peer.version.(observedAt := 0)
      && local.itemCount == peer.itemCount && local.cellHash == peer.cellHash
    ensures local.DigestDiffers(peer) <==>
      !(local.itemCount == peer.itemCount && local.cellHash == peer.cellHash)
  {
  }

  /** What a peer is sent of a cell: everything when it has no watermark for it, nothing
      when its watermark is in the same state, what is newer than its watermark when the
      local one is newer, and otherwise everything exactly when the digests differ. */
  lemma WantedExact(local: CellWatermark, peer: Option<CellWatermark>, x: Item)
    ensures peer.None? ==> Wanted(local, peer, x)
    ensures peer.Some? && local.(version := local.version.(observedAt := 0), cell := peer.value.cell)
                          == peer.value.(version := peer.value.version.(observedAt := 0)) ==>
      !Wanted(local, peer, x)
    ensures peer.Some? && NewerThan(local.version, peer.value.version)
            && local.(version := local.version.(observedAt := 0), cell := peer.value.cell)
               != peer.value.(version := peer.value.version.(observedAt := 0)) ==>
      (Wanted(local, peer, x) <==> NewerThan(VersionOf(x), peer.value.version))
    ensures peer.Some? && !NewerThan(local.version, peer.value.version) ==>
      (Wanted(local, peer, x) <==>
       local.itemCount != peer.value.itemCount || local.cellHash != peer.value.cellHash)
  {
    hide NewerThan, CompareHybridTime;
    if peer.Some? { SyncStateExact(local, peer.value); }
  }

  /** The listing of the live part: the items that expire later, or all at the zero time. */
  lemma LiveExact(r: seq<Item>, m: Store, now: Time)
    requires Keyed(m) && Lists(r, Live(m, now))
    ensures forall x :: x in r <==>
      x.SummaryKey() in m && m[x.SummaryKey()] == x && (now == 0 || x.envelope.expiresAt > now)
  {
    hide KeyLess, Item.Admissible;
    forall x: Item | x.SummaryKey() in m && m[x.SummaryKey()] == x && (now == 0 || x.envelope.expiresAt > now)
      ensures x in r
    {
      assert Live(m, now)[x.SummaryKey()] == x;
    }
  }

  /** The watermark of a cell is that of one of its items, with their number. */
  lemma MarkByFields(c: CellID, a: Store)
    requires Keyed(a) && a != map[]
    ensures var w := Mark(c, a);
      && w.cell == c && w.itemCount == |a|
      && exists k :: k in a && var e := a[k].envelope;
         && w.version.sequence == e.sequence && w.version.hybrid == e.hybrid
         && w.version.observedAt == e.observedAt && w.version.operation == e.operation
  {
    hide NewerThan, Item.Admissible;
    TopIsNewest(a);
  }

  /** A digest line: entity, group, operation and payload hash with NULs between. */
  lemma LineByFields(x: Item)
    ensures FieldsOf(x).Line()
         == x.envelope.entity + "\0" + x.envelope.cell.group + "\0" + x.envelope.operation + "\0"
            + x.envelope.payloadHash
  {
    var e := x.envelope;
    Text.JoinFour(e.entity, e.cell.group, e.operation, e.payloadHash, '\0');
  }
}
