/** Pulls with an item limit: they work through the sender's listing in order. */
module BoundedCatchUp {
  import opened Items
  import opened VersionOrder
  import opened SummaryStore
  import opened ItemOrder
  import opened Watermarks
  import opened Pull
  import opened CatchUp

  /** Within each cell, what is listed from q on is newer than what is listed before. */
  ghost predicate BoundaryAscends(xs: seq<Item>, q: nat) {
    forall i, j :: 0 <= i < q <= j < |xs| && xs[i].Cell() == xs[j].Cell() ==> Newer(xs[j], xs[i])
  }

  /** Where the t-th chunk begins, counted from p. */
  function Boundary(p: nat, limit: nat, t: nat): nat {
    p + t * limit
  }

  ghost predicate BoundariesAscend(xs: seq<Item>, p: nat, limit: nat, end: int) {
    forall t: nat :: Boundary(p, limit, t) < end ==> BoundaryAscends(xs, Boundary(p, limit, t))
  }

  ghost function Agenda(s: Store, now: Time): (xs: seq<Item>)
    requires Keyed(s)
    ensures Keyed(Live(s, now)) && Lists(xs, Live(s, now))
  {
    Listing(Live(s, now))
  }

  ghost function StoreOf(xs: seq<Item>): Store
    requires Ascending(xs)
  {
    map k | k in (set x | x in xs :: x.SummaryKey()) :: ItemAt(xs, k)
  }

  ghost function ItemAt(xs: seq<Item>, k: Key): (x: Item)
    requires exists y :: y in xs && y.SummaryKey() == k
    ensures x in xs && x.SummaryKey() == k
  {
    var y :| y in xs && y.SummaryKey() == k;
    y
  }

  lemma StoreOfLists(xs: seq<Item>)
    requires Ascending(xs)
    ensures Lists(xs, StoreOf(xs))
  {
    hide KeyLess;
    AscendingIsDistinct(xs);
    forall x | x in xs ensures StoreOf(xs)[x.SummaryKey()] == x {
      ItemsWithOneKeyEach(xs, x, StoreOf(xs)[x.SummaryKey()]);
    }
  }

  /** The receiver's live items are the first p of the agenda, and its expired
      entries do not shadow the rest. */
  ghost predicate HoldsPrefix(r: Store, xs: seq<Item>, now: Time, p: nat) {
    && p <= |xs|
    && (forall i :: 0 <= i < p ==> xs[i].SummaryKey() in r && r[xs[i].SummaryKey()] == xs[i])
    && (forall i :: p <= i < |xs| ==>
          xs[i].SummaryKey() !in r || Newer(xs[i], r[xs[i].SummaryKey()]))
    && (forall k :: k in Live(r, now) ==> Live(r, now)[k] in xs[..p])
  }

  /** The setting of the lemmas below. */
  ghost predicate Ready(r: Store, s: Store, now: Time, universe: set<Item>, p: nat) {
    && Paired(r, s, universe)
    && HoldsPrefix(r, Agenda(s, now), now, p)
    && BoundaryAscends(Agenda(s, now), p)
  }

  lemma AgendaItem(s: Store, now: Time, i: nat)
    requires Keyed(s) && i < |Agenda(s, now)|
    ensures var x := Agenda(s, now)[i];
            && x.SummaryKey() in s && s[x.SummaryKey()] == x && IsLive(x, now)
            && x.SummaryKey() in LiveCell(s, now, x.Cell())
            && LiveCell(s, now, x.Cell())[x.SummaryKey()] == x
  {
  }

  lemma AgendaIndex(s: Store, now: Time, k: Key) returns (i: nat)
    requires Keyed(s) && k in Live(s, now)
    ensures i < |Agenda(s, now)| && Agenda(s, now)[i] == s[k] && s[k].SummaryKey() == k
  {
    hide Item.Admissible, KeyLess, IsLive;
    i :| 0 <= i < |Agenda(s, now)| && Agenda(s, now)[i] == s[k];
  }

  lemma AgendaKeysDiffer(s: Store, now: Time, i: nat, j: nat)
    requires Keyed(s) && i < |Agenda(s, now)| && j < |Agenda(s, now)|
    ensures Agenda(s, now)[i].SummaryKey() == Agenda(s, now)[j].SummaryKey() ==> i == j
  {
  }

  /** A live entry of the receiver is one of the prefix. */
  lemma HeldIndex(r: Store, s: Store, now: Time, p: nat, k: Key) returns (i: nat)
    requires Keyed(r) && Keyed(s) && HoldsPrefix(r, Agenda(s, now), now, p)
    requires k in r && IsLive(r[k], now)
    ensures i < p <= |Agenda(s, now)| && Agenda(s, now)[i] == r[k] && r[k].SummaryKey() == k
  {
    hide Item.Admissible, KeyLess, IsLive, Agenda;
    assert k in Live(r, now);
    i :| 0 <= i < p && Agenda(s, now)[..p][i] == r[k];
  }

  /** The receiver's watermark of a cell is below every later agenda item of it. */
  lemma LaterIsNewer(r: Store, s: Store, now: Time, universe: set<Item>, p: nat, i: nat)
    requires Ready(r, s, now, universe, p) && p <= i < |Agenda(s, now)|
    requires LiveCell(r, now, Agenda(s, now)[i].Cell()) != map[]
    ensures Newer(Agenda(s, now)[i], Top(LiveCell(r, now, Agenda(s, now)[i].Cell())))
  {
    hide Item.Admissible, NewerThan, KeyLess, IsLive, Traceable, Top, LiveCell, Agenda;
    var c := Agenda(s, now)[i].Cell();
    TopEntry(r, now, c);
    var j := HeldIndex(r, s, now, p, Top(LiveCell(r, now, c)).SummaryKey());
  }

  lemma LaterIsAbsent(r: Store, s: Store, now: Time, universe: set<Item>, p: nat, i: nat)
    requires Paired(r, s, universe) && HoldsPrefix(r, Agenda(s, now), now, p) && p <= i < |Agenda(s, now)|
    ensures Agenda(s, now)[i].SummaryKey() !in LiveCell(r, now, Agenda(s, now)[i].Cell())
  {
  }

  /** A cell that differs at the receiver has an item beyond the prefix. */
  lemma DifferingCell(r: Store, s: Store, now: Time, universe: set<Item>, p: nat, c: CellID)
      returns (j: nat)
    requires Ready(r, s, now, universe, p) && LiveCell(s, now, c) != LiveCell(r, now, c)
    ensures p <= j < |Agenda(s, now)| && Agenda(s, now)[j].Cell() == c
  {
    hide Item.Admissible, NewerThan, KeyLess, IsLive, Traceable, Top, Agenda, BoundaryAscends, LiveCell,
         HoldsPrefix, Keyed;
    var a, b := LiveCell(s, now, c), LiveCell(r, now, c);
    forall k | k in b ensures k in a && a[k] == b[k] {
      HeldCellEntry(r, s, now, p, c, k);
    }
    var k :| k in a && k !in b;
    CellEntry(s, now, c, k);
    j := AgendaIndex(s, now, k);
    if j < p { PrefixIsHeld(r, s, now, p, j); }
  }

  lemma CellEntry(m: Store, now: Time, c: CellID, k: Key)
    requires Keyed(m) && k in LiveCell(m, now, c)
    ensures k.cell == c && k in Live(m, now)
    ensures k in m && IsLive(m[k], now) && LiveCell(m, now, c)[k] == m[k]
  {
  }

  lemma HeldCellEntry(r: Store, s: Store, now: Time, p: nat, c: CellID, k: Key)
    requires Keyed(r) && Keyed(s) && HoldsPrefix(r, Agenda(s, now), now, p)
    requires k in LiveCell(r, now, c)
    ensures k in LiveCell(s, now, c) && LiveCell(s, now, c)[k] == LiveCell(r, now, c)[k]
  {
    hide Item.Admissible, NewerThan, KeyLess, IsLive, Agenda, HoldsPrefix, LiveCell;
    CellEntry(r, now, c, k);
    var i := HeldIndex(r, s, now, p, k);
    AgendaItem(s, now, i);
  }

  lemma PrefixIsHeld(r: Store, s: Store, now: Time, p: nat, i: nat)
    requires Keyed(r) && Keyed(s) && HoldsPrefix(r, Agenda(s, now), now, p) && i < p
    ensures var x := Agenda(s, now)[i];
            x.SummaryKey() in LiveCell(r, now, x.Cell())
  {
  }

  /** The diff selects exactly the agenda beyond the prefix. */
  lemma SelectsTheRest(r: Store, s: Store, now: Time, universe: set<Item>, p: nat, i: nat)
    requires Ready(r, s, now, universe, p) && i < |Agenda(s, now)|
    ensures Agenda(s, now)[i].SummaryKey() in Chosen(r, s, now) <==> i >= p
  {
    hide Item.Admissible, NewerThan, KeyLess, IsLive, Traceable, Top, Agenda, BoundaryAscends,
         Selection, Marks;
    var x := Agenda(s, now)[i];
    var c, k := x.Cell(), x.SummaryKey();
    AgendaItem(s, now, i);
    LiveIsKeyed(s, now, universe);
    LiveIsKeyed(r, now, universe);
    SelectionAt(Live(s, now), Live(r, now), universe, k);
    var a, b := LiveCell(s, now, c), LiveCell(r, now, c);
    if i >= p {
      LaterIsAbsent(r, s, now, universe, p, i);
      if b != map[] { LaterIsNewer(r, s, now, universe, p, i); }
    } else {
      EntryInCell(r, now, k);
      if a != b {
        var j := DifferingCell(r, s, now, universe, p, c);
        var y := Agenda(s, now)[j];
        AgendaItem(s, now, j);
        LaterIsNewer(r, s, now, universe, p, j);
        EntryInCell(s, now, y.SummaryKey());
        NewerTransitive(VersionOf(Top(a)), VersionOf(y), VersionOf(Top(b)));
      }
    }
  }

  // ---- One bounded pull ----

  function Min(a: nat, b: nat): nat {
    if a < b then a else b
  }

  lemma RestIsListed(r: Store, s: Store, now: Time, universe: set<Item>, p: nat)
    requires Ready(r, s, now, universe, p)
    ensures Keyed(Chosen(r, s, now)) && Listing(Chosen(r, s, now)) == Agenda(s, now)[p..]
  {
    hide Item.Admissible, NewerThan, KeyLess, IsLive, Traceable, Top, Agenda, BoundaryAscends,
         Selection, Marks, Chosen, Keyed;
    var xs, d := Agenda(s, now), Chosen(r, s, now);
    var rest := xs[p..];
    ChosenWithin(r, s, now);
    forall x | x in rest ensures x.SummaryKey() in d && d[x.SummaryKey()] == x {
      var i :| p <= i < |xs| && xs[i] == x;
      SelectsTheRest(r, s, now, universe, p, i);
      AgendaItem(s, now, i);
    }
    forall k | k in d ensures d[k] in rest {
      var i := AgendaIndex(s, now, k);
      SelectsTheRest(r, s, now, universe, p, i);
      assert rest[i - p] == xs[i];
    }
    RestAscends(s, now, p);
    ListingUnique(Listing(d), rest, d);
  }

  lemma RestAscends(s: Store, now: Time, p: nat)
    requires Keyed(s) && p <= |Agenda(s, now)|
    ensures Ascending(Agenda(s, now)[p..]) && DistinctKeys(Agenda(s, now)[p..])
  {
  }

  lemma ChosenWithin(r: Store, s: Store, now: Time)
    requires Keyed(r) && Keyed(s)
    ensures Keyed(Chosen(r, s, now))
    ensures forall k :: k in Chosen(r, s, now) ==>
      k in Live(s, now) && k in s && Chosen(r, s, now)[k] == s[k]
  {
    hide Item.Admissible, IsLive, Wanted, Marks;
  }

  /** A bounded diff is the next chunk of the agenda, and says whether more is left. */
  lemma NextChunk(r: Store, s: Store, now: Time, universe: set<Item>, p: nat, limit: nat)
    requires Ready(r, s, now, universe, p) && limit > 0
    ensures Keyed(Live(r, now))
    ensures var xs := Agenda(s, now);
            DiffOf(s, Marks(Live(r, now)), DiffOptions(now, limit))
            == ItemDiff(xs[p..Min(p + limit, |xs|)], p + limit < |xs|)
  {
    hide Item.Admissible, NewerThan, KeyLess, IsLive, Traceable, Top, Agenda, BoundaryAscends,
         Selection, Marks;
    LiveIsKeyed(r, now, universe);
    RestIsListed(r, s, now, universe, p);
    var xs := Agenda(s, now);
    if p + limit < |xs| {
      assert xs[p..][..limit] == xs[p..p + limit];
    }
  }

  lemma ChunkItems(s: Store, now: Time, universe: set<Item>, p: nat, q: nat)
    requires Keyed(s) && Drawn(s, universe) && p <= q <= |Agenda(s, now)|
    ensures Ascending(Agenda(s, now)[p..q])
    ensures var d := StoreOf(Agenda(s, now)[p..q]);
            && Keyed(d) && Drawn(d, universe) && Enumerates(Agenda(s, now)[p..q], d)
            && (forall i :: 0 <= i < |Agenda(s, now)| ==>
                 (Agenda(s, now)[i].SummaryKey() in d <==> p <= i < q))
            && (forall i :: p <= i < q ==> d[Agenda(s, now)[i].SummaryKey()] == Agenda(s, now)[i])
  {
    hide Item.Admissible, KeyLess, IsLive, StoreOf, Agenda;
    var xs := Agenda(s, now);
    var ys := xs[p..q];
    RestAscends(s, now, 0);
    assert xs[0..] == xs;
    StoreOfLists(ys);
    var d := StoreOf(ys);
    forall i | 0 <= i < |xs| ensures xs[i].SummaryKey() in d <==> p <= i < q {
      if p <= i < q {
        assert ys[i - p] == xs[i];
        assert xs[i] in ys;
      }
      if xs[i].SummaryKey() in d {
        var j :| 0 <= j < |ys| && ys[j] == d[xs[i].SummaryKey()];
        KeyOfEntry(ys, d, xs[i].SummaryKey());
        AgendaKeysDiffer(s, now, i, p + j);
      }
    }
    forall i | p <= i < q ensures d[xs[i].SummaryKey()] == xs[i] {
      assert ys[i - p] == xs[i];
      assert xs[i] in ys;
    }
    ChunkIsDrawn(s, now, universe, p, q, d);
  }

  lemma ChunkIsDrawn(s: Store, now: Time, universe: set<Item>, p: nat, q: nat, d: Store)
    requires Keyed(s) && Drawn(s, universe) && p <= q <= |Agenda(s, now)|
    requires Ascending(Agenda(s, now)[p..q]) && d == StoreOf(Agenda(s, now)[p..q])
    ensures Keyed(d) && Drawn(d, universe)
  {
    hide Item.Admissible, KeyLess, IsLive, StoreOf, Agenda;
    var ys := Agenda(s, now)[p..q];
    forall k | k in d ensures d[k].SummaryKey() == k && d[k].Admissible() && d[k] in universe {
      KeyOfEntry(ys, d, k);
      var j :| 0 <= j < |ys| && ys[j] == d[k];
      AgendaItem(s, now, p + j);
    }
  }

  lemma KeyOfEntry(ys: seq<Item>, d: Store, k: Key)
    requires Ascending(ys) && d == StoreOf(ys) && k in d
    ensures d[k] in ys && d[k].SummaryKey() == k
  {
  }

  ghost predicate AllLive(xs: seq<Item>, now: Time) {
    forall i :: 0 <= i < |xs| ==> IsLive(xs[i], now)
  }

  /** d holds exactly the agenda from p to q. */
  ghost predicate IsChunk(d: Store, xs: seq<Item>, p: nat, q: nat) {
    && p <= q <= |xs|
    && (forall i :: 0 <= i < |xs| ==> (xs[i].SummaryKey() in d <==> p <= i < q))
    && (forall i :: p <= i < q ==> d[xs[i].SummaryKey()] == xs[i])
    && (forall k :: k in d ==> d[k] in xs[p..q])
  }

  lemma ChunkApplied(r: Store, d: Store, xs: seq<Item>, now: Time, p: nat, q: nat)
    requires HoldsPrefix(r, xs, now, p) && IsChunk(d, xs, p, q) && AllLive(xs, now)
    ensures HoldsPrefix(Merge(r, d), xs, now, q)
  {
    hide NewerThan, IsLive, Item.SummaryKey;
    var m := Merge(r, d);
    forall k | k in Live(m, now) ensures m[k] in xs[..q] {
      if k in d && m[k] == d[k] {
        var i :| 0 <= i < |xs[p..q]| && xs[p..q][i] == d[k];
        assert xs[..q][p + i] == m[k];
      } else {
        assert k in Live(r, now);
        var i :| 0 <= i < |xs[..p]| && xs[..p][i] == r[k];
        assert xs[..q][i] == m[k];
      }
    }
  }

  /** The next chunk of the agenda as a store. */
  lemma ChunkAsStore(s: Store, now: Time, universe: set<Item>, p: nat, q: nat)
    requires Keyed(s) && Drawn(s, universe) && p <= q <= |Agenda(s, now)|
    ensures var xs := Agenda(s, now);
            && AllLive(xs, now) && Ascending(xs[p..q])
            && var d := StoreOf(xs[p..q]);
               Keyed(d) && Drawn(d, universe) && Enumerates(xs[p..q], d) && IsChunk(d, xs, p, q)
  {
    hide Item.Admissible, KeyLess, IsLive, StoreOf, Agenda, Keyed, Drawn, Enumerates;
    var xs := Agenda(s, now);
    ChunkItems(s, now, universe, p, q);
    var d := StoreOf(xs[p..q]);
    forall k | k in d ensures d[k] in xs[p..q] { KeyOfEntry(xs[p..q], d, k); }
    forall i | 0 <= i < |xs| ensures IsLive(xs[i], now) { AgendaItem(s, now, i); }
  }

  lemma MergedStaysPaired(r: Store, s: Store, d: Store, universe: set<Item>)
    requires Paired(r, s, universe) && Keyed(d) && Drawn(d, universe)
    ensures Paired(Merge(r, d), s, universe)
  {
    hide Item.Admissible, NewerThan, Traceable;
  }

  /** A bounded pull extends the prefix by the limit, or to the end. */
  lemma BoundedPull(r: Store, s: Store, now: Time, universe: set<Item>, p: nat, limit: nat)
    requires Ready(r, s, now, universe, p) && limit > 0
    ensures var m, q := PullOf(r, s, DiffOptions(now, limit)), Min(p + limit, |Agenda(s, now)|);
            Paired(m, s, universe) && HoldsPrefix(m, Agenda(s, now), now, q)
  {
    hide Traceable, BoundaryAscends, Agenda, Ascending, Enumerates, IsChunk, AllLive, Merge, DiffOf, Live,
         Marks, HoldsPrefix, StoreOf, Keyed, Drawn, PutAll;
    PrefixFits(r, s, now, universe, p);
    var xs, q := Agenda(s, now), Min(p + limit, |Agenda(s, now)|);
    NextChunk(r, s, now, universe, p, limit);
    ChunkAsStore(s, now, universe, p, q);
    var d := StoreOf(xs[p..q]);
    PutAllMerges(r, xs[p..q], d);
    MergedStaysPaired(r, s, d, universe);
    ChunkApplied(r, d, xs, now, p, q);
  }

  lemma PrefixFits(r: Store, s: Store, now: Time, universe: set<Item>, p: nat)
    requires Paired(r, s, universe) && HoldsPrefix(r, Agenda(s, now), now, p)
    ensures p <= |Agenda(s, now)|
  {
  }

  // ---- The whole catch-up ----

  ghost function PullTimesWith(r: Store, s: Store, opts: DiffOptions, n: nat): (m: Store)
    requires Keyed(r) && Keyed(s)
    ensures Keyed(m)
  {
    if n == 0 then r
    else
      PullOfIsKeyed(PullTimesWith(r, s, opts, n - 1), s, opts);
      PullOf(PullTimesWith(r, s, opts, n - 1), s, opts)
  }

  /** As long as each chunk boundary ascends, each pull extends the prefix by a chunk. */
  lemma {:induction false} PrefixAfter(r: Store, s: Store, now: Time, universe: set<Item>, p: nat,
                                       limit: nat, n: nat)
    requires Paired(r, s, universe) && HoldsPrefix(r, Agenda(s, now), now, p) && limit > 0
    requires BoundariesAscend(Agenda(s, now), p, limit, Boundary(p, limit, n))
    ensures var m := PullTimesWith(r, s, DiffOptions(now, limit), n);
            && Paired(m, s, universe)
            && HoldsPrefix(m, Agenda(s, now), now, Min(Boundary(p, limit, n), |Agenda(s, now)|))
  {
    hide Item.Admissible, NewerThan, Traceable, Agenda, HoldsPrefix, Keyed, PullOf, BoundaryAscends, Boundary;
    PrefixFits(r, s, now, universe, p);
    FirstBoundary(p, limit);
    if n > 0 {
      NextBoundary(p, limit, n - 1);
      FewerBoundaries(Agenda(s, now), p, limit, Boundary(p, limit, n - 1), Boundary(p, limit, n));
      PrefixAfter(r, s, now, universe, p, limit, n - 1);
      var q := Min(Boundary(p, limit, n - 1), |Agenda(s, now)|);
      EndAscends(Agenda(s, now));
      BoundedPull(PullTimesWith(r, s, DiffOptions(now, limit), n - 1), s, now, universe, q, limit);
    }
  }

  lemma FirstBoundary(p: nat, limit: nat)
    ensures Boundary(p, limit, 0) == p
  {
  }

  lemma NextBoundary(p: nat, limit: nat, t: nat)
    ensures Boundary(p, limit, t + 1) == Boundary(p, limit, t) + limit
  {
  }

  lemma FewerBoundaries(xs: seq<Item>, p: nat, limit: nat, end: int, end': int)
    requires BoundariesAscend(xs, p, limit, end') && end <= end'
    ensures BoundariesAscend(xs, p, limit, end)
  {
    hide BoundaryAscends, Boundary;
  }

  lemma PrefixIsAll(r: Store, s: Store, now: Time, universe: set<Item>, p: nat)
    requires Paired(r, s, universe) && HoldsPrefix(r, Agenda(s, now), now, p)
    ensures Live(r, now) == Live(s, now) <==> p == |Agenda(s, now)|
  {
    hide Item.Admissible, NewerThan, KeyLess, IsLive, Traceable, Agenda, BoundaryAscends;
    PrefixFits(r, s, now, universe, p);
    var xs := Agenda(s, now);
    if p < |xs| {
      AgendaItem(s, now, p);
      LaterIsAbsent(r, s, now, universe, p, p);
      EntryInCell(r, now, xs[p].SummaryKey());
    } else {
      forall k | k in Live(r, now) ensures k in Live(s, now) && s[k] == r[k] {
        var i := HeldIndex(r, s, now, p, k);
        AgendaItem(s, now, i);
      }
      forall k | k in Live(s, now) ensures k in Live(r, now) {
        var i := AgendaIndex(s, now, k);
        AgendaItem(s, now, i);
      }
    }
  }

  function CeilDiv(n: nat, k: nat): nat
    requires k > 0
  {
    (n + k - 1) / k
  }

  lemma CeilDivIsLeast(n: nat, k: nat, m: nat)
    requires k > 0
    ensures m * k >= n <==> m >= CeilDiv(n, k)
  {
    var c := CeilDiv(n, k);
    assert c * k <= n + k - 1 < c * k + k;
    if m >= c {
      assert m * k >= c * k;
    } else {
      assert m * k <= (c - 1) * k == c * k - k;
    }
  }

  /** If every chunk boundary ascends, a receiver missing the last N items is caught
      up after m pulls exactly when m is at least ceil(N/limit); and from then on the
      diff is empty and not truncated. */
  lemma BoundedCatchUpExact(r: Store, s: Store, now: Time, universe: set<Item>, p: nat,
                            limit: nat, m: nat)
    requires Paired(r, s, universe) && HoldsPrefix(r, Agenda(s, now), now, p) && limit > 0
    requires BoundariesAscend(Agenda(s, now), p, limit, |Agenda(s, now)|)
    ensures p <= |Agenda(s, now)|
    ensures var caughtUp := PullTimesWith(r, s, DiffOptions(now, limit), m);
            && Keyed(Live(caughtUp, now))
            && (Live(caughtUp, now) == Live(s, now)
                <==> m >= CeilDiv(|Agenda(s, now)| - p, limit))
            && (m >= CeilDiv(|Agenda(s, now)| - p, limit) ==>
                DiffOf(s, Marks(Live(caughtUp, now)), DiffOptions(now, limit)) == ItemDiff([], false))
  {
    hide Item.Admissible, NewerThan, Traceable, Agenda, HoldsPrefix, Keyed, PullOf, BoundaryAscends,
         Marks, DiffOf, CeilDiv, Live;
    PrefixFits(r, s, now, universe, p);
    var caughtUp := PullTimesWith(r, s, DiffOptions(now, limit), m);
    var xs, q := Agenda(s, now), Min(Boundary(p, limit, m), |Agenda(s, now)|);
    BoundariesBeyond(xs, p, limit, Boundary(p, limit, m));
    PrefixAfter(r, s, now, universe, p, limit, m);
    PrefixIsAll(caughtUp, s, now, universe, q);
    CeilDivIsLeast(|xs| - p, limit, m);
    if m >= CeilDiv(|xs| - p, limit) {
      EndAscends(xs);
      NextChunk(caughtUp, s, now, universe, q, limit);
      assert xs[q..q] == [];
    }
    LiveStaysKeyed(caughtUp, s, now, universe);
  }

  lemma LiveStaysKeyed(r: Store, s: Store, now: Time, universe: set<Item>)
    requires Paired(r, s, universe)
    ensures Keyed(Live(r, now))
  {
    LiveIsKeyed(r, now, universe);
  }

  lemma EndAscends(xs: seq<Item>)
    ensures BoundaryAscends(xs, |xs|)
  {
  }

  /** Past the end there is nothing to ask of a boundary. */
  lemma BoundariesBeyond(xs: seq<Item>, p: nat, limit: nat, end: int)
    requires BoundariesAscend(xs, p, limit, |xs|)
    ensures BoundariesAscend(xs, p, limit, end)
  {
    hide NewerThan, Boundary;
  }

  lemma DiffIsDrawn(s: Store, view: map<CellID, CellWatermark>, opts: DiffOptions, universe: set<Item>)
    requires Keyed(s) && Drawn(s, universe)
    ensures forall x :: x in DiffOf(s, view, opts).items ==> x in universe
  {
    hide Item.Admissible, KeyLess, Wanted, IsLive;
    var d := Selection(Live(s, opts.now), view);
    forall x | x in DiffOf(s, view, opts).items ensures x in universe {
      assert x in Listing(d);
    }
  }
}
