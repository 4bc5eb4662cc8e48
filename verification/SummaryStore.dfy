/** The contents of a summary index, and Upsert as a join on them. */
module SummaryStore {
  import opened Items
  import opened VersionOrder

  type Store = map<Key, Item>

  /** The store invariant: admissible items, each under its own key. */
  ghost predicate Keyed(m: Store) {
    forall k :: k in m ==> m[k].SummaryKey() == k && m[k].Admissible()
  }

  /** What Upsert leaves in the store: the newest item of each key, first come on a tie. */
  function Put(m: Store, x: Item): Store {
    var k := x.SummaryKey();
    if x.Admissible() && (k !in m || Newer(x, m[k])) then m[k := x] else m
  }

  function PutAll(m: Store, xs: seq<Item>): Store
    decreases xs
  {
    if xs == [] then m else PutAll(Put(m, xs[0]), xs[1..])
  }

  /** No key is lost and no key's version goes back. */
  ghost predicate Advances(m: Store, m': Store) {
    forall k :: k in m ==> k in m' && (m'[k] == m[k] || Newer(m'[k], m[k]))
  }

  lemma AdvancesTransitive(a: Store, b: Store, c: Store)
    requires Advances(a, b) && Advances(b, c)
    ensures Advances(a, c)
  {
    forall k | k in a ensures k in c && (c[k] == a[k] || Newer(c[k], a[k])) {
      NewerAsymmetric(VersionOf(c[k]), VersionOf(b[k]));
      if Newer(c[k], b[k]) && Newer(b[k], a[k]) {
        NewerTransitive(VersionOf(c[k]), VersionOf(b[k]), VersionOf(a[k]));
      }
    }
  }

  /** Every admissible item of xs is matched or surpassed in m. */
  ghost predicate Covers(m: Store, xs: seq<Item>) {
    forall x :: x in xs && x.Admissible() ==> x.SummaryKey() in m && !Newer(x, m[x.SummaryKey()])
  }

  /** Every item of m' comes from m or from the admissible items of xs. */
  ghost predicate ComesFrom(m': Store, m: Store, xs: seq<Item>) {
    forall k :: k in m' ==>
      (k in m && m'[k] == m[k]) || (m'[k] in xs && m'[k].Admissible() && m'[k].SummaryKey() == k)
  }

  lemma PutAdvances(m: Store, x: Item)
    requires Keyed(m)
    ensures var n := Put(m, x);
            Keyed(n) && Advances(m, n)
            && (x.Admissible() ==> x.SummaryKey() in n && !Newer(x, n[x.SummaryKey()]))
  {
    hide Item.Admissible, NewerThan;
    NewerAsymmetric(VersionOf(x), VersionOf(x));
  }

  /** What was matched or surpassed stays so as versions advance. */
  lemma StaysCovered(n: Store, m: Store, x: Item)
    requires Advances(n, m)
    requires x.SummaryKey() in n && !Newer(x, n[x.SummaryKey()])
    ensures x.SummaryKey() in m && !Newer(x, m[x.SummaryKey()])
  {
    hide Item.Admissible, NewerThan;
    var a, b, c := VersionOf(x), VersionOf(n[x.SummaryKey()]), VersionOf(m[x.SummaryKey()]);
    if NewerThan(c, b) {
      NewerAsymmetric(c, b);
      NotNewerTransitive(a, b, c);
    }
  }

  /** Applying a list keeps the invariant, loses nothing, invents nothing and
      leaves nothing newer behind. */
  lemma {:induction false} PutAllNewest(m: Store, xs: seq<Item>)
    requires Keyed(m)
    ensures var m' := PutAll(m, xs);
            Keyed(m') && Advances(m, m') && Covers(m', xs) && ComesFrom(m', m, xs)
    decreases xs
  {
    hide Item.Admissible, NewerThan;
    if xs != [] {
      var x, n, m' := xs[0], Put(m, xs[0]), PutAll(m, xs);
      PutAdvances(m, x);
      PutAllNewest(n, xs[1..]);
      AdvancesTransitive(m, n, m');
      assert forall y :: y in xs ==> y == x || y in xs[1..];
      if x.Admissible() { StaysCovered(n, m', x); }
    }
  }

  // ---- Order and duplication ----

  ghost predicate SameItems(xs: seq<Item>, ys: seq<Item>) {
    forall x :: x in xs <==> x in ys
  }

  ghost predicate Rivals(x: Item, y: Item) {
    && x != y && x.SummaryKey() == y.SummaryKey()
    && x.Admissible() && y.Admissible()
    && !Newer(x, y) && !Newer(y, x)
  }

  ghost predicate Unsurpassed(x: Item, xs: seq<Item>) {
    forall z :: z in xs && z.Admissible() && z.SummaryKey() == x.SummaryKey() ==> !Newer(z, x)
  }

  /** Two different items of one key tie for newest. */
  ghost predicate Contested(xs: seq<Item>) {
    exists x, y :: x in xs && y in xs && Rivals(x, y) && Unsurpassed(x, xs)
  }

  ghost predicate OrderFree(xs: seq<Item>) {
    forall ys :: SameItems(xs, ys) ==> PutAll(map[], ys) == PutAll(map[], xs)
  }

  /** The store built from a set of items does not depend on arrival order or
      duplication exactly when no two of them tie for newest under one key. */
  lemma UpsertIsJoin(xs: seq<Item>)
    ensures OrderFree(xs) <==> !Contested(xs)
  {
    if Contested(xs) {
      var x, y :| x in xs && y in xs && Rivals(x, y) && Unsurpassed(x, xs);
      ContestedDepends(xs, x, y);
    } else {
      forall ys | SameItems(xs, ys) ensures PutAll(map[], ys) == PutAll(map[], xs) {
        UncontestedAgree(xs, ys);
      }
    }
  }

  lemma UncontestedAgree(xs: seq<Item>, ys: seq<Item>)
    requires !Contested(xs) && SameItems(xs, ys)
    ensures PutAll(map[], ys) == PutAll(map[], xs)
  {
    hide Item.Admissible, NewerThan;
    var m, n := PutAll(map[], xs), PutAll(map[], ys);
    PutAllNewest(map[], xs);
    PutAllNewest(map[], ys);
    forall k | k in m ensures k in n && n[k] == m[k] { OneNewest(xs, ys, m, n, k); }
    forall k | k in n ensures k in m { assert n[k] in xs; }
  }

  lemma OneNewest(xs: seq<Item>, ys: seq<Item>, m: Store, n: Store, k: Key)
    requires !Contested(xs) && SameItems(xs, ys)
    requires Keyed(m) && Covers(m, xs) && ComesFrom(m, map[], xs)
    requires Keyed(n) && Covers(n, ys) && ComesFrom(n, map[], ys)
    requires k in m
    ensures k in n && n[k] == m[k]
  {
    hide Item.Admissible, NewerThan;
    assert m[k] in ys;
    assert n[k] in xs;
    assert Unsurpassed(m[k], xs);
    assert !Newer(n[k], m[k]) && !Newer(m[k], n[k]);
  }

  lemma ContestedDepends(xs: seq<Item>, x: Item, y: Item)
    requires x in xs && y in xs && Rivals(x, y) && Unsurpassed(x, xs)
    ensures !OrderFree(xs)
  {
    hide Item.Admissible, NewerThan, PutAll;
    forall z | z in xs && z.Admissible() && z.SummaryKey() == y.SummaryKey() ensures !Newer(z, y) {
      NotNewerTransitive(VersionOf(z), VersionOf(x), VersionOf(y));
    }
    FirstStays(map[], x, xs);
    FirstStays(map[], y, xs);
    assert SameItems(xs, [x] + xs) && SameItems(xs, [y] + xs);
  }

  /** An unsurpassed item that arrives first is never replaced. */
  lemma FirstStays(m: Store, x: Item, xs: seq<Item>)
    requires x.SummaryKey() !in m && x.Admissible() && Unsurpassed(x, xs) && Keyed(m)
    ensures var n := PutAll(m, [x] + xs); x.SummaryKey() in n && n[x.SummaryKey()] == x
  {
    hide Item.Admissible, NewerThan;
    var k, n := x.SummaryKey(), PutAll(m, [x] + xs);
    PutAllNewest(m[k := x], xs);
    assert ([x] + xs)[1..] == xs;
    assert n == PutAll(m[k := x], xs);
    NewerAsymmetric(VersionOf(x), VersionOf(x));
  }

  // ---- Merging two stores ----

  /** Per key the newer of the two, m's own on a tie. */
  function Merge(m: Store, d: Store): Store {
    map k | k in m.Keys + d.Keys :: if k in d && (k !in m || Newer(d[k], m[k])) then d[k] else m[k]
  }

  ghost predicate DistinctKeys(xs: seq<Item>) {
    forall i, j :: 0 <= i < j < |xs| ==> xs[i].SummaryKey() != xs[j].SummaryKey()
  }

  /** xs enumerates the items of d, one per key. */
  ghost predicate Enumerates(xs: seq<Item>, d: Store) {
    && DistinctKeys(xs)
    && (forall x :: x in xs ==> x.SummaryKey() in d && d[x.SummaryKey()] == x)
    && (forall k :: k in d ==> d[k] in xs)
  }

  lemma EnumeratesRest(xs: seq<Item>, d: Store)
    requires Enumerates(xs, d) && Keyed(d) && xs != []
    ensures xs[0].SummaryKey() in d && d[xs[0].SummaryKey()] == xs[0]
    ensures Enumerates(xs[1..], d - {xs[0].SummaryKey()})
  {
    hide Item.Admissible;
    var rest := d - {xs[0].SummaryKey()};
    assert xs[0] in xs;
    forall y | y in xs[1..] ensures y.SummaryKey() in rest && rest[y.SummaryKey()] == y {
      var i :| 0 <= i < |xs[1..]| && xs[1..][i] == y;
      assert y == xs[i + 1];
    }
    forall k | k in rest ensures rest[k] in xs[1..] {
      assert d[k] in xs;
      assert xs == [xs[0]] + xs[1..];
    }
  }

  lemma {:induction false} EnumerationLength(xs: seq<Item>, d: Store)
    requires Enumerates(xs, d) && Keyed(d)
    ensures |xs| == |d|
    decreases xs
  {
    hide Item.Admissible;
    if xs == [] {
      assert d == map[];
    } else {
      EnumeratesRest(xs, d);
      EnumerationLength(xs[1..], d - {xs[0].SummaryKey()});
      assert d.Keys == (d - {xs[0].SummaryKey()}).Keys + {xs[0].SummaryKey()};
    }
  }

  lemma EnumeratesMore(xs: seq<Item>, d: Store, x: Item)
    requires Enumerates(xs, d) && x.SummaryKey() !in d
    ensures Enumerates([x] + xs, d[x.SummaryKey() := x])
  {
  }

  lemma MergeStep(m: Store, x: Item, d: Store)
    requires x.SummaryKey() in d && d[x.SummaryKey()] == x && x.Admissible()
    ensures Merge(Put(m, x), d - {x.SummaryKey()}) == Merge(m, d)
  {
  }

  /** Upserting an enumeration, in whatever order, merges the store. */
  lemma {:induction false} PutAllMerges(m: Store, xs: seq<Item>, d: Store)
    requires Enumerates(xs, d) && Keyed(d)
    ensures PutAll(m, xs) == Merge(m, d)
    decreases xs
  {
    hide Item.Admissible, NewerThan;
    if xs == [] {
      assert d == map[];
      assert Merge(m, d) == m;
    } else {
      EnumeratesRest(xs, d);
      PutAllMerges(Put(m, xs[0]), xs[1..], d - {xs[0].SummaryKey()});
      MergeStep(m, xs[0], d);
    }
  }
}
